/**
 What stays true over any sequence of fresh launches and resumes on one output directory
 (cyber_megatron_training.py).
 */
module LaunchHistory {
  import opened Ordering
  import opened LaunchProtocol

  // ----- the run identity is bound once

  /** At most one process made the output directory, and only it may still have to write the identity. */
  ghost predicate BindingInv(s: System) {
    && (forall p, q :: p in s.procs && q in s.procs && s.procs[p].made && s.procs[q].made ==> p == q)
    && (forall p :: p in s.procs && s.procs[p].made ==> s.store.exists_)
    && (forall p :: p in s.procs && s.procs[p].control.Binding? ==> s.procs[p].made && s.store.identity.None?)
    && (s.store.identity.Some? ==> s.store.exists_)
    && (s.store.identity.Some? ==> MadeFor(s, s.store.identity.value))
  }

  /** The process that made the directory was launched with this identity. */
  ghost predicate MadeFor(s: System, identity: Identity) {
    exists p :: p in s.procs && s.procs[p].made && s.procs[p].env.identity == identity
  }

  /** A step changes one process, never its environment, and never forgets that it made the directory. */
  ghost predicate Framed(s: System, pid: nat, s': System) {
    && pid in s.procs && pid in s'.procs && s'.procs == s.procs[pid := s'.procs[pid]]
    && s'.procs[pid].env == s.procs[pid].env
  }

  lemma BindingActIsFramed(s: System, pid: nat, s': System)
    requires BindingAct(s, pid, s')
    ensures Framed(s, pid, s') && s'.journal == s.journal
  {
  }

  lemma WaitingActIsFramed(s: System, pid: nat, s': System)
    requires WaitingAct(s, pid, s')
    ensures Framed(s, pid, s') && s'.store == s.store && s'.journal == s.journal
    ensures s'.procs[pid].made == s.procs[pid].made && !s'.procs[pid].control.Binding?
  {
  }

  lemma BarrierActIsFramed(s: System, pid: nat, s': System)
    requires BarrierAct(s, pid, s')
    ensures Framed(s, pid, s') && s'.store == s.store.(receipts := s'.store.receipts) && s'.journal == s.journal
    ensures s'.procs[pid].made == s.procs[pid].made && !s'.procs[pid].control.Binding?
  {
  }

  lemma WriteActIsFramed(s: System, pid: nat, s': System)
    requires WriteAct(s, pid, s')
    ensures Framed(s, pid, s') && s'.store == s.store.(state := s'.store.state)
    ensures s'.procs[pid].made == s.procs[pid].made && !s'.procs[pid].control.Binding?
    ensures exists e :: s'.journal == s.journal + [e] && s'.store.state == Some(e)
  {
  }

  lemma MakerStays(s: System, pid: nat, s': System)
    requires Framed(s, pid, s') && (s.procs[pid].made ==> s'.procs[pid].made)
    ensures forall identity :: MadeFor(s, identity) ==> MadeFor(s', identity)
  {
    forall identity | MadeFor(s, identity) ensures MadeFor(s', identity) {
      var p :| p in s.procs && s.procs[p].made && s.procs[p].env.identity == identity;
      assert s'.procs[p].made && s'.procs[p].env == s.procs[p].env;
    }
  }

  lemma StartKeepsBinding(s: System, pid: nat, s': System)
    requires BindingInv(s) && Start(s, pid, s')
    ensures BindingInv(s') && s'.store == s.store
  {
    if s.store.identity.Some? {
      var p :| p in s.procs && s.procs[p].made && s.procs[p].env.identity == s.store.identity.value;
      assert s'.procs[p].made;
    }
  }

  lemma QuietKeepsBinding(s: System, pid: nat, s': System)
    requires BindingInv(s) && Framed(s, pid, s')
    requires s'.store.exists_ == s.store.exists_ && s'.store.identity == s.store.identity
    requires s'.procs[pid].made == s.procs[pid].made && !s'.procs[pid].control.Binding?
    ensures BindingInv(s')
  {
    MakerStays(s, pid, s');
    hide MadeFor;
  }

  lemma MakeOutputKeepsBinding(s: System, pid: nat, s': System)
    requires BindingInv(s) && MakeOutput(s, pid, s')
    ensures BindingInv(s') && s'.store.identity == s.store.identity
    ensures s.store.exists_ ==> s'.store.exists_
  {
    MakerStays(s, pid, s');
    hide MadeFor;
  }

  lemma BindIdentityKeepsBinding(s: System, pid: nat, s': System)
    requires BindingInv(s) && BindIdentity(s, pid, s')
    ensures BindingInv(s') && s.store.identity.None? && s'.store.exists_ == s.store.exists_
  {
    assert s'.procs[pid].made && s'.procs[pid].env.identity == s'.store.identity.value;
  }

  lemma CheckingActIsQuiet(s: System, pid: nat, s': System)
    requires ValidateBinding(s, pid, s') || CheckState(s, pid, s')
    ensures Framed(s, pid, s') && s'.store == s.store
    ensures s'.procs[pid].made == s.procs[pid].made && !s'.procs[pid].control.Binding?
  {
  }

  lemma BindingActKeepsBinding(s: System, pid: nat, s': System)
    requires BindingInv(s) && BindingAct(s, pid, s')
    ensures BindingInv(s')
    ensures s.store.identity.Some? ==> s'.store.identity == s.store.identity
    ensures s.store.exists_ ==> s'.store.exists_
  {
    hide BindingInv, MakeOutput, BindIdentity, ValidateBinding, CheckState;
    if MakeOutput(s, pid, s') {
      MakeOutputKeepsBinding(s, pid, s');
    } else if BindIdentity(s, pid, s') {
      BindIdentityKeepsBinding(s, pid, s');
    } else {
      CheckingActIsQuiet(s, pid, s');
      QuietKeepsBinding(s, pid, s');
    }
  }

  lemma StepKeepsBinding(s: System, s': System)
    requires BindingInv(s) && Next(s, s')
    ensures BindingInv(s')
    ensures s.store.identity.Some? ==> s'.store.identity == s.store.identity
    ensures s.store.exists_ ==> s'.store.exists_
  {
    var pid :| Start(s, pid, s') || Act(s, pid, s');
    hide MadeFor, BindingInv;
    if Start(s, pid, s') {
      StartKeepsBinding(s, pid, s');
    } else if BindingAct(s, pid, s') {
      BindingActKeepsBinding(s, pid, s');
    } else {
      if WaitingAct(s, pid, s') {
        WaitingActIsFramed(s, pid, s');
      } else if BarrierAct(s, pid, s') {
        BarrierActIsFramed(s, pid, s');
      } else {
        WriteActIsFramed(s, pid, s');
      }
      QuietKeepsBinding(s, pid, s');
    }
  }

  lemma {:induction false} BindingInvHolds(run: seq<System>, i: nat)
    requires IsRun(run) && i < |run|
    ensures BindingInv(run[i])
  {
    if i > 0 {
      BindingInvHolds(run, i - 1);
      StepKeepsBinding(run[i - 1], run[i]);
    }
  }

  /** Once written, the run identity never changes, whatever launches follow. */
  lemma {:induction false} IdentityNeverChanges(run: seq<System>, i: nat, j: nat)
    requires IsRun(run) && i <= j < |run| && run[i].store.identity.Some?
    ensures run[j].store.identity == run[i].store.identity
    decreases j
  {
    hide BindingInv, Next;
    if i < j {
      IdentityNeverChanges(run, i, j - 1);
      BindingInvHolds(run, j - 1);
      StepKeepsBinding(run[j - 1], run[j]);
    }
  }

  /**
   At most one fresh launch ever makes the output directory, and the identity on disk, once there is one, is
   the one that launch was started with.
   */
  lemma OneFreshLaunchBinds(run: seq<System>, i: nat, p: nat, q: nat)
    requires IsRun(run) && i < |run| && p in run[i].procs && q in run[i].procs
    requires run[i].procs[p].made && run[i].procs[q].made
    ensures p == q
    ensures run[i].store.identity.Some? ==> run[i].store.identity.value == run[i].procs[p].env.identity
  {
    BindingInvHolds(run, i);
  }

  /** An identity on disk was always put there by a fresh launch that made the directory for it. */
  lemma IdentityIsMakers(run: seq<System>, i: nat)
    requires IsRun(run) && i < |run| && run[i].store.identity.Some?
    ensures MadeFor(run[i], run[i].store.identity.value)
  {
    BindingInvHolds(run, i);
  }

  // ----- the launch state moves forward within a session

  /** The phases one session has written, oldest first. */
  function PhasesOf(journal: seq<LaunchState>, session: Id): seq<Phase> {
    if journal == [] then [] else
    var last := journal[|journal| - 1];
    PhasesOf(journal[..|journal| - 1], session) + (if last.session == session then [last.phase] else [])
  }

  /** Launching, ready, completed, cut short anywhere; or ending in failed after launching or after ready. */
  predicate Lawful(phases: seq<Phase>) {
    phases <= [Launching, Ready, Completed] || phases == [Launching, Failed] || phases == [Launching, Ready, Failed]
  }

  ghost predicate AllLawful(journal: seq<LaunchState>) {
    forall session :: Lawful(PhasesOf(journal, session))
  }

  /** What rank 0 of a session has written by the time it is at a point. */
  predicate HasWritten(phases: seq<Phase>, control: Control) {
    match control
    case Starting => phases == []
    case Binding => phases == []
    case Checking => phases == []
    case Publishing => phases == []
    case Waiting => false
    case Comparing(_) => false
    case Planning => phases == [Launching]
    case Announcing => phases == [Launching]
    case Scanning(_, _) => phases == [Launching]
    case Opening => phases == [Launching]
    case AtBarrier => false
    case Running => phases == [Launching, Ready]
    case Completing => phases == [Launching, Ready]
    case Failing => phases == [Launching] || phases == [Launching, Ready]
    case Over => true
  }

  ghost predicate InStep(journal: seq<LaunchState>, p: Process) {
    p.env.rank == 0 ==> HasWritten(PhasesOf(journal, p.env.session), p.control)
  }

  /** Rank 0 of its session wrote every entry. */
  ghost predicate HasWriter(s: System, session: Id) {
    exists pid :: pid in s.procs && s.procs[pid].env.rank == 0 && s.procs[pid].env.session == session
  }

  ghost predicate JournalInv(s: System) {
    && AllLawful(s.journal)
    && (forall session :: PhasesOf(s.journal, session) != [] ==> HasWriter(s, session))
    && (forall pid :: pid in s.procs ==> InStep(s.journal, s.procs[pid]))
  }

  lemma PhasesStep(journal: seq<LaunchState>, e: LaunchState, session: Id)
    ensures PhasesOf(journal + [e], session)
            == PhasesOf(journal, session) + (if e.session == session then [e.phase] else [])
  {
    assert (journal + [e])[..|journal|] == journal;
  }

  /** Processes keep their environments, so sessions keep their writers. */
  lemma WritersStay(s: System, pid: nat, s': System, session: Id)
    requires Framed(s, pid, s') && HasWriter(s, session)
    ensures HasWriter(s', session)
  {
    var q :| q in s.procs && s.procs[q].env.rank == 0 && s.procs[q].env.session == session;
    assert s'.procs[q].env == s.procs[q].env;
  }

  /** Moving one process to a point that what it has written allows. */
  lemma MoveKeepsJournal(s: System, pid: nat, s': System)
    requires JournalInv(s) && Framed(s, pid, s') && s'.journal == s.journal && InStep(s.journal, s'.procs[pid])
    ensures JournalInv(s')
  {
    hide InStep, HasWriter, Lawful, PhasesOf;
    forall session | PhasesOf(s'.journal, session) != [] ensures HasWriter(s', session) {
      WritersStay(s, pid, s', session);
    }
  }

  /** Rank 0 writes the next phase of its session. */
  lemma WriteKeepsJournal(s: System, pid: nat, s': System, e: LaunchState)
    requires JournalInv(s) && Ordered(s) && Framed(s, pid, s') && s'.journal == s.journal + [e]
    requires s.procs[pid].env.rank == 0 && e.session == s.procs[pid].env.session
    requires Lawful(PhasesOf(s.journal, e.session) + [e.phase])
    requires HasWritten(PhasesOf(s.journal, e.session) + [e.phase], s'.procs[pid].control)
    ensures JournalInv(s')
  {
    hide HasWritten, Lawful, PhasesOf;
    forall session ensures Lawful(PhasesOf(s'.journal, session)) {
      PhasesStep(s.journal, e, session);
      assert PhasesOf(s.journal, session) + [] == PhasesOf(s.journal, session);
    }
    forall session | PhasesOf(s'.journal, session) != [] ensures HasWriter(s', session) {
      PhasesStep(s.journal, e, session);
      if session == e.session {
        assert s'.procs[pid].env.session == session;
      } else {
        WritersStay(s, pid, s', session);
      }
    }
    forall q | q in s'.procs ensures InStep(s'.journal, s'.procs[q]) {
      OtherSessionsUndisturbed(s, pid, s', e, q);
    }
  }

  lemma OtherSessionsUndisturbed(s: System, pid: nat, s': System, e: LaunchState, q: nat)
    requires Ordered(s) && Framed(s, pid, s') && s'.journal == s.journal + [e] && q in s'.procs
    requires s.procs[pid].env.rank == 0 && e.session == s.procs[pid].env.session
    requires q in s.procs && InStep(s.journal, s.procs[q])
    requires HasWritten(PhasesOf(s.journal, e.session) + [e.phase], s'.procs[pid].control)
    ensures InStep(s'.journal, s'.procs[q])
  {
    hide HasWritten, PhasesOf;
    var session := s'.procs[q].env.session;
    PhasesStep(s.journal, e, session);
    assert InOrder(s.procs[q].env, s.procs[pid].env, q == pid);
    assert PhasesOf(s.journal, session) + [] == PhasesOf(s.journal, session);
  }

  lemma StartKeepsJournal(s: System, pid: nat, s': System)
    requires JournalInv(s) && Start(s, pid, s') && Disciplined(s, s'.procs[pid].env)
    ensures JournalInv(s')
  {
    hide HasWritten, Lawful, PhasesOf;
    var env := s'.procs[pid].env;
    forall session | PhasesOf(s'.journal, session) != [] ensures HasWriter(s', session) {
      assert HasWriter(s, session);
      var q :| q in s.procs && s.procs[q].env.rank == 0 && s.procs[q].env.session == session;
      assert s'.procs[q].env == s.procs[q].env;
    }
    NothingWrittenYet(s, env);
    StartingHasWrittenNothing(s'.journal, s'.procs[pid]);
  }

  /** A new rank 0 of a disciplined run finds nothing written for its session. */
  lemma NothingWrittenYet(s: System, env: Env)
    requires JournalInv(s) && Disciplined(s, env)
    ensures env.rank == 0 ==> PhasesOf(s.journal, env.session) == []
  {
    assert env.rank == 0 ==> !HasWriter(s, env.session);
  }

  lemma StartingHasWrittenNothing(journal: seq<LaunchState>, p: Process)
    requires p.control == Starting && (p.env.rank == 0 ==> PhasesOf(journal, p.env.session) == [])
    ensures InStep(journal, p)
  {
  }

  /** Which phase is written on the way from one point to the next. */
  predicate Writing(from: Control, phase: Phase, to: Control) {
    || (from == Publishing && phase == Launching && to == Planning)
    || (from == Opening && phase == Ready && to == Running)
    || (from == Completing && phase == Completed && to == Over)
    || (from == Failing && phase == Failed && to == Over)
  }

  lemma WritingIsLawful(phases: seq<Phase>, from: Control, phase: Phase, to: Control)
    requires HasWritten(phases, from) && Writing(from, phase, to)
    ensures Lawful(phases + [phase]) && HasWritten(phases + [phase], to)
  {
    assert phases == [] ==> phases + [phase] == [phase];
    assert phases == [Launching] ==> phases + [phase] == [Launching, phase];
    assert phases == [Launching, Ready] ==> phases + [phase] == [Launching, Ready, phase];
  }

  lemma WriteActMeaning(s: System, pid: nat, s': System) returns (e: LaunchState)
    requires WriteAct(s, pid, s')
    ensures Framed(s, pid, s') && s'.journal == s.journal + [e] && e.session == s.procs[pid].env.session
    ensures Writing(s.procs[pid].control, e.phase, s'.procs[pid].control)
  {
    WriteActIsFramed(s, pid, s');
    e := s'.journal[|s.journal|];
  }

  lemma WriterIsRankZero(receipts: Receipts, p: Process, phase: Phase, to: Control)
    requires ProcessFits(receipts, p) && Writing(p.control, phase, to)
    ensures p.env.rank == 0
  {
  }

  lemma WriteStepKeepsJournal(s: System, pid: nat, s': System)
    requires JournalInv(s) && Ordered(s) && AllFit(s) && WriteAct(s, pid, s')
    ensures JournalInv(s')
  {
    var e := WriteActMeaning(s, pid, s');
    JournalKeepsStep(s, pid);
    var p := s.procs[pid];
    assert ProcessFits(s.store.receipts, p);
    hide WriteAct, JournalInv, PhasesOf, ProcessFits, Writing, HasWritten, Lawful, Ordered;
    WriterIsRankZero(s.store.receipts, p, e.phase, s'.procs[pid].control);
    WritingIsLawful(PhasesOf(s.journal, e.session), p.control, e.phase, s'.procs[pid].control);
    WriteKeepsJournal(s, pid, s', e);
  }

  lemma JournalKeepsStep(s: System, pid: nat)
    requires JournalInv(s) && pid in s.procs
    ensures InStep(s.journal, s.procs[pid])
  {
  }

  lemma BindingMoveAllowed(s: System, pid: nat, s': System, phases: seq<Phase>)
    requires BindingAct(s, pid, s') && s.procs[pid].env.rank == 0 && HasWritten(phases, s.procs[pid].control)
    ensures HasWritten(phases, s'.procs[pid].control)
  {
  }

  lemma WaitingMoveAllowed(s: System, pid: nat, s': System, phases: seq<Phase>)
    requires WaitingAct(s, pid, s') && s.procs[pid].env.rank == 0 && HasWritten(phases, s.procs[pid].control)
    ensures HasWritten(phases, s'.procs[pid].control)
  {
  }

  lemma BarrierMoveAllowed(s: System, pid: nat, s': System, phases: seq<Phase>)
    requires BarrierAct(s, pid, s') && s.procs[pid].env.rank == 0 && HasWritten(phases, s.procs[pid].control)
    ensures HasWritten(phases, s'.procs[pid].control)
  {
  }

  /** Every other step leaves the journal alone, and moves a process only where what it has written allows. */
  lemma QuietStepKeepsJournal(s: System, pid: nat, s': System)
    requires JournalInv(s) && (BindingAct(s, pid, s') || WaitingAct(s, pid, s') || BarrierAct(s, pid, s'))
    ensures JournalInv(s')
  {
    hide JournalInv, BindingAct, WaitingAct, BarrierAct, HasWritten, PhasesOf;
    if BindingAct(s, pid, s') {
      BindingActIsFramed(s, pid, s');
    } else if WaitingAct(s, pid, s') {
      WaitingActIsFramed(s, pid, s');
    } else {
      BarrierActIsFramed(s, pid, s');
    }
    JournalKeepsStep(s, pid);
    var phases := PhasesOf(s.journal, s.procs[pid].env.session);
    if s.procs[pid].env.rank == 0 {
      if BindingAct(s, pid, s') {
        BindingMoveAllowed(s, pid, s', phases);
      } else if WaitingAct(s, pid, s') {
        WaitingMoveAllowed(s, pid, s', phases);
      } else {
        BarrierMoveAllowed(s, pid, s', phases);
      }
    }
    MoveKeepsJournal(s, pid, s');
  }

  lemma StepKeepsJournal(s: System, s': System)
    requires JournalInv(s) && BarrierInv(s) && DisciplinedNext(s, s')
    ensures JournalInv(s')
  {
    hide JournalInv, Ordered, AllFit;
    var pid :| (Start(s, pid, s') && Disciplined(s, s'.procs[pid].env)) || Act(s, pid, s');
    if Start(s, pid, s') && Disciplined(s, s'.procs[pid].env) {
      StartKeepsJournal(s, pid, s');
    } else if WriteAct(s, pid, s') {
      WriteStepKeepsJournal(s, pid, s');
    } else {
      QuietStepKeepsJournal(s, pid, s');
    }
  }

  lemma EmptyJournal()
    ensures JournalInv(EMPTY)
  {
  }

  lemma {:induction false} JournalInvHolds(run: seq<System>, i: nat)
    requires IsDisciplinedRun(run) && i < |run|
    ensures JournalInv(run[i])
  {
    EmptyJournal();
    hide JournalInv, BarrierInv, DisciplinedNext;
    if i > 0 {
      JournalInvHolds(run, i - 1);
      BarrierInvHolds(run, i - 1);
      StepKeepsJournal(run[i - 1], run[i]);
    }
  }

  /**
   However the writes of other sessions fall in between, each session writes launching first, then ready, then
   completed, and skips nothing; only failed may come instead of ready or of completed, and nothing follows either end.
   */
  lemma LaunchStateMovesForward(run: seq<System>, i: nat, session: Id)
    requires IsDisciplinedRun(run) && i < |run|
    ensures var phases := PhasesOf(run[i].journal, session);
            || phases == [] || phases == [Launching] || phases == [Launching, Ready]
            || phases == [Launching, Ready, Completed] || phases == [Launching, Failed]
            || phases == [Launching, Ready, Failed]
  {
    hide PhasesOf;
    JournalInvHolds(run, i);
    var phases := PhasesOf(run[i].journal, session);
    assert Lawful(phases);
    if phases <= [Launching, Ready, Completed] {
      PrefixesOfSuccess(phases);
    }
  }

  lemma PrefixesOfSuccess(phases: seq<Phase>)
    requires phases <= [Launching, Ready, Completed]
    ensures phases == [] || phases == [Launching]
            || phases == [Launching, Ready] || phases == [Launching, Ready, Completed]
  {
    var full := [Launching, Ready, Completed];
    assert phases == full[..|phases|];
  }

  /** The journal is what was written: its last entry is the launch state on disk. */
  ghost predicate JournalIsHistory(s: System) {
    if s.journal == [] then s.store.state.None? else s.store.state == Some(s.journal[|s.journal| - 1])
  }

  lemma StepExtendsHistory(s: System, s': System)
    requires JournalIsHistory(s) && Next(s, s')
    ensures JournalIsHistory(s') && s.journal <= s'.journal
  {
    var pid :| Start(s, pid, s') || Act(s, pid, s');
    if Start(s, pid, s') {
    } else if BindingAct(s, pid, s') {
      assert s'.store.state == s.store.state && s'.journal == s.journal;
    } else if WaitingAct(s, pid, s') {
      WaitingActIsFramed(s, pid, s');
    } else if BarrierAct(s, pid, s') {
      BarrierActIsFramed(s, pid, s');
    } else {
      WriteActIsFramed(s, pid, s');
    }
  }

  lemma {:induction false} StateIsLastEntry(run: seq<System>, i: nat)
    requires IsRun(run) && i < |run|
    ensures JournalIsHistory(run[i])
    ensures i > 0 ==> run[i - 1].journal <= run[i].journal
  {
    if i > 0 {
      StateIsLastEntry(run, i - 1);
      assert Next(run[i - 1], run[i]);
      StepExtendsHistory(run[i - 1], run[i]);
    }
  }

  /**
   In any run, a resume is accepted iff nothing was written yet, or the last entry ever written has the
   same identity and rendezvous and another session. Sessions recorded earlier are not looked at.
   */
  lemma ResumeComparesWithLastEntry(run: seq<System>, i: nat, pid: nat)
    requires IsRun(run) && i + 1 < |run| && CheckState(run[i], pid, run[i + 1])
    ensures var env := run[i].procs[pid].env; var journal := run[i].journal;
            At(run[i + 1], pid, Publishing) <==>
            journal == []
            || (var last := journal[|journal| - 1];
                last.session != env.session && last.identity == env.identity && last.rendezvous == env.rendezvous)
  {
    StateIsLastEntry(run, i);
  }
}
