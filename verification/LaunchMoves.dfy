/**
 When a process of a launch may move on (cyber_megatron_training.py): what has been published before it, and what it
 must have read. A process may die at any point; nothing else may take it past a state that is not its own.
 */
module LaunchMoves {
  import opened Ordering
  import opened LaunchProtocol
  import opened LaunchHistory

  /** Some step takes the process to this point. */
  ghost predicate MayReach(s: System, pid: nat, control: Control) {
    exists s' :: Next(s, s') && At(s', pid, control)
  }

  /** The launch state that rank 0 of the process's own launch writes in a phase. */
  function OwnState(env: Env, phase: Phase): LaunchState {
    LaunchState(env.identity, env.session, env.rendezvous, phase)
  }

  // ----- what is on disk before a process moves on

  /** Rank 0 has bound or validated the directory; the others have compared it. */
  predicate PastBinding(control: Control) {
    match control
    case Starting => false
    case Binding => false
    case Waiting => false
    case Comparing(_) => false
    case Over => false
    case _ => true
  }

  predicate PastPublishing(control: Control) {
    PastBinding(control) && !control.Checking? && !control.Publishing?
  }

  predicate PastBarrier(control: Control) {
    control.Running? || control.Completing?
  }

  ghost predicate Founded(identity: Option<Identity>, journal: seq<LaunchState>, p: Process) {
    && (p.control.Comparing? ==> identity == Some(p.control.observed))
    && (PastBinding(p.control) || p.announced ==> identity == Some(p.env.identity))
    && (PastPublishing(p.control) || p.announced ==> OwnState(p.env, Launching) in journal)
    && (PastBarrier(p.control) ==> OwnState(p.env, Ready) in journal)
  }

  ghost predicate AllFounded(s: System) {
    forall pid :: pid in s.procs ==> Founded(s.store.identity, s.journal, s.procs[pid])
  }

  lemma FoundedStays(identity: Option<Identity>, journal: seq<LaunchState>, p: Process,
                     identity': Option<Identity>, journal': seq<LaunchState>)
    requires Founded(identity, journal, p) && (identity.Some? ==> identity' == identity) && journal <= journal'
    ensures Founded(identity', journal', p)
  {
    assert forall e :: e in journal ==> e in journal';
  }

  lemma OthersStayFounded(s: System, pid: nat, s': System)
    requires AllFounded(s) && pid in s'.procs && s'.procs == s.procs[pid := s'.procs[pid]]
    requires s.store.identity.Some? ==> s'.store.identity == s.store.identity
    requires s.journal <= s'.journal && Founded(s'.store.identity, s'.journal, s'.procs[pid])
    ensures AllFounded(s')
  {
    hide Founded;
    forall q | q in s'.procs ensures Founded(s'.store.identity, s'.journal, s'.procs[q]) {
      if q != pid {
        FoundedStays(s.store.identity, s.journal, s.procs[q], s'.store.identity, s'.journal);
      }
    }
  }

  lemma BindingActIsFounded(s: System, pid: nat, s': System)
    requires BindingAct(s, pid, s') && Founded(s.store.identity, s.journal, s.procs[pid])
    ensures Founded(s'.store.identity, s'.journal, s'.procs[pid])
  {
  }

  lemma WaitingActIsFounded(s: System, pid: nat, s': System)
    requires JournalIsHistory(s) && WaitingAct(s, pid, s') && Founded(s.store.identity, s.journal, s.procs[pid])
    ensures Founded(s'.store.identity, s'.journal, s'.procs[pid])
  {
  }

  lemma PollIsFounded(s: System, pid: nat, s': System)
    requires JournalIsHistory(s) && PollBarrier(s, pid, s') && Founded(s.store.identity, s.journal, s.procs[pid])
    ensures Founded(s'.store.identity, s'.journal, s'.procs[pid])
  {
  }

  lemma ReadinessIsFounded(s: System, pid: nat, s': System)
    requires Announce(s, pid, s') || Scan(s, pid, s')
    requires Founded(s.store.identity, s.journal, s.procs[pid])
    ensures Founded(s'.store.identity, s'.journal, s'.procs[pid])
  {
  }

  lemma EndIsFounded(s: System, pid: nat, s': System)
    requires EndRun(s, pid, s') || GiveUp(s, pid, s')
    requires Founded(s.store.identity, s.journal, s.procs[pid])
    ensures Founded(s'.store.identity, s'.journal, s'.procs[pid])
  {
  }

  lemma BarrierActIsFounded(s: System, pid: nat, s': System)
    requires JournalIsHistory(s) && BarrierAct(s, pid, s') && Founded(s.store.identity, s.journal, s.procs[pid])
    ensures Founded(s'.store.identity, s'.journal, s'.procs[pid])
  {
    hide Founded, JournalIsHistory, Announce, Scan, PollBarrier, EndRun, GiveUp;
    if PollBarrier(s, pid, s') {
      PollIsFounded(s, pid, s');
    } else if Announce(s, pid, s') || Scan(s, pid, s') {
      ReadinessIsFounded(s, pid, s');
    } else {
      EndIsFounded(s, pid, s');
    }
  }

  lemma WriteActIsFounded(s: System, pid: nat, s': System)
    requires WriteAct(s, pid, s') && Founded(s.store.identity, s.journal, s.procs[pid])
    ensures Founded(s'.store.identity, s'.journal, s'.procs[pid])
  {
  }

  lemma ActIsFounded(s: System, pid: nat, s': System)
    requires JournalIsHistory(s) && AllFounded(s) && Act(s, pid, s')
    ensures Framed(s, pid, s') && Founded(s'.store.identity, s'.journal, s'.procs[pid])
  {
    hide Founded, BindingAct, WaitingAct, BarrierAct, WriteAct, JournalIsHistory;
    if BindingAct(s, pid, s') {
      BindingActIsFramed(s, pid, s');
      BindingActIsFounded(s, pid, s');
    } else if WaitingAct(s, pid, s') {
      WaitingActIsFramed(s, pid, s');
      WaitingActIsFounded(s, pid, s');
    } else if BarrierAct(s, pid, s') {
      BarrierActIsFramed(s, pid, s');
      BarrierActIsFounded(s, pid, s');
    } else {
      WriteActIsFramed(s, pid, s');
      WriteActIsFounded(s, pid, s');
    }
  }

  lemma StepKeepsFounded(s: System, s': System)
    requires AllFounded(s) && BindingInv(s) && JournalIsHistory(s) && Next(s, s')
    ensures AllFounded(s')
  {
    StepKeepsBinding(s, s');
    StepExtendsHistory(s, s');
    var pid :| Start(s, pid, s') || Act(s, pid, s');
    hide BindingInv, JournalIsHistory, Act;
    if Start(s, pid, s') {
      OthersStayFounded(s, pid, s');
    } else {
      ActIsFounded(s, pid, s');
      OthersStayFounded(s, pid, s');
    }
  }

  lemma {:induction false} AllFoundedHolds(run: seq<System>, i: nat)
    requires IsRun(run) && i < |run|
    ensures AllFounded(run[i])
  {
    hide AllFounded, BindingInv, JournalIsHistory, Next;
    if i > 0 {
      AllFoundedHolds(run, i - 1);
      BindingInvHolds(run, i - 1);
      StateIsLastEntry(run, i - 1);
      StepKeepsFounded(run[i - 1], run[i]);
    } else {
      NobodyIsFounded();
    }
  }

  lemma NobodyIsFounded()
    ensures AllFounded(EMPTY)
  {
  }

  /**
   In every run, whatever sessions are reused: a process that has announced a plan belongs to the identity on disk,
   and rank 0 of its own launch has published that launch.
   */
  lemma AnnouncedAfterLaunching(run: seq<System>, i: nat, pid: nat)
    requires IsRun(run) && i < |run| && pid in run[i].procs && run[i].procs[pid].announced
    ensures var env := run[i].procs[pid].env;
            && run[i].store.identity == Some(env.identity)
            && LaunchState(env.identity, env.session, env.rendezvous, Launching) in run[i].journal
  {
    AllFoundedHolds(run, i);
  }

  /** In every run, a rank trains only after its own launch was published as launching and as ready. */
  lemma TrainsAfterReady(run: seq<System>, i: nat, pid: nat)
    requires IsRun(run) && i < |run| && At(run[i], pid, Running)
    ensures var env := run[i].procs[pid].env;
            && run[i].store.identity == Some(env.identity)
            && LaunchState(env.identity, env.session, env.rendezvous, Launching) in run[i].journal
            && LaunchState(env.identity, env.session, env.rendezvous, Ready) in run[i].journal
  {
    AllFoundedHolds(run, i);
  }

  // ----- when a process may move on

  /** Only its own step moves a process. */
  lemma OnlyOwnSteps(s: System, s': System, pid: nat)
    requires Next(s, s') && pid in s.procs && pid in s'.procs && s'.procs[pid].control != s.procs[pid].control
    ensures Act(s, pid, s')
  {
    var q :| Start(s, q, s') || Act(s, q, s');
    hide BindingAct, WaitingAct, BarrierAct, WriteAct;
    if Act(s, q, s') {
      if BindingAct(s, q, s') {
        BindingActIsFramed(s, q, s');
      } else if WaitingAct(s, q, s') {
        WaitingActIsFramed(s, q, s');
      } else if BarrierAct(s, q, s') {
        BarrierActIsFramed(s, q, s');
      } else {
        WriteActIsFramed(s, q, s');
      }
    }
  }

  lemma ProcessesStay(s: System, s': System, pid: nat)
    requires Next(s, s') && pid in s.procs
    ensures pid in s'.procs && s'.procs[pid].env == s.procs[pid].env
  {
    var q :| Start(s, q, s') || Act(s, q, s');
    hide BindingAct, WaitingAct, BarrierAct, WriteAct;
    if Act(s, q, s') {
      if BindingAct(s, q, s') {
        BindingActIsFramed(s, q, s');
      } else if WaitingAct(s, q, s') {
        WaitingActIsFramed(s, q, s');
      } else if BarrierAct(s, q, s') {
        BarrierActIsFramed(s, q, s');
      } else {
        WriteActIsFramed(s, q, s');
      }
    }
  }

  /** The launch on disk is another one's, or the process's own and failed. */
  predicate Foreign(s: System, env: Env) {
    s.store.state.Some? &&
    var state := s.store.state.value;
    || s.store.identity != Some(env.identity) || state.identity != env.identity || state.rendezvous != env.rendezvous
    || state == OwnState(env, Failed)
  }

  lemma ComparingMoves(s: System, pid: nat, s': System)
    requires Act(s, pid, s') && s.procs[pid].control.Comparing?
             && s.store.identity == Some(s.procs[pid].control.observed)
    ensures pid in s'.procs
    ensures var env, next := s.procs[pid].env, s'.procs[pid].control;
            && (next == Planning ==>
                  s.store.identity == Some(env.identity) && s.store.state == Some(OwnState(env, Launching)))
            && (next == Waiting ==> !Foreign(s, env) && s.store.state != Some(OwnState(env, Launching)))
            && (next == Planning || next == Waiting || next == Over)
  {
  }

  lemma ComparingMay(s: System, pid: nat, control: Control)
    requires pid in s.procs && s.procs[pid].control.Comparing?
             && s.store.identity == Some(s.procs[pid].control.observed)
    requires var env := s.procs[pid].env;
             || (control == Planning && s.store.identity == Some(env.identity)
                 && s.store.state == Some(OwnState(env, Launching)))
             || (control == Waiting && !Foreign(s, env) && s.store.state != Some(OwnState(env, Launching)))
    ensures MayReach(s, pid, control)
  {
    var s' := Go(s, pid, control);
    assert CompareState(s, pid, s');
    assert Act(s, pid, s');
    assert Next(s, s') && At(s', pid, control);
  }

  /**
   In every run, a rank above 0 that compares the shared directory with its launch goes on to plan exactly when the
   identity on disk is its own and the state on disk is its own launch, launching. It goes back to waiting exactly when
   the directory is its own and that state is still to come or already over. On a foreign identity, a foreign rendezvous
   or its own failed launch it can only end.
   */
  lemma ComparingMovesIff(run: seq<System>, i: nat, pid: nat)
    requires IsRun(run) && i < |run| && pid in run[i].procs && run[i].procs[pid].control.Comparing?
    ensures var s := run[i]; var env := s.procs[pid].env;
            && (MayReach(s, pid, Planning) <==>
                  && s.store.identity == Some(env.identity)
                  && s.store.state == Some(LaunchState(env.identity, env.session, env.rendezvous, Launching)))
            && (MayReach(s, pid, Waiting) <==>
                  || s.store.state.None?
                  || (&& s.store.identity == Some(env.identity) && s.store.state.value.identity == env.identity
                      && s.store.state.value.rendezvous == env.rendezvous
                      && (s.store.state.value.session == env.session ==>
                            s.store.state.value.phase == Ready || s.store.state.value.phase == Completed)))
            && (forall s' :: Next(s, s') ==>
                  || At(s', pid, s.procs[pid].control) || At(s', pid, Over)
                  || (At(s', pid, Planning) && MayReach(s, pid, Planning))
                  || (At(s', pid, Waiting) && MayReach(s, pid, Waiting)))
  {
    AllFoundedHolds(run, i);
    var s := run[i];
    var env, control := s.procs[pid].env, s.procs[pid].control;
    assert Founded(s.store.identity, s.journal, s.procs[pid]);
    hide Act, CompareState;
    forall s' | Next(s, s')
      ensures || At(s', pid, control) || At(s', pid, Over)
              || (At(s', pid, Planning) && s.store.identity == Some(env.identity)
                  && s.store.state == Some(OwnState(env, Launching)))
              || (At(s', pid, Waiting) && !Foreign(s, env) && s.store.state != Some(OwnState(env, Launching)))
    {
      ProcessesStay(s, s', pid);
      if s'.procs[pid].control != control {
        OnlyOwnSteps(s, s', pid);
        ComparingMoves(s, pid, s');
      }
    }
    hide Next;
    if s.store.identity == Some(env.identity) && s.store.state == Some(OwnState(env, Launching)) {
      ComparingMay(s, pid, Planning);
    } else if !Foreign(s, env) {
      ComparingMay(s, pid, Waiting);
    }
  }

  lemma BarrierMoves(s: System, pid: nat, s': System)
    requires Act(s, pid, s') && At(s, pid, AtBarrier)
    ensures pid in s'.procs
    ensures var env, next := s.procs[pid].env, s'.procs[pid].control;
            && (next == Running ==> s.store.state == Some(OwnState(env, Ready)))
            && (next == AtBarrier ==>
                  s.store.state == Some(OwnState(env, Launching)) || s.store.state == Some(OwnState(env, Completed)))
            && (next == Running || next == AtBarrier || next == Over)
  {
  }

  /**
   A rank above 0 leaves the barrier for training exactly when its own launch is ready, and otherwise only to end. It
   polls on only while its own launch is neither ready nor failed: a poll of anything else ends it.
   */
  lemma BarrierOpensIff(s: System, pid: nat)
    requires At(s, pid, AtBarrier)
    ensures var env := s.procs[pid].env;
            && (MayReach(s, pid, Running) <==>
                  s.store.state == Some(LaunchState(env.identity, env.session, env.rendezvous, Ready)))
            && (forall s' :: Next(s, s') ==>
                  At(s', pid, AtBarrier) || At(s', pid, Over) || (At(s', pid, Running) && MayReach(s, pid, Running)))
            && (forall s' :: Act(s, pid, s') && At(s', pid, AtBarrier) ==>
                  && s.store.state.Some? && s.store.state.value.identity == env.identity
                  && s.store.state.value.session == env.session && s.store.state.value.rendezvous == env.rendezvous
                  && s.store.state.value.phase != Failed && s.store.state.value.phase != Ready)
  {
    var env := s.procs[pid].env;
    if s.store.state == Some(OwnState(env, Ready)) {
      var s' := Go(s, pid, Running);
      assert PollBarrier(s, pid, s') && Act(s, pid, s');
      assert Next(s, s') && At(s', pid, Running);
    }
    hide Act;
    forall s' | Act(s, pid, s') && At(s', pid, AtBarrier)
      ensures s.store.state == Some(OwnState(env, Launching)) || s.store.state == Some(OwnState(env, Completed))
    {
      BarrierMoves(s, pid, s');
    }
    forall s' | Next(s, s')
      ensures At(s', pid, AtBarrier) || At(s', pid, Over)
              || (At(s', pid, Running) && s.store.state == Some(OwnState(env, Ready)))
    {
      ProcessesStay(s, s', pid);
      if s'.procs[pid].control != AtBarrier {
        OnlyOwnSteps(s, s', pid);
        BarrierMoves(s, pid, s');
      }
    }
  }

  lemma ScanMoves(s: System, pid: nat, s': System)
    requires Act(s, pid, s') && s.procs[pid].control.Scanning?
    ensures pid in s'.procs
    ensures var p := s.procs[pid]; var next := p.control.next; var key := (p.env.session, next);
            || s'.procs[pid].control == Over || s'.procs[pid].control == Failing
            || s'.procs[pid].control ==
               if next >= p.env.identity.nodes then (if p.control.missing then Scanning(0, false) else Opening)
               else if key in s.store.receipts then Scanning(next + 1, p.control.missing)
               else Scanning(next + 1, true)
    ensures var p := s.procs[pid]; var key := (p.env.session, p.control.next);
            p.control.next < p.env.identity.nodes && key in s.store.receipts
            && s.store.receipts[key] != Receipt(p.env.identity, p.env.session, p.env.rendezvous, p.plan, p.control.next)
            ==> s'.procs[pid].control == Over || s'.procs[pid].control == Failing
  {
  }

  /**
   Rank 0 never reads past a receipt that differs from its own launch and plan: it can only fail or end. A missing
   receipt makes it scan again.
   */
  lemma BadReceiptEndsScan(s: System, pid: nat, s': System)
    requires Next(s, s') && pid in s.procs && s.procs[pid].control.Scanning?
    requires var p := s.procs[pid]; var key := (p.env.session, p.control.next);
             && p.control.next < p.env.identity.nodes && key in s.store.receipts
             && s.store.receipts[key]
                != Receipt(p.env.identity, p.env.session, p.env.rendezvous, p.plan, p.control.next)
    ensures At(s', pid, s.procs[pid].control) || At(s', pid, Failing) || At(s', pid, Over)
  {
    ProcessesStay(s, s', pid);
    hide Act;
    if s'.procs[pid].control != s.procs[pid].control {
      OnlyOwnSteps(s, s', pid);
      ScanMoves(s, pid, s');
    }
  }

  lemma CheckingMoves(s: System, pid: nat, s': System)
    requires Act(s, pid, s') && At(s, pid, Checking)
    ensures pid in s'.procs && (s'.procs[pid].control == Publishing || s'.procs[pid].control == Over)
    ensures s'.procs[pid].control == Publishing ==> ResumeAccepted(s.store, s.procs[pid].env)
  {
  }

  /**
   In every run, a resuming rank 0 may publish iff nothing was written yet, or the last launch state ever written has
   its identity and rendezvous and another session.
   */
  lemma ResumePublishesIff(run: seq<System>, i: nat, pid: nat)
    requires IsRun(run) && i < |run| && At(run[i], pid, Checking)
    ensures var env := run[i].procs[pid].env; var journal := run[i].journal;
            MayReach(run[i], pid, Publishing) <==>
              journal == []
              || (var last := journal[|journal| - 1];
                  last.session != env.session && last.identity == env.identity && last.rendezvous == env.rendezvous)
  {
    StateIsLastEntry(run, i);
    PublishesIffAccepted(run[i], pid);
  }

  lemma PublishesIffAccepted(s: System, pid: nat)
    requires At(s, pid, Checking)
    ensures MayReach(s, pid, Publishing) <==> ResumeAccepted(s.store, s.procs[pid].env)
  {
    if ResumeAccepted(s.store, s.procs[pid].env) {
      var s' := Go(s, pid, Publishing);
      assert CheckState(s, pid, s') && Act(s, pid, s');
      assert Next(s, s') && At(s', pid, Publishing);
    }
    hide Act;
    if s' :| Next(s, s') && At(s', pid, Publishing) {
      OnlyOwnSteps(s, s', pid);
      CheckingMoves(s, pid, s');
    }
  }

  lemma StartingMoves(s: System, pid: nat, s': System)
    requires Act(s, pid, s') && At(s, pid, Starting)
    ensures pid in s'.procs
    ensures var env, next := s.procs[pid].env, s'.procs[pid].control;
            && (next == Binding ==> env.rank == 0 && !env.resume && !s.store.exists_)
            && (next == Checking ==> env.rank == 0 && env.resume && s.store.identity == Some(env.identity))
            && (next == Waiting ==> env.rank > 0 && (env.resume ==> s.store.identity == Some(env.identity)))
            && (next == Binding || next == Checking || next == Waiting || next == Over)
  {
  }

  lemma StartingMay(s: System, pid: nat, control: Control)
    requires At(s, pid, Starting)
    requires var env := s.procs[pid].env;
             || (control == Binding && env.rank == 0 && !env.resume && !s.store.exists_)
             || (control == Checking && env.rank == 0 && env.resume && s.store.identity == Some(env.identity))
             || (control == Waiting && env.rank > 0 && (env.resume ==> s.store.identity == Some(env.identity)))
    ensures MayReach(s, pid, control)
  {
    var p := s.procs[pid];
    var s' := if control == Binding
              then s.(store := s.store.(exists_ := true),
                      procs := s.procs[pid := p.(control := Binding, made := true)])
              else Go(s, pid, control);
    assert MakeOutput(s, pid, s') || ValidateBinding(s, pid, s') || BeginWaiting(s, pid, s');
    assert Act(s, pid, s');
    assert Next(s, s') && At(s', pid, control);
  }

  /**
   How a process gets into its launch: a fresh rank 0 makes the directory iff there is none; a resuming rank 0 goes on
   iff the directory has its identity; any other rank waits, when it resumes only on a directory with its identity.
   */
  lemma StartingMovesIff(s: System, pid: nat)
    requires At(s, pid, Starting)
    ensures var env := s.procs[pid].env;
            && (MayReach(s, pid, Binding) <==> env.rank == 0 && !env.resume && !s.store.exists_)
            && (MayReach(s, pid, Checking) <==>
                  env.rank == 0 && env.resume && s.store.identity == Some(env.identity))
            && (MayReach(s, pid, Waiting) <==>
                  env.rank > 0 && (env.resume ==> s.store.identity == Some(env.identity)))
  {
    var env := s.procs[pid].env;
    hide Act;
    forall s' | Next(s, s')
      ensures At(s', pid, Binding) ==> env.rank == 0 && !env.resume && !s.store.exists_
      ensures At(s', pid, Checking) ==> env.rank == 0 && env.resume && s.store.identity == Some(env.identity)
      ensures At(s', pid, Waiting) ==> env.rank > 0 && (env.resume ==> s.store.identity == Some(env.identity))
    {
      ProcessesStay(s, s', pid);
      if s'.procs[pid].control != Starting {
        OnlyOwnSteps(s, s', pid);
        StartingMoves(s, pid, s');
      }
    }
    hide Next;
    if env.rank > 0 {
      if env.resume ==> s.store.identity == Some(env.identity) {
        StartingMay(s, pid, Waiting);
      }
    } else if env.resume {
      if s.store.identity == Some(env.identity) {
        StartingMay(s, pid, Checking);
      }
    } else if !s.store.exists_ {
      StartingMay(s, pid, Binding);
    }
  }
}
