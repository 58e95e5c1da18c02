/**
 The distributed launch protocol (cyber_megatron_training.py) as a step machine: processes of any
 number of launches, each one run of `execute_cyber_megatron_sft`, interleave over one shared output
 directory. One step reads or writes at most one file.
 */
module LaunchProtocol {
  import opened Ordering

  /** A run identity; the configuration digest inside it fixes the number of nodes. */
  datatype Identity = Identity(digest: Id, nodes: nat)

  datatype Phase = Launching | Ready | Completed | Failed

  datatype LaunchState = LaunchState(identity: Identity, session: Id, rendezvous: Id, phase: Phase)

  datatype Receipt = Receipt(identity: Identity, session: Id, rendezvous: Id, plan: Id, rank: nat)

  /** The shared output directory: run identity, launch state, and receipts by session and rank. */
  datatype Store = Store(
    exists_: bool, identity: Option<Identity>, state: Option<LaunchState>, receipts: map<(Id, nat), Receipt>)

  /** What a process is started with; `attempt` is the launch it belongs to, which no file records. */
  datatype Env = Env(rank: nat, session: Id, identity: Identity, rendezvous: Id, resume: bool, attempt: nat)

  /** The point a process has reached. */
  datatype Control =
    | Starting                                  // dataset and runtime checks done
    | Binding                                   // rank 0: directory made, identity not yet written
    | Checking                                  // rank 0, resume: binding validated, state not yet read
    | Publishing                                // rank 0: about to write "launching"
    | Waiting                                   // other ranks: polling for identity and state
    | Comparing(observed: Identity)             // other ranks: identity read, state not yet
    | Planning
    | Announcing                                // plan ready, receipt not yet written
    | Scanning(next: nat, missing: bool)        // rank 0: reading the receipts one by one
    | Opening                                   // rank 0: every receipt matched, about to write "ready"
    | AtBarrier                                 // other ranks: polling for "ready"
    | Running                                   // the training subprocess runs
    | Completing                                // rank 0: subprocess done, about to write "completed"
    | Failing                                   // rank 0: about to write "failed" and raise
    | Over

  /** `plan` is the digest of the process's own plan; `made` and `announced` record what it wrote. */
  datatype Process = Process(env: Env, control: Control, plan: Id, announced: bool, made: bool)

  /** `journal` lists every launch state ever written, oldest first. */
  datatype System = System(store: Store, procs: map<nat, Process>, journal: seq<LaunchState>)

  const EMPTY := System(Store(false, None, None, map[]), map[], [])

  // ----- steps

  predicate At(s: System, pid: nat, control: Control) {
    pid in s.procs && s.procs[pid].control == control
  }

  function Go(s: System, pid: nat, control: Control): System
    requires pid in s.procs
  {
    s.(procs := s.procs[pid := s.procs[pid].(control := control)])
  }

  /** `_write_launch_state`. */
  function Write(s: System, env: Env, phase: Phase): System {
    var state := LaunchState(env.identity, env.session, env.rendezvous, phase);
    s.(store := s.store.(state := Some(state)), journal := s.journal + [state])
  }

  function ReceiptOf(env: Env, plan: Id, rank: nat): Receipt {
    Receipt(env.identity, env.session, env.rendezvous, plan, rank)
  }

  predicate Start(s: System, pid: nat, s': System) {
    && pid !in s.procs && pid in s'.procs
    && (var p := s'.procs[pid];
        && p.env.rank < p.env.identity.nodes && p.control == Starting && !p.announced && !p.made
        && s' == s.(procs := s.procs[pid := p]))
  }

  /** Fresh rank 0: `mkdir(exist_ok=False)`. */
  predicate MakeOutput(s: System, pid: nat, s': System) {
    && At(s, pid, Starting) && s.procs[pid].env.rank == 0 && !s.procs[pid].env.resume
    && s' == if s.store.exists_ then Go(s, pid, Over)
             else s.(store := s.store.(exists_ := true),
                     procs := s.procs[pid := s.procs[pid].(control := Binding, made := true)])
  }

  predicate BindIdentity(s: System, pid: nat, s': System) {
    && At(s, pid, Binding)
    && s' == Go(s, pid, Publishing).(store := s.store.(identity := Some(s.procs[pid].env.identity)))
  }

  /** `_validate_resume_binding`, as far as the identity file goes; checkpoints may be missing as well. */
  predicate ValidateBinding(s: System, pid: nat, s': System) {
    && At(s, pid, Starting) && s.procs[pid].env.resume
    && (|| s' == Go(s, pid, Over)
        || (s.store.identity == Some(s.procs[pid].env.identity)
            && s' == Go(s, pid, if s.procs[pid].env.rank == 0 then Checking else Waiting)))
  }

  /** The guard on an existing launch state when rank 0 resumes. */
  predicate ResumeAccepted(store: Store, env: Env) {
    store.state.Some? ==>
      && store.state.value.identity == env.identity && store.state.value.rendezvous == env.rendezvous
      && store.state.value.session != env.session
  }

  predicate CheckState(s: System, pid: nat, s': System) {
    && At(s, pid, Checking)
    && s' == Go(s, pid, if ResumeAccepted(s.store, s.procs[pid].env) then Publishing else Over)
  }

  predicate Publish(s: System, pid: nat, s': System) {
    && At(s, pid, Publishing)
    && s' == Write(Go(s, pid, Planning), s.procs[pid].env, Launching)
  }

  predicate BeginWaiting(s: System, pid: nat, s': System) {
    && At(s, pid, Starting) && s.procs[pid].env.rank > 0 && !s.procs[pid].env.resume
    && s' == Go(s, pid, Waiting)
  }

  predicate ReadIdentity(s: System, pid: nat, s': System) {
    && At(s, pid, Waiting) && s.store.identity.Some?
    && s' == Go(s, pid, Comparing(s.store.identity.value))
  }

  /** One poll of the launch state by another rank. */
  predicate CompareState(s: System, pid: nat, s': System) {
    && pid in s.procs && s.procs[pid].control.Comparing?
    && (var env := s.procs[pid].env;
        s' == Go(s, pid,
          if s.store.state.None? then Waiting
          else if s.procs[pid].control.observed != env.identity || s.store.state.value.identity != env.identity
                  || s.store.state.value.rendezvous != env.rendezvous then Over
          else if s.store.state.value.session != env.session then Waiting
          else match s.store.state.value.phase
               case Failed => Over
               case Launching => Planning
               case _ => Waiting))
  }

  /** `plan_cyber_megatron_sft`: blocked or ready, with whatever digest the plan has. */
  predicate MakePlan(s: System, pid: nat, s': System) {
    && At(s, pid, Planning)
    && (|| s' == Go(s, pid, if s.procs[pid].env.rank == 0 then Failing else Over)
        || (s.store.identity == Some(s.procs[pid].env.identity)
            && pid in s'.procs
            && s' == s.(procs := s.procs[pid := s.procs[pid].(control := Announcing, plan := s'.procs[pid].plan)])))
  }

  /** `_write_node_readiness`. */
  predicate Announce(s: System, pid: nat, s': System) {
    && At(s, pid, Announcing)
    && (var p := s.procs[pid];
        s' == s.(store := s.store.(receipts :=
                   s.store.receipts[(p.env.session, p.env.rank) := ReceiptOf(p.env, p.plan, p.env.rank)]),
                 procs := s.procs[pid := p.(announced := true,
                                            control := if p.env.rank == 0 then Scanning(0, false) else AtBarrier)]))
  }

  /** Rank 0 reads the next receipt, or ends the scan. */
  predicate Scan(s: System, pid: nat, s': System) {
    && pid in s.procs && s.procs[pid].control.Scanning?
    && (var p := s.procs[pid]; var next := p.control.next; var key := (p.env.session, next);
        s' == Go(s, pid,
          if next >= p.env.identity.nodes then (if p.control.missing then Scanning(0, false) else Opening)
          else if key !in s.store.receipts then Scanning(next + 1, true)
          else if s.store.receipts[key] == ReceiptOf(p.env, p.plan, next) then Scanning(next + 1, p.control.missing)
          else Failing))
  }

  predicate Open(s: System, pid: nat, s': System) {
    && At(s, pid, Opening)
    && s' == Write(Go(s, pid, Running), s.procs[pid].env, Ready)
  }

  /** One poll of the readiness barrier by another rank. */
  predicate PollBarrier(s: System, pid: nat, s': System) {
    && At(s, pid, AtBarrier) && s.store.state.Some?
    && (var env := s.procs[pid].env; var state := s.store.state.value;
        s' == Go(s, pid,
          if state.identity != env.identity || state.session != env.session
            || state.rendezvous != env.rendezvous then Over
          else match state.phase
               case Failed => Over
               case Ready => Running
               case _ => AtBarrier))
  }

  /** The subprocess ends, well or badly. */
  predicate EndRun(s: System, pid: nat, s': System) {
    && At(s, pid, Running)
    && (if s.procs[pid].env.rank > 0 then s' == Go(s, pid, Over)
        else s' == Go(s, pid, Completing) || s' == Go(s, pid, Failing))
  }

  predicate Complete(s: System, pid: nat, s': System) {
    At(s, pid, Completing) && s' == Write(Go(s, pid, Over), s.procs[pid].env, Completed)
  }

  predicate Fail(s: System, pid: nat, s': System) {
    At(s, pid, Failing) && s' == Write(Go(s, pid, Over), s.procs[pid].env, Failed)
  }

  predicate InReadinessWait(control: Control) {
    control.Announcing? || control.Scanning? || control.Opening?
  }

  /** Any process may die at any point; inside the readiness wait rank 0 turns a timeout or I/O error into "failed". */
  predicate GiveUp(s: System, pid: nat, s': System) {
    && pid in s.procs
    && (|| s' == Go(s, pid, Over)
        || (s.procs[pid].env.rank == 0 && InReadinessWait(s.procs[pid].control) && s' == Go(s, pid, Failing)))
  }

  predicate BindingAct(s: System, pid: nat, s': System) {
    MakeOutput(s, pid, s') || BindIdentity(s, pid, s') || ValidateBinding(s, pid, s') || CheckState(s, pid, s')
  }

  predicate WaitingAct(s: System, pid: nat, s': System) {
    BeginWaiting(s, pid, s') || ReadIdentity(s, pid, s') || CompareState(s, pid, s') || MakePlan(s, pid, s')
  }

  predicate BarrierAct(s: System, pid: nat, s': System) {
    Announce(s, pid, s') || Scan(s, pid, s') || PollBarrier(s, pid, s') || EndRun(s, pid, s') || GiveUp(s, pid, s')
  }

  /** The steps that write the launch state. */
  predicate WriteAct(s: System, pid: nat, s': System) {
    Publish(s, pid, s') || Open(s, pid, s') || Complete(s, pid, s') || Fail(s, pid, s')
  }

  predicate Act(s: System, pid: nat, s': System) {
    BindingAct(s, pid, s') || WaitingAct(s, pid, s') || BarrierAct(s, pid, s') || WriteAct(s, pid, s')
  }

  ghost predicate Next(s: System, s': System) {
    exists pid :: Start(s, pid, s') || Act(s, pid, s')
  }

  /** One process per session and rank, and one session per launch attempt. */
  ghost predicate Disciplined(s: System, env: Env) {
    forall q :: q in s.procs ==>
      && (s.procs[q].env.session == env.session <==> s.procs[q].env.attempt == env.attempt)
      && (s.procs[q].env.session == env.session ==> s.procs[q].env.rank != env.rank)
  }

  /** A step in which a new process obeys the discipline. */
  ghost predicate DisciplinedNext(s: System, s': System) {
    exists pid :: (Start(s, pid, s') && Disciplined(s, s'.procs[pid].env)) || Act(s, pid, s')
  }

  /** A run of the protocol: any interleaving of any launches. */
  ghost predicate IsRun(run: seq<System>) {
    && |run| > 0 && run[0] == EMPTY
    && forall i :: 0 <= i < |run| - 1 ==> Next(run[i], run[i + 1])
  }

  ghost predicate IsDisciplinedRun(run: seq<System>) {
    && |run| > 0 && run[0] == EMPTY
    && forall i :: 0 <= i < |run| - 1 ==> DisciplinedNext(run[i], run[i + 1])
  }

  // ----- the barrier invariant

  type Receipts = map<(Id, nat), Receipt>

  predicate Matches(receipts: Receipts, env: Env, plan: Id, rank: nat) {
    (env.session, rank) in receipts && receipts[(env.session, rank)] == ReceiptOf(env, plan, rank)
  }

  /** Every rank below `limit` has a receipt that matches env and plan. */
  ghost predicate MatchBelow(receipts: Receipts, env: Env, plan: Id, limit: nat) {
    forall rank: nat :: rank < limit ==> Matches(receipts, env, plan, rank)
  }

  predicate RankZeroOnly(control: Control) {
    match control
    case Binding => true
    case Checking => true
    case Publishing => true
    case Scanning(_, _) => true
    case Opening => true
    case Completing => true
    case Failing => true
    case _ => false
  }

  predicate PastAnnouncing(control: Control) {
    control.Scanning? || control.Opening? || control.AtBarrier? || control.Running? || control.Completing?
  }

  ghost predicate ProcessFits(receipts: Receipts, p: Process) {
    && p.env.rank < p.env.identity.nodes
    && (RankZeroOnly(p.control) ==> p.env.rank == 0)
    && (PastAnnouncing(p.control) ==> p.announced)
    && (p.announced ==> Matches(receipts, p.env, p.plan, p.env.rank))
    && (p.control.Announcing? || p.control.Planning? || p.control.Publishing? ==> !p.announced)
    && (p.control.Starting? || p.control.Binding? || p.control.Checking? ==> !p.announced)
    && (p.control.Waiting? || p.control.Comparing? ==> !p.announced)
    && (p.control.Scanning? ==> p.control.next <= p.env.identity.nodes)
    && (p.control.Scanning? && !p.control.missing ==> MatchBelow(receipts, p.env, p.plan, p.control.next))
    && (p.control.Opening? || p.control.Running? || p.control.Completing? ==>
          MatchBelow(receipts, p.env, p.plan, p.env.identity.nodes))
  }

  ghost predicate AllFit(s: System) {
    forall pid :: pid in s.procs ==> ProcessFits(s.store.receipts, s.procs[pid])
  }

  /** No two processes share session and rank, and sessions and launch attempts correspond. */
  ghost predicate Ordered(s: System) {
    forall p, q :: p in s.procs && q in s.procs ==> InOrder(s.procs[p].env, s.procs[q].env, p == q)
  }

  predicate InOrder(a: Env, b: Env, same: bool) {
    && (a.session == b.session <==> a.attempt == b.attempt)
    && (a.session == b.session && a.rank == b.rank ==> same)
  }

  /** Every receipt was written by a process of its session and rank. */
  ghost predicate ReceiptsOwned(s: System) {
    forall key :: key in s.store.receipts ==> HasAuthor(s, key)
  }

  ghost predicate HasAuthor(s: System, key: (Id, nat)) {
    exists pid :: pid in s.procs && s.procs[pid].announced && (s.procs[pid].env.session, s.procs[pid].env.rank) == key
  }

  /** A published "ready" means that all receipts of its session agree on some plan. */
  ghost predicate ReadyIsBacked(store: Store) {
    store.state.Some? && store.state.value.phase == Ready ==>
      exists env: Env, plan :: Backs(store, env, plan)
  }

  ghost predicate Backs(store: Store, env: Env, plan: Id)
    requires store.state.Some?
  {
    && store.state.value == LaunchState(env.identity, env.session, env.rendezvous, store.state.value.phase)
    && MatchBelow(store.receipts, env, plan, env.identity.nodes)
  }

  ghost predicate BarrierInv(s: System) {
    Ordered(s) && AllFit(s) && ReceiptsOwned(s) && ReadyIsBacked(s.store)
  }

  lemma GoKeepsBarrier(s: System, pid: nat, p: Process)
    requires BarrierInv(s) && pid in s.procs && ProcessFits(s.store.receipts, p)
    requires p.env == s.procs[pid].env && p.announced == s.procs[pid].announced
    ensures BarrierInv(s.(procs := s.procs[pid := p]))
  {
    var t := s.(procs := s.procs[pid := p]);
    forall key | key in t.store.receipts ensures HasAuthor(t, key) {
      assert HasAuthor(s, key);
      var q :| q in s.procs && s.procs[q].announced && (s.procs[q].env.session, s.procs[q].env.rank) == key;
      assert t.procs[q].announced;
    }
    forall a, b | a in t.procs && b in t.procs ensures InOrder(t.procs[a].env, t.procs[b].env, a == b) {
      assert InOrder(s.procs[a].env, s.procs[b].env, a == b);
    }
  }

  /** The barrier invariant looks at the launch state only through ReadyIsBacked. */
  lemma WriteKeepsBarrier(s: System, env: Env, phase: Phase, plan: Id)
    requires BarrierInv(s)
    requires phase == Ready ==> MatchBelow(s.store.receipts, env, plan, env.identity.nodes)
    ensures BarrierInv(Write(s, env, phase))
  {
    var t := Write(s, env, phase);
    forall key | key in t.store.receipts ensures HasAuthor(t, key) {
      assert HasAuthor(s, key);
      var q :| q in s.procs && s.procs[q].announced && (s.procs[q].env.session, s.procs[q].env.rank) == key;
      assert t.procs[q].announced;
    }
    if phase == Ready {
      assert Backs(t.store, env, plan);
    }
    assert Ordered(t) by {
      forall a, b | a in t.procs && b in t.procs ensures InOrder(t.procs[a].env, t.procs[b].env, a == b) {
        assert InOrder(s.procs[a].env, s.procs[b].env, a == b);
      }
    }
  }

  lemma StartKeepsBarrier(s: System, pid: nat, s': System)
    requires BarrierInv(s) && Start(s, pid, s') && Disciplined(s, s'.procs[pid].env)
    ensures BarrierInv(s')
  {
    forall key | key in s'.store.receipts ensures HasAuthor(s', key) {
      assert HasAuthor(s, key);
      var q :| q in s.procs && s.procs[q].announced && (s.procs[q].env.session, s.procs[q].env.rank) == key;
      assert s'.procs[q].announced;
    }
    forall a, b | a in s'.procs && b in s'.procs ensures InOrder(s'.procs[a].env, s'.procs[b].env, a == b) {
      if a != pid && b != pid {
        assert InOrder(s.procs[a].env, s.procs[b].env, a == b);
      }
    }
  }

  /** Writing a receipt never overwrites one: the key is new. */
  lemma AnnounceIsNew(s: System, pid: nat)
    requires BarrierInv(s) && At(s, pid, Announcing)
    ensures (s.procs[pid].env.session, s.procs[pid].env.rank) !in s.store.receipts
  {
    var p := s.procs[pid];
    var key := (p.env.session, p.env.rank);
    assert ProcessFits(s.store.receipts, p);
    forall q | q in s.procs && s.procs[q].announced ensures (s.procs[q].env.session, s.procs[q].env.rank) != key {
      assert InOrder(s.procs[q].env, s.procs[pid].env, q == pid);
    }
    assert !HasAuthor(s, key);
  }

  lemma MoreReceiptsKeepFit(receipts: Receipts, more: Receipts, p: Process)
    requires ProcessFits(receipts, p) && forall key :: key in receipts ==> key in more && more[key] == receipts[key]
    ensures ProcessFits(more, p)
  {
    assert forall rank: nat :: Matches(receipts, p.env, p.plan, rank) ==> Matches(more, p.env, p.plan, rank);
  }

  /** What announcing changes: one receipt more, and one process that has announced it. */
  ghost predicate Announces(s: System, pid: nat, s': System) {
    && pid in s.procs && pid in s'.procs && s'.procs == s.procs[pid := s'.procs[pid]]
    && s'.procs[pid].env == s.procs[pid].env && s'.procs[pid].announced
    && s'.store.state == s.store.state
    && var env := s.procs[pid].env;
       (env.session, env.rank) !in s.store.receipts
       && s'.store.receipts == s.store.receipts[(env.session, env.rank) := ReceiptOf(env, s'.procs[pid].plan, env.rank)]
  }

  lemma AnnouncerFits(s: System, pid: nat, s': System)
    requires BarrierInv(s) && Announce(s, pid, s')
    ensures Announces(s, pid, s') && ProcessFits(s'.store.receipts, s'.procs[pid])
  {
    AnnounceIsNew(s, pid);
    assert ProcessFits(s.store.receipts, s.procs[pid]);
  }

  lemma AnnounceKeepsFit(s: System, pid: nat, s': System)
    requires AllFit(s) && Announces(s, pid, s') && ProcessFits(s'.store.receipts, s'.procs[pid])
    ensures AllFit(s')
  {
    hide ProcessFits;
    forall q | q in s'.procs ensures ProcessFits(s'.store.receipts, s'.procs[q]) {
      if q != pid {
        MoreReceiptsKeepFit(s.store.receipts, s'.store.receipts, s.procs[q]);
      }
    }
  }

  lemma AnnounceKeepsAuthors(s: System, pid: nat, s': System)
    requires ReceiptsOwned(s) && Announces(s, pid, s')
    ensures ReceiptsOwned(s')
  {
    var own := (s.procs[pid].env.session, s.procs[pid].env.rank);
    forall key | key in s'.store.receipts ensures HasAuthor(s', key) {
      if key == own {
        assert s'.procs[pid].announced;
      } else {
        assert HasAuthor(s, key);
        var q :| q in s.procs && s.procs[q].announced && (s.procs[q].env.session, s.procs[q].env.rank) == key;
        assert s'.procs[q].announced;
      }
    }
  }

  lemma AnnounceKeepsOrder(s: System, pid: nat, s': System)
    requires Ordered(s) && Announces(s, pid, s')
    ensures Ordered(s')
  {
    forall a, b | a in s'.procs && b in s'.procs ensures InOrder(s'.procs[a].env, s'.procs[b].env, a == b) {
      assert InOrder(s.procs[a].env, s.procs[b].env, a == b);
    }
  }

  lemma AnnounceKeepsBarrier(s: System, pid: nat, s': System)
    requires BarrierInv(s) && Announce(s, pid, s')
    ensures BarrierInv(s')
  {
    AnnouncerFits(s, pid, s');
    hide Announce, Ordered, AllFit, ReceiptsOwned, ReadyIsBacked, ProcessFits;
    AnnounceKeepsFit(s, pid, s');
    AnnounceKeepsAuthors(s, pid, s');
    AnnounceKeepsOrder(s, pid, s');
    AnnounceKeepsReady(s.store, s'.store);
  }

  lemma AnnounceKeepsReady(a: Store, b: Store)
    requires ReadyIsBacked(a) && b.state == a.state
    requires forall key :: key in a.receipts ==> key in b.receipts && b.receipts[key] == a.receipts[key]
    ensures ReadyIsBacked(b)
  {
    if a.state.Some? && a.state.value.phase == Ready {
      var env: Env, plan :| Backs(a, env, plan);
      assert forall rank: nat :: Matches(a.receipts, env, plan, rank) ==> Matches(b.receipts, env, plan, rank);
      assert Backs(b, env, plan);
    }
  }

  /** A step that only moves the program counter to a control the process fits. */
  lemma MoveKeepsBarrier(s: System, pid: nat, control: Control)
    requires BarrierInv(s) && pid in s.procs
    requires ProcessFits(s.store.receipts, s.procs[pid].(control := control))
    ensures BarrierInv(Go(s, pid, control))
  {
    GoKeepsBarrier(s, pid, s.procs[pid].(control := control));
  }

  lemma OutputStepKeepsBarrier(s: System, pid: nat, s': System)
    requires BarrierInv(s) && (MakeOutput(s, pid, s') || BindIdentity(s, pid, s'))
    ensures BarrierInv(s')
  {
    var p := s.procs[pid];
    assert ProcessFits(s.store.receipts, p);
    if MakeOutput(s, pid, s') {
      if s.store.exists_ {
        MoveKeepsBarrier(s, pid, Over);
      } else {
        GoKeepsBarrier(s, pid, p.(control := Binding, made := true));
        StoreFieldsDoNotMatter(Go(s, pid, Binding).(procs := s.procs[pid := p.(control := Binding, made := true)]), s');
      }
    } else {
      MoveKeepsBarrier(s, pid, Publishing);
      StoreFieldsDoNotMatter(Go(s, pid, Publishing), s');
    }
  }

  lemma StoreFieldsDoNotMatter(a: System, b: System)
    requires BarrierInv(a) && b.procs == a.procs && b.store.receipts == a.store.receipts
             && b.store.state == a.store.state
    ensures BarrierInv(b)
  {
    forall key | key in b.store.receipts ensures HasAuthor(b, key) {
      assert HasAuthor(a, key);
      var q :| q in a.procs && a.procs[q].announced && (a.procs[q].env.session, a.procs[q].env.rank) == key;
      assert b.procs[q].announced;
    }
    AnnounceKeepsReady(a.store, b.store);
  }

  lemma EarlyStepKeepsBarrier(s: System, pid: nat, s': System)
    requires BarrierInv(s)
    requires ValidateBinding(s, pid, s') || CheckState(s, pid, s') || BeginWaiting(s, pid, s')
             || ReadIdentity(s, pid, s')
             || CompareState(s, pid, s')
    ensures BarrierInv(s')
  {
    assert ProcessFits(s.store.receipts, s.procs[pid]);
    MoveKeepsBarrier(s, pid, s'.procs[pid].control);
  }

  lemma PlanKeepsBarrier(s: System, pid: nat, s': System)
    requires BarrierInv(s) && MakePlan(s, pid, s')
    ensures BarrierInv(s')
  {
    assert ProcessFits(s.store.receipts, s.procs[pid]);
    GoKeepsBarrier(s, pid, s'.procs[pid]);
  }

  lemma ScanKeepsBarrier(s: System, pid: nat, s': System)
    requires BarrierInv(s) && Scan(s, pid, s')
    ensures BarrierInv(s')
  {
    assert ProcessFits(s.store.receipts, s.procs[pid]);
    MoveKeepsBarrier(s, pid, s'.procs[pid].control);
  }

  /** Another rank leaves the barrier only when every receipt matches its own plan. */
  lemma PollKeepsBarrier(s: System, pid: nat, s': System)
    requires BarrierInv(s) && PollBarrier(s, pid, s')
    ensures BarrierInv(s')
  {
    var p := s.procs[pid];
    assert ProcessFits(s.store.receipts, p);
    if s'.procs[pid].control.Running? {
      var env: Env, plan :| Backs(s.store, env, plan);
      assert Matches(s.store.receipts, env, plan, p.env.rank);
      assert plan == p.plan;
      forall rank: nat | rank < p.env.identity.nodes ensures Matches(s.store.receipts, p.env, p.plan, rank) {
        assert Matches(s.store.receipts, env, plan, rank);
      }
    }
    MoveKeepsBarrier(s, pid, s'.procs[pid].control);
  }

  lemma WriteStepKeepsBarrier(s: System, pid: nat, s': System)
    requires BarrierInv(s) && WriteAct(s, pid, s')
    ensures BarrierInv(s')
  {
    var p := s.procs[pid];
    assert ProcessFits(s.store.receipts, p);
    var control := s'.procs[pid].control;
    MoveKeepsBarrier(s, pid, control);
    WriteKeepsBarrier(Go(s, pid, control), p.env, s'.store.state.value.phase, p.plan);
  }

  lemma EndStepFits(receipts: Receipts, p: Process, control: Control)
    requires ProcessFits(receipts, p)
    requires control == Over
             || (p.env.rank == 0 && control == Failing)
             || (p.env.rank == 0 && control == Completing && p.control == Running)
    ensures ProcessFits(receipts, p.(control := control))
  {
  }

  lemma EndStepMoves(s: System, pid: nat, s': System)
    requires EndRun(s, pid, s') || GiveUp(s, pid, s')
    ensures pid in s.procs && pid in s'.procs && s' == Go(s, pid, s'.procs[pid].control)
    ensures var p, control := s.procs[pid], s'.procs[pid].control;
            || control == Over
            || (p.env.rank == 0 && control == Failing)
            || (p.env.rank == 0 && control == Completing && p.control == Running)
  {
  }

  lemma EndStepKeepsBarrier(s: System, pid: nat, s': System)
    requires BarrierInv(s) && (EndRun(s, pid, s') || GiveUp(s, pid, s'))
    ensures BarrierInv(s')
  {
    EndStepMoves(s, pid, s');
    hide EndRun, GiveUp, ProcessFits;
    EndStepFits(s.store.receipts, s.procs[pid], s'.procs[pid].control);
    MoveKeepsBarrier(s, pid, s'.procs[pid].control);
  }

  /** Every step of a disciplined run keeps the barrier invariant. */
  lemma StepKeepsBarrier(s: System, s': System)
    requires BarrierInv(s) && DisciplinedNext(s, s')
    ensures BarrierInv(s')
  {
    hide BarrierInv;
    var pid :| (Start(s, pid, s') && Disciplined(s, s'.procs[pid].env)) || Act(s, pid, s');
    if Start(s, pid, s') && Disciplined(s, s'.procs[pid].env) {
      StartKeepsBarrier(s, pid, s');
    } else if WriteAct(s, pid, s') {
      WriteStepKeepsBarrier(s, pid, s');
    } else if BarrierAct(s, pid, s') {
      BarrierActKeepsBarrier(s, pid, s');
    } else if MakeOutput(s, pid, s') || BindIdentity(s, pid, s') {
      OutputStepKeepsBarrier(s, pid, s');
    } else if MakePlan(s, pid, s') {
      PlanKeepsBarrier(s, pid, s');
    } else {
      EarlyStepKeepsBarrier(s, pid, s');
    }
  }

  lemma BarrierActKeepsBarrier(s: System, pid: nat, s': System)
    requires BarrierInv(s) && BarrierAct(s, pid, s')
    ensures BarrierInv(s')
  {
    hide BarrierInv;
    if Announce(s, pid, s') {
      AnnounceKeepsBarrier(s, pid, s');
    } else if Scan(s, pid, s') {
      ScanKeepsBarrier(s, pid, s');
    } else if PollBarrier(s, pid, s') {
      PollKeepsBarrier(s, pid, s');
    } else {
      EndStepKeepsBarrier(s, pid, s');
    }
  }

  lemma {:induction false} BarrierInvHolds(run: seq<System>, i: nat)
    requires IsDisciplinedRun(run) && i < |run|
    ensures BarrierInv(run[i])
  {
    if i > 0 {
      BarrierInvHolds(run, i - 1);
      StepKeepsBarrier(run[i - 1], run[i]);
    }
  }

  /** Some process of p's own launch attempt announced, for this rank, exactly p's plan. */
  ghost predicate AnnouncedFor(s: System, p: Process, rank: nat) {
    exists q :: q in s.procs && Vouches(s.procs[q], p, rank)
  }

  predicate Vouches(q: Process, p: Process, rank: nat) {
    && q.announced && q.env.rank == rank && q.env.attempt == p.env.attempt && q.env.session == p.env.session
    && q.env.identity == p.env.identity && q.env.rendezvous == p.env.rendezvous && q.plan == p.plan
  }

  /**
   Barrier safety, in every interleaving: while any rank runs the training subprocess, every rank of
   the topology has a receipt for that session with the same run identity, rendezvous and plan, and
   it was written by a process of the same launch attempt.
   */
  lemma LaunchBarrier(run: seq<System>, i: nat, pid: nat, rank: nat)
    requires IsDisciplinedRun(run) && i < |run| && At(run[i], pid, Running)
    requires rank < run[i].procs[pid].env.identity.nodes
    ensures var p := run[i].procs[pid];
            && Matches(run[i].store.receipts, p.env, p.plan, rank)
            && AnnouncedFor(run[i], p, rank)
  {
    BarrierInvHolds(run, i);
    var s := run[i];
    var p := s.procs[pid];
    assert ProcessFits(s.store.receipts, p);
    assert Matches(s.store.receipts, p.env, p.plan, rank);
    assert HasAuthor(s, (p.env.session, rank));
    var q :| q in s.procs && s.procs[q].announced
      && (s.procs[q].env.session, s.procs[q].env.rank) == (p.env.session, rank);
    assert ProcessFits(s.store.receipts, s.procs[q]);
    assert InOrder(s.procs[q].env, p.env, q == pid);
    assert Vouches(s.procs[q], p, rank);
  }
}
