/**
 Why launch sessions must never be reused (cyber_megatron_training.py): the guard on resumes only
 knows the session recorded last, so an older one passes, and its old receipts then open the barrier.
 */
module LaunchReuse {
  import opened Ordering
  import opened LaunchProtocol

  /** Some run ends in s; with `strict`, one that obeys the discipline. */
  ghost predicate Reachable(s: System, strict: bool) {
    exists run :: IsRun(run) && (strict ==> IsDisciplinedRun(run)) && run[|run| - 1] == s
  }

  lemma Extend(s: System, pid: nat, s': System, strict: bool)
    requires Reachable(s, strict) && (Start(s, pid, s') || Act(s, pid, s'))
    requires strict && Start(s, pid, s') ==> Disciplined(s, s'.procs[pid].env)
    ensures Reachable(s', strict)
  {
    hide Start, Act;
    var run :| IsRun(run) && (strict ==> IsDisciplinedRun(run)) && run[|run| - 1] == s;
    var longer := run + [s'];
    forall i | 0 <= i < |longer| - 1
      ensures Next(longer[i], longer[i + 1]) && (strict ==> DisciplinedNext(longer[i], longer[i + 1]))
    {
      if i < |run| - 1 {
        assert Next(run[i], run[i + 1]) && (strict ==> DisciplinedNext(run[i], run[i + 1]));
      } else {
        assert longer[i] == s && longer[i + 1] == s';
      }
    }
    assert IsRun(longer);
  }

  lemma Starts(s: System, pid: nat, s': System, strict: bool)
    requires Reachable(s, strict) && Start(s, pid, s') && (strict ==> Disciplined(s, s'.procs[pid].env))
    ensures Reachable(s', strict)
  {
    Extend(s, pid, s', strict);
  }

  lemma Binds(s: System, pid: nat, s': System, strict: bool)
    requires Reachable(s, strict) && BindingAct(s, pid, s')
    ensures Reachable(s', strict)
  {
    NotAStart(s, pid, s');
    Extend(s, pid, s', strict);
  }

  lemma Waits(s: System, pid: nat, s': System, strict: bool)
    requires Reachable(s, strict) && WaitingAct(s, pid, s')
    ensures Reachable(s', strict)
  {
    NotAStart(s, pid, s');
    Extend(s, pid, s', strict);
  }

  lemma Proceeds(s: System, pid: nat, s': System, strict: bool)
    requires Reachable(s, strict) && BarrierAct(s, pid, s')
    ensures Reachable(s', strict)
  {
    NotAStart(s, pid, s');
    Extend(s, pid, s', strict);
  }

  lemma Writes(s: System, pid: nat, s': System, strict: bool)
    requires Reachable(s, strict) && WriteAct(s, pid, s')
    ensures Reachable(s', strict)
  {
    NotAStart(s, pid, s');
    Extend(s, pid, s', strict);
  }

  lemma NotAStart(s: System, pid: nat, s': System)
    requires Act(s, pid, s')
    ensures !Start(s, pid, s')
  {
  }

  const JOB := Identity(0, 2)

  function Launcher(rank: nat, session: Id, attempt: nat, resume: bool): Env {
    Env(rank, session, JOB, 0, resume, attempt)
  }

  function With(s: System, pid: nat, p: Process): System {
    s.(procs := s.procs[pid := p])
  }

  /** A fresh launch binds the directory, publishes and dies. */
  function Bound(): System {
    var p := Process(Launcher(0, 0, 0, false), Over, 0, false, true);
    var state := LaunchState(JOB, 0, 0, Launching);
    System(Store(true, Some(JOB), Some(state), map[]), map[0 := p], [state])
  }

  const FRESH := Launcher(0, 0, 0, false)

  /** The directory made and named, the launch not yet published. */
  function Named(): System {
    System(Store(true, Some(JOB), None, map[]), map[0 := Process(FRESH, Publishing, 0, false, true)], [])
  }

  lemma FreshLaunchNames(strict: bool)
    ensures Reachable(Named(), strict)
  {
    hide Reachable, Disciplined;
    NothingIsReachable(strict);
    var s1 := With(EMPTY, 0, Process(FRESH, Starting, 0, false, false));
    Starts(EMPTY, 0, s1, strict) by {
      assert strict ==> Disciplined(EMPTY, FRESH) by { NobodyYet(); }
    }
    var s2 := System(Store(true, None, None, map[]), map[0 := Process(FRESH, Binding, 0, false, true)], []);
    assert MakeOutput(s1, 0, s2);
    Binds(s1, 0, s2, strict);
    assert BindIdentity(s2, 0, Named());
    Binds(s2, 0, Named(), strict);
  }

  lemma NobodyYet()
    ensures Disciplined(EMPTY, FRESH)
  {
  }

  lemma NothingIsReachable(strict: bool)
    ensures Reachable(EMPTY, strict)
  {
    assert IsRun([EMPTY]) && IsDisciplinedRun([EMPTY]);
  }

  lemma FreshLaunchBinds(strict: bool)
    ensures Reachable(Bound(), strict)
  {
    hide Reachable;
    FreshLaunchNames(strict);
    var s4 := Write(Go(Named(), 0, Planning), FRESH, Launching);
    assert Publish(Named(), 0, s4);
    Writes(Named(), 0, s4, strict);
    assert GiveUp(s4, 0, Bound());
    Proceeds(s4, 0, Bound(), strict);
  }

  /** Rank 0 resumes and publishes its session. */
  function Published(s: System, pid: nat, env: Env): System {
    Write(With(s, pid, Process(env, Planning, 0, false, false)), env, Launching)
  }

  lemma ResumePublishes(s: System, pid: nat, env: Env, strict: bool)
    requires Reachable(s, strict) && pid !in s.procs && s.store.identity == Some(env.identity)
    requires env.resume && env.rank == 0 && 0 < env.identity.nodes && ResumeAccepted(s.store, env)
    requires strict ==> Disciplined(s, env)
    ensures Reachable(Published(s, pid, env), strict)
  {
    hide Reachable, Disciplined;
    var s1 := With(s, pid, Process(env, Starting, 0, false, false));
    assert s1 == s.(procs := s.procs[pid := s1.procs[pid]]);
    Starts(s, pid, s1, strict);
    var s2 := Go(s1, pid, Checking);
    assert ValidateBinding(s1, pid, s2);
    Binds(s1, pid, s2, strict);
    var s3 := Go(s2, pid, Publishing);
    assert CheckState(s2, pid, s3);
    Binds(s2, pid, s3, strict);
    var s4 := Write(Go(s3, pid, Planning), env, Launching);
    assert Publish(s3, pid, s4);
    Writes(s3, pid, s4, strict);
    assert s4.procs == Published(s, pid, env).procs;
  }

  /** The other rank resumes, finds its session published, plans, announces and dies. */
  function Joined(s: System, pid: nat, env: Env, plan: Id): System {
    With(s, pid, Process(env, Over, plan, true, false)).(
      store := s.store.(receipts := s.store.receipts[(env.session, env.rank) := ReceiptOf(env, plan, env.rank)]))
  }

  lemma OtherRankJoins(s: System, pid: nat, env: Env, plan: Id, strict: bool)
    requires Reachable(s, strict) && pid !in s.procs && s.store.identity == Some(env.identity)
    requires env.resume && 0 < env.rank < env.identity.nodes
    requires s.store.state == Some(LaunchState(env.identity, env.session, env.rendezvous, Launching))
    requires strict ==> Disciplined(s, env)
    ensures Reachable(Joined(s, pid, env, plan), strict)
  {
    hide Reachable, Disciplined;
    var s1 := With(s, pid, Process(env, Starting, 0, false, false));
    assert s1 == s.(procs := s.procs[pid := s1.procs[pid]]);
    Starts(s, pid, s1, strict);
    var s2 := Go(s1, pid, Waiting);
    assert ValidateBinding(s1, pid, s2);
    Binds(s1, pid, s2, strict);
    var s3 := Go(s2, pid, Comparing(env.identity));
    assert ReadIdentity(s2, pid, s3);
    Waits(s2, pid, s3, strict);
    var s4 := Go(s3, pid, Planning);
    assert CompareState(s3, pid, s4);
    Waits(s3, pid, s4, strict);
    AnnounceAndDie(s, s4, pid, env, plan, strict);
  }

  lemma AnnounceAndDie(s: System, s4: System, pid: nat, env: Env, plan: Id, strict: bool)
    requires Reachable(s4, strict) && pid !in s.procs && s4 == With(s, pid, Process(env, Planning, 0, false, false))
    requires s.store.identity == Some(env.identity) && 0 < env.rank
    ensures Reachable(Joined(s, pid, env, plan), strict)
  {
    hide Reachable, Disciplined;
    var s5 := With(s4, pid, Process(env, Announcing, plan, false, false));
    assert MakePlan(s4, pid, s5);
    Waits(s4, pid, s5, strict);
    var s6 := Joined(s, pid, env, plan).(procs := s.procs[pid := Process(env, AtBarrier, plan, true, false)]);
    assert Announce(s5, pid, s6);
    Proceeds(s5, pid, s6, strict);
    var s7 := Go(s6, pid, Over);
    assert GiveUp(s6, pid, s7);
    Proceeds(s6, pid, s7, strict);
    assert s7 == Joined(s, pid, env, plan);
  }

  /** Rank 0 plans and announces. */
  function Announced(s: System, pid: nat, env: Env, plan: Id): System {
    With(s, pid, Process(env, Scanning(0, false), plan, true, false)).(
      store := s.store.(receipts := s.store.receipts[(env.session, 0) := ReceiptOf(env, plan, 0)]))
  }

  lemma RankZeroAnnounces(s: System, pid: nat, env: Env, plan: Id, strict: bool)
    requires Reachable(s, strict) && pid in s.procs && s.procs[pid] == Process(env, Planning, 0, false, false)
    requires env.rank == 0 && s.store.identity == Some(env.identity)
    ensures Reachable(Announced(s, pid, env, plan), strict)
  {
    hide Reachable, Disciplined;
    var s1 := With(s, pid, Process(env, Announcing, plan, false, false));
    assert MakePlan(s, pid, s1);
    Waits(s, pid, s1, strict);
    var s2 := Announced(s, pid, env, plan);
    assert s2.procs == s1.procs[pid := s2.procs[pid]];
    assert Announce(s1, pid, s2);
    Proceeds(s1, pid, s2, strict);
  }

  /** With both receipts of its session in place, rank 0 of a two-node job opens the barrier and trains. */
  lemma RankZeroRuns(s: System, pid: nat, env: Env, plan: Id, strict: bool)
    requires Reachable(s, strict) && pid in s.procs
             && s.procs[pid] == Process(env, Scanning(0, false), plan, true, false)
    requires env.identity.nodes == 2 && Matches(s.store.receipts, env, plan, 0)
             && Matches(s.store.receipts, env, plan, 1)
    ensures Reachable(Write(Go(s, pid, Running), env, Ready), strict)
  {
    hide Reachable, Disciplined;
    var s1 := Go(s, pid, Scanning(1, false));
    assert Scan(s, pid, s1);
    Proceeds(s, pid, s1, strict);
    var s2 := Go(s1, pid, Scanning(2, false));
    assert Scan(s1, pid, s2);
    Proceeds(s1, pid, s2, strict);
    var s3 := Go(s2, pid, Opening);
    assert Scan(s2, pid, s3);
    Proceeds(s2, pid, s3, strict);
    var s4 := Write(Go(s3, pid, Running), env, Ready);
    assert Open(s3, pid, s4);
    Writes(s3, pid, s4, strict);
    assert s4.procs == Go(s, pid, Running).procs;
  }

  /** A launch is bound, then both ranks resume it: rank 0 has its receipt read and rank 1's is in place. */
  lemma OneResumedAttempt(strict: bool) returns (b: System, env: Env)
    ensures Reachable(b, strict) && b == Joined(Published(Bound(), 1, env), 2, Launcher(1, 1, 1, true), 7)
    ensures env == Launcher(0, 1, 1, true)
  {
    FreshLaunchBinds(strict);
    env := Launcher(0, 1, 1, true);
    var a := Published(Bound(), 1, env);
    ResumePublishes(Bound(), 1, env, strict);
    b := Joined(a, 2, Launcher(1, 1, 1, true), 7);
    OtherRankJoins(a, 2, Launcher(1, 1, 1, true), 7, strict);
  }

  /** Disciplined runs do reach training: the barrier is not safe for want of anyone passing it. */
  lemma DisciplinedRunReachesTraining() returns (s: System, pid: nat)
    ensures Reachable(s, true) && At(s, pid, Running) && 1 < s.procs[pid].env.identity.nodes
    ensures AnnouncedFor(s, s.procs[pid], 1)
  {
    var b, env := OneResumedAttempt(true);
    var c := Announced(b, 1, env, 7);
    RankZeroAnnounces(b, 1, env, 7, true);
    RankZeroRuns(c, 1, env, 7, true);
    s, pid := Write(Go(c, 1, Running), env, Ready), 1;
    assert Vouches(s.procs[2], s.procs[1], 1);
  }

  /**
   Sessions 0, 1, 2 and then 1 again, each accepted by the guard: rank 0 of the last attempt trains
   although no other process of that attempt exists, on the receipt rank 1 left two attempts ago.
   */
  lemma ReusedSessionBreaksBarrier() returns (s: System, pid: nat)
    ensures Reachable(s, false) && At(s, pid, Running) && 1 < s.procs[pid].env.identity.nodes
    ensures !AnnouncedFor(s, s.procs[pid], 1)
    ensures forall q :: q in s.procs && s.procs[q].env.attempt == s.procs[pid].env.attempt ==> q == pid
  {
    var b, first := OneResumedAttempt(false);
    var c := Published(b, 3, Launcher(0, 2, 2, true));
    ResumePublishes(b, 3, Launcher(0, 2, 2, true), false);
    var again := Launcher(0, 1, 3, true);
    var d := Published(c, 4, again);
    ResumePublishes(c, 4, again, false);
    var e := Announced(d, 4, again, 7);
    RankZeroAnnounces(d, 4, again, 7, false);
    RankZeroRuns(e, 4, again, 7, false);
    s, pid := Write(Go(e, 4, Running), again, Ready), 4;
  }
}
