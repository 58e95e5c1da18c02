/** Whole-run laws of every world-line timeline (attack_world_lines.py). */
module WorldLineLaws {
  import opened Ordering
  import opened AttackProgression
  import opened WorldLineGroups
  import opened WorldLineTick
  import opened WorldLineFacts
  import opened WorldLineAdvance
  import opened WorldLineTurns
  import opened WorldLines

  // ----- lines over ticks

  /** With different identifiers each component is remembered under the line it is observed with. */
  lemma KeptIsObserved(run: Run, t: nat)
    requires run.Valid() && t < |run.ticks| && run.IdentifiedTo(t + 1)
    ensures run.ContextAt(t).Identified() && run.KeptAt(t) == run.LinesAt(t)
  {
    ContextIsIdentified(run, t);
    var x := run.ContextAt(t);
    hide Order, Remembered, x.Valid, x.NextLine, x.Identified, run.Valid, run.ContextAt;
    OrderInRange(x);
    OrderHoldsEach(x);
    KeptLookup(run, t);
    forall c | 0 <= c < |run.ticks[t].components| ensures run.KeptAt(t)[c] == run.LinesAt(t)[c] {
      RememberedIsOwn(x, map[], Order(x), c);
    }
  }

  lemma ContextIsIdentified(run: Run, t: nat)
    requires run.Valid() && t < |run.ticks| && run.IdentifiedTo(t + 1)
    ensures run.ContextAt(t).Identified()
  {
  }

  lemma KeptLookup(run: Run, t: nat)
    requires run.Valid() && t < |run.ticks|
    ensures run.ContextAt(t).step.current == run.ticks[t].components
    ensures CurrInRange(run.ContextAt(t), Order(run.ContextAt(t)))
    ensures run.LinesAt(t) == run.ContextAt(t).NextLines()
    ensures var kept := Remembered(run.ContextAt(t), map[], Order(run.ContextAt(t)));
            forall c :: 0 <= c < |run.ticks[t].components| ==>
              run.ticks[t].components[c].componentId in kept
              && run.KeptAt(t)[c] == kept[run.ticks[t].components[c].componentId]
  {
    hide Order, Remembered, run.Valid;
    OrderInRange(run.ContextAt(t));
    assert Names(LinesKept(run.ContextAt(t)), run.ticks[t].components);
  }

  /** At every tick the lines are distinct and were all minted at or before it. */
  lemma {:induction false} LinesStaySound(run: Run, t: nat)
    requires run.Valid() && t < |run.ticks| && run.IdentifiedTo(t + 1)
    ensures Sound(run.ContextAt(t))
    ensures LinesSound(run.stream, run.digest, run.LinesAt(t), t + 1)
  {
    hide Sound, LinesSound, run.Valid, run.ContextAt, run.LinesAt, run.KeptAt;
    if t > 0 {
      LinesStaySound(run, t - 1);
      KeptIsObserved(run, t - 1);
    }
    ContextIsSound(run, t);
    NextLinesStaySound(run, t);
  }

  lemma NextLinesStaySound(run: Run, t: nat)
    requires run.Valid() && t < |run.ticks| && Sound(run.ContextAt(t))
    ensures LinesSound(run.stream, run.digest, run.LinesAt(t), t + 1)
  {
    hide Sound, LinesSound, run.Valid;
    NextLinesAreSound(run.ContextAt(t));
  }

  lemma ContextIsSound(run: Run, t: nat)
    requires run.Valid() && t < |run.ticks| && run.IdentifiedTo(t + 1)
    requires t > 0 ==> LinesSound(run.stream, run.digest, run.KeptAt(t - 1), t)
    ensures Sound(run.ContextAt(t))
  {
    ContextIsIdentified(run, t);
    hide LinesSound, run.Valid, run.KeptAt, TickContext.Identified;
    if t == 0 {
      NoLinesAreSound(run.stream, run.digest);
    }
  }

  lemma NoLinesAreSound(stream: Id, digest: LineDigest)
    ensures LinesSound(stream, digest, [], 0)
  {
  }

  /** The context of a tick, read off the run. */
  lemma ContextIsOfRun(run: Run, t: nat)
    requires run.Valid() && t < |run.ticks| && run.IdentifiedTo(t + 1)
    ensures var x := run.ContextAt(t);
            && x.stream == run.stream && x.digest == run.digest && x.tick == t && run.LinesAt(t) == x.NextLines()
            && x.lines == if t == 0 then [] else run.LinesAt(t - 1)
  {
    hide run.Valid, run.LinesAt, run.KeptAt;
    if t > 0 {
      KeptIsObserved(run, t - 1);
    }
    ContextOpened(run, t);
  }

  lemma ContextOpened(run: Run, t: nat)
    requires run.Valid() && t < |run.ticks|
    ensures var x := run.ContextAt(t);
            && x.stream == run.stream && x.digest == run.digest && run.LinesAt(t) == x.NextLines()
            && x.lines == if t == 0 then [] else run.KeptAt(t - 1)
  {
    hide run.Valid, run.KeptAt;
  }

  /** A line present at a later tick, and minted by tick t, was present at every tick between. */
  lemma {:induction false} LinesAreContiguous(run: Run, line: Id, t: nat, later: nat)
    requires run.Valid() && run.Identified() && t <= later < |run.ticks|
    requires line in run.LinesAt(later) && BornBefore(run.stream, run.digest, line, t + 1)
    ensures line in run.LinesAt(t)
    decreases later
  {
    hide run.LinesAt, run.ContextAt, run.Valid, BornBefore;
    if t < later {
      OldLineWasThere(run, line, t, later);
      LinesAreContiguous(run, line, t, later - 1);
    }
  }

  lemma OldLineWasThere(run: Run, line: Id, t: nat, later: nat)
    requires run.Valid() && run.Identified() && t < later < |run.ticks|
    requires line in run.LinesAt(later) && BornBefore(run.stream, run.digest, line, t + 1)
    ensures line in run.LinesAt(later - 1)
  {
    hide BornBefore, Sound, TickContext.NextLines, TickContext.Valid, run.Valid, run.LinesAt, run.ContextAt;
    LinesStaySound(run, later);
    ContextIsOfRun(run, later);
    OldLineIsFromBefore(run.ContextAt(later), line, t + 1);
  }

  /** A line that is gone never comes back. */
  lemma GoneForGood(run: Run, line: Id, t: nat, later: nat)
    requires run.Valid() && run.Identified() && t < later < |run.ticks|
    requires line in run.LinesAt(t) && line !in run.LinesAt(t + 1)
    ensures line !in run.LinesAt(later)
  {
    hide run.LinesAt, run.ContextAt, run.Valid, BornBefore, run.Identified;
    if line in run.LinesAt(later) {
      BornByTick(run, line, t);
      LinesAreContiguous(run, line, t + 1, later);
    }
  }

  lemma BornByTick(run: Run, line: Id, t: nat)
    requires run.Valid() && run.Identified() && t < |run.ticks| && line in run.LinesAt(t)
    ensures forall s :: t < s ==> BornBefore(run.stream, run.digest, line, s)
  {
    hide run.LinesAt, run.Valid, Sound;
    LinesStaySound(run, t);
    var i :| 0 <= i < |run.LinesAt(t)| && run.LinesAt(t)[i] == line;
    assert BornBefore(run.stream, run.digest, run.LinesAt(t)[i], t + 1);
    var b: nat, c, ps :| b < t + 1 && line == run.digest(run.stream, b, c, ps);
    forall s | t < s ensures BornBefore(run.stream, run.digest, line, s) {
      assert b < s && line == run.digest(run.stream, b, c, ps);
    }
  }

  // ----- what different identifiers are needed for

  /**
   When identifiers have been different so far, the components of a tick are remembered under different lines
   exactly when their identifiers are different.
   */
  lemma RememberedApartIff(run: Run, t: nat)
    requires run.Valid() && t < |run.ticks| && run.IdentifiedTo(t)
    requires TellsApart(run.digest, run.ticks[t].components)
    ensures NoDuplicates(run.KeptAt(t)) <==> DistinctIds(run.ticks[t].components)
  {
    hide run.Valid, run.LinesAt, run.ContextAt, run.KeptAt, Remembered, Order;
    if DistinctIds(run.ticks[t].components) {
      LinesStaySound(run, t);
      KeptIsObserved(run, t);
    } else {
      var i, j :| 0 <= i < |run.ticks[t].components| && 0 <= j < |run.ticks[t].components| && i != j
                  && !Different(run.ticks[t].components[i], run.ticks[t].components[j]);
      KeptLookup(run, t);
      assert run.KeptAt(t)[i] == run.KeptAt(t)[j];
    }
  }

  /** At the first tick, which mints every line, components share a line exactly when they share an identifier. */
  lemma FirstLinesApartIff(run: Run)
    requires run.Valid() && run.ticks != [] && TellsApart(run.digest, run.ticks[0].components)
    ensures NoDuplicates(run.LinesAt(0)) <==> DistinctIds(run.ticks[0].components)
  {
    hide run.Valid;
    forall c: nat | c < |run.ticks[0].components|
      ensures run.LinesAt(0)[c] == run.digest(run.stream, 0, run.ticks[0].components[c].componentId, [])
    {
      FirstLineAt(run, c);
    }
    hide run.LinesAt, run.ContextAt;
    var lines, components := run.LinesAt(0), run.ticks[0].components;
    if DistinctIds(components) {
      forall i, j | 0 <= i < j < |lines| ensures lines[i] != lines[j] {
        assert Different(components[i], components[j]);
      }
    }
    if NoDuplicates(lines) {
      forall i, j | 0 <= i < |components| && 0 <= j < |components| && i != j
        ensures Different(components[i], components[j])
      {
        assert lines[i] != lines[j];
      }
    }
  }

  lemma FirstLineAt(run: Run, c: nat)
    requires run.Valid() && run.ticks != [] && c < |run.ticks[0].components|
    ensures run.LinesAt(0)[c] == run.digest(run.stream, 0, run.ticks[0].components[c].componentId, [])
  {
    var x := run.ContextAt(0);
    assert x.step.previous == [];
    hide run.Valid;
    NothingLinked(x);
    LoneNode(x, Curr(c));
  }

  lemma NothingLinked(x: TickContext)
    requires x.Valid() && x.step.previous == []
    ensures forall n :: n !in x.Graph()
  {
    assert x.step.Edges() == {};
    assert Nodes({}) == {};
  }

  // ----- observations

  lemma {:induction false} ObservationsMeaning(run: Run, limit: nat, o: Observation)
    requires run.Valid() && limit <= |run.ticks|
    ensures o in run.ObservationsBefore(limit) <==>
              o.tick < limit && IsObservationOf(run.ContextAt(o.tick), o)
  {
    hide TickObserved, IsObservationOf, run.ContextAt, run.LinesAt, run.Valid;
    if limit > 0 {
      ObservationsMeaning(run, limit - 1, o);
      ObservedInTick(run.ContextAt(limit - 1), o);
    }
  }

  lemma ObservedInTick(x: TickContext, o: Observation)
    requires x.Valid()
    ensures o in TickObserved(x) <==> IsObservationOf(x, o)
    ensures IsObservationOf(x, o) ==> o.tick == x.tick
  {
    hide IsObservationOf, Order, ObservationsOf;
    OrderInRange(x);
    TickObservations(x, o);
  }

  lemma {:induction false} ObservationsListedOnce(run: Run, limit: nat)
    requires run.Valid() && limit <= |run.ticks|
    ensures NoDuplicates(run.ObservationsBefore(limit))
  {
    hide TickObserved, IsObservationOf, run.ContextAt, run.LinesAt;
    if limit > 0 {
      var x := run.ContextAt(limit - 1);
      ObservationsListedOnce(run, limit - 1);
      TickListsOnce(x);
      forall o | o in run.ObservationsBefore(limit - 1) ensures o !in TickObserved(x) {
        ObservationsMeaning(run, limit - 1, o);
        ObservedInTick(x, o);
      }
      JoinDistinct(run.ObservationsBefore(limit - 1), TickObserved(x));
    }
  }

  lemma TickListsOnce(x: TickContext)
    requires x.Valid() && AllDisjoint(x.step.current) && Substantial(x.step.current)
    ensures NoDuplicates(TickObserved(x))
  {
    hide Order, ObservationsOf;
    OrderInRange(x);
    ObservationsAreDistinct(x);
  }

  lemma Observed(run: Run, timeline: Timeline, o: Observation)
    requires run.Valid() && timeline == TimelineOf(run)
    ensures o in timeline.observations <==> o.tick < |run.ticks| && IsObservationOf(run.ContextAt(o.tick), o)
  {
    hide run.ContextAt, run.Valid, IsObservationOf, Sort;
    ObservationsMeaning(run, |run.ticks|, o);
    SortPermutes(run.ObservationsBefore(|run.ticks|), ObservationOrder);
  }

  /** What an observation of a timeline is: a component of its tick with that component's line. */
  lemma ObservationAt(run: Run, timeline: Timeline, o: Observation) returns (c: nat)
    requires run.Valid() && timeline == TimelineOf(run) && o in timeline.observations
    ensures o.tick < |run.ticks| && c < |run.ticks[o.tick].components|
    ensures o.line == run.LinesAt(o.tick)[c] && o.componentId == run.ticks[o.tick].components[c].componentId
    ensures o == run.ContextAt(o.tick).ObservationOf(c)
  {
    hide run.Valid, TimelineOf, TickContext.Valid, TickContext.NextLine, TickContext.NextLines;
    Observed(run, timeline, o);
    ContextOpened(run, o.tick);
    hide run.ContextAt, run.LinesAt, run.KeptAt;
    c :| c < |run.ticks[o.tick].components| && o == run.ContextAt(o.tick).ObservationOf(c);
  }

  lemma Observes(run: Run, timeline: Timeline, t: nat, c: nat)
    requires run.Valid() && timeline == TimelineOf(run) && t < |run.ticks| && c < |run.ticks[t].components|
    ensures run.ContextAt(t).ObservationOf(c) in timeline.observations
  {
    hide run.Valid, TimelineOf, TickContext.Valid, TickContext.NextLine;
    Observed(run, timeline, run.ContextAt(t).ObservationOf(c));
  }

  /** No observation is listed twice. */
  lemma NothingObservedTwice(run: Run, timeline: Timeline)
    requires run.Valid() && timeline == TimelineOf(run)
    ensures NoDuplicates(timeline.observations)
  {
    hide run.Valid, Sort, run.ObservationsBefore;
    ObservationsListedOnce(run, |run.ticks|);
    SortKeepsDistinct(run.ObservationsBefore(|run.ticks|), ObservationOrder);
  }

  /** Both lists come in key order. */
  lemma ListsAreSorted(run: Run, timeline: Timeline)
    requires run.Valid() && timeline == TimelineOf(run)
    ensures SortedBy(timeline.observations, ObservationOrder) && SortedBy(timeline.transitions, TransitionOrder)
  {
    hide run.Valid, Sort, run.ObservationsBefore, run.TransitionsBefore, ObservationOrder, TransitionOrder;
    ObservationOrderIsTotal();
    TransitionOrderIsTotal();
    SortSorts(run.ObservationsBefore(|run.ticks|), ObservationOrder);
    SortSorts(run.TransitionsBefore(|run.ticks|), TransitionOrder);
  }

  /** At every tick no two components share a world line: tick and line determine the observation. */
  lemma LineObservedOncePerTick(run: Run, timeline: Timeline, a: Observation, b: Observation)
    requires run.Valid() && run.Identified() && timeline == TimelineOf(run)
    requires a in timeline.observations && b in timeline.observations && a.tick == b.tick && a.line == b.line
    ensures a == b
  {
    var i := ObservationAt(run, timeline, a);
    var j := ObservationAt(run, timeline, b);
    LinesStaySound(run, a.tick);
    SameElementSameIndex(run.LinesAt(a.tick), i, j);
  }

  lemma SameElementSameIndex(s: seq<Id>, i: nat, j: nat)
    requires NoDuplicates(s) && i < |s| && j < |s| && s[i] == s[j]
    ensures i == j
  {
  }

  /**
   Every component of every tick has exactly one observation: two observations of a tick that share an entity are
   the same, and so are two with the same component identifier when identifiers are different.
   */
  lemma ComponentObservedOnce(run: Run, timeline: Timeline, t: nat, c: nat)
    requires run.Valid() && timeline == TimelineOf(run) && t < |run.ticks| && c < |run.ticks[t].components|
    ensures exists o ::
              && o in timeline.observations && o.tick == t && o.entityIds == run.ticks[t].components[c].entityIds
              && o.componentId == run.ticks[t].components[c].componentId
    ensures forall a, b ::
              a in timeline.observations && b in timeline.observations && a.tick == b.tick == t
              && (a.entityIds * b.entityIds != {} || (run.Identified() && a.componentId == b.componentId))
              ==> a == b
  {
    Observes(run, timeline, t, c);
    hide run.Valid, TimelineOf, TickContext.NextLine, TickContext.Valid;
    forall a, b | a in timeline.observations && b in timeline.observations && a.tick == b.tick == t
      && (a.entityIds * b.entityIds != {} || (run.Identified() && a.componentId == b.componentId))
      ensures a == b
    {
      var i := ObservationAt(run, timeline, a);
      var j := ObservationAt(run, timeline, b);
      SameComponent(run, t, i, j);
    }
  }

  lemma SameComponent(run: Run, t: nat, i: nat, j: nat)
    requires run.Valid() && t < |run.ticks| && i < |run.ticks[t].components| && j < |run.ticks[t].components|
    ensures var a, b := run.ticks[t].components[i], run.ticks[t].components[j];
            a.entityIds * b.entityIds != {} || (run.Identified() && a.componentId == b.componentId) ==> i == j
  {
    var a, b := run.ticks[t].components[i], run.ticks[t].components[j];
    if i != j {
      assert Disjoint(a, b);
      assert run.Identified() ==> Different(a, b);
    }
  }

  /** The ticks at which a line is observed form one contiguous interval. */
  lemma LineHasNoGaps(run: Run, timeline: Timeline, a: Observation, b: Observation, t: nat)
    requires run.Valid() && run.Identified() && timeline == TimelineOf(run)
    requires a in timeline.observations && b in timeline.observations && a.line == b.line && a.tick <= t <= b.tick
    ensures exists o :: o in timeline.observations && o.tick == t && o.line == a.line
  {
    hide TimelineOf, run.LinesAt, run.Valid, BornBefore, run.Identified;
    var i := ObservationAt(run, timeline, a);
    var j := ObservationAt(run, timeline, b);
    assert run.LinesAt(a.tick)[i] in run.LinesAt(a.tick);
    BornByTick(run, a.line, a.tick);
    assert run.LinesAt(b.tick)[j] in run.LinesAt(b.tick);
    LinesAreContiguous(run, a.line, t, b.tick);
    LineIsObserved(run, timeline, t, a.line);
  }

  lemma LineIsObserved(run: Run, timeline: Timeline, t: nat, line: Id)
    requires run.Valid() && timeline == TimelineOf(run) && t < |run.ticks| && line in run.LinesAt(t)
    ensures exists o :: o in timeline.observations && o.tick == t && o.line == line
  {
    hide TimelineOf, run.Valid, run.Identified, TickContext.NextLine;
    var c :| 0 <= c < |run.LinesAt(t)| && run.LinesAt(t)[c] == line;
    Observes(run, timeline, t, c);
  }

  // ----- transitions

  lemma {:induction false} TransitionsMeaning(run: Run, limit: nat, r: Transition)
    requires run.Valid() && limit <= |run.ticks|
    ensures r in run.TransitionsBefore(limit) <==> r.toTick < limit && IsTransitionOf(run.ContextAt(r.toTick), r)
  {
    hide TickRecorded, IsTransitionOf, run.ContextAt, run.LinesAt, run.Valid;
    if limit > 0 {
      TransitionsMeaning(run, limit - 1, r);
      RecordedInTick(run.ContextAt(limit - 1), r);
    }
  }

  lemma RecordedInTick(x: TickContext, r: Transition)
    requires x.Valid()
    ensures r in TickRecorded(x) <==> IsTransitionOf(x, r)
    ensures IsTransitionOf(x, r) ==> r.toTick == x.tick
  {
    hide IsTransitionOf, Turns, TransitionsOf;
    TurnsAreNodes(x);
    TickTransitions(x, r);
  }

  lemma {:induction false} TransitionsListedOnce(run: Run, limit: nat)
    requires run.Valid() && limit <= |run.ticks| && run.IdentifiedTo(limit)
    ensures NoDuplicates(run.TransitionsBefore(limit))
  {
    hide TickRecorded, IsTransitionOf, run.ContextAt, run.LinesAt, run.Valid;
    if limit > 0 {
      var x := run.ContextAt(limit - 1);
      TransitionsListedOnce(run, limit - 1);
      ContextIsIdentified(run, limit - 1);
      TickRecordsOnce(x);
      forall r | r in run.TransitionsBefore(limit - 1) ensures r !in TickRecorded(x) {
        TransitionsMeaning(run, limit - 1, r);
        RecordedInTick(x, r);
      }
      JoinDistinct(run.TransitionsBefore(limit - 1), TickRecorded(x));
    }
  }

  lemma TickRecordsOnce(x: TickContext)
    requires x.Valid() && x.Identified()
    ensures NoDuplicates(TickRecorded(x))
  {
    hide Turns, TransitionsOf;
    TurnsAreNodes(x);
    TransitionsAreDistinct(x);
  }

  lemma Recorded(run: Run, timeline: Timeline, r: Transition)
    requires run.Valid() && timeline == TimelineOf(run)
    ensures r in timeline.transitions <==> r.toTick < |run.ticks| && IsTransitionOf(run.ContextAt(r.toTick), r)
  {
    hide run.ContextAt, run.Valid, IsTransitionOf, Sort;
    TransitionsMeaning(run, |run.ticks|, r);
    SortPermutes(run.TransitionsBefore(|run.ticks|), TransitionOrder);
  }

  lemma TransitionAt(run: Run, timeline: Timeline, r: Transition) returns (n: Node)
    requires run.Valid() && timeline == TimelineOf(run) && r in timeline.transitions
    ensures r.toTick < |run.ticks| && run.ContextAt(r.toTick).IsNode(n) && r == run.ContextAt(r.toTick).TransitionOf(n)
  {
    Recorded(run, timeline, r);
    hide run.Valid, TimelineOf, TickContext.Valid, TickContext.TransitionOf, TickContext.IsNode;
    n :| run.ContextAt(r.toTick).IsNode(n) && r == run.ContextAt(r.toTick).TransitionOf(n);
  }

  lemma Transitions(run: Run, timeline: Timeline, t: nat, n: Node)
    requires run.Valid() && timeline == TimelineOf(run) && t < |run.ticks| && run.ContextAt(t).IsNode(n)
    ensures run.ContextAt(t).TransitionOf(n) in timeline.transitions && run.ContextAt(t).TransitionOf(n).toTick == t
  {
    ToTick(run.ContextAt(t), n);
    hide run.Valid, TimelineOf, TickContext.Valid, TickContext.TransitionOf, TickContext.IsNode;
    Recorded(run, timeline, run.ContextAt(t).TransitionOf(n));
  }

  /** With different identifiers no transition is listed twice either. */
  lemma NothingRecordedTwice(run: Run, timeline: Timeline)
    requires run.Valid() && run.Identified() && timeline == TimelineOf(run)
    ensures NoDuplicates(timeline.transitions)
  {
    hide run.Valid, Sort, run.TransitionsBefore;
    TransitionsListedOnce(run, |run.ticks|);
    SortKeepsDistinct(run.TransitionsBefore(|run.ticks|), TransitionOrder);
  }

  lemma OwnPredecessor(x: TickContext, p: nat)
    requires x.Valid() && p < |x.step.previous|
    ensures x.step.previous[p].componentId in x.TransitionOf(Prev(p)).predecessors
  {
    x.SelfInCohort(Prev(p));
    MembersOfTransition(x, Prev(p));
    IdsOfMeaning(x.step.previous, x.Cohort(Prev(p)).prev);
    hide x.Cohort, x.TransitionOf, IdsOf;
  }

  lemma OwnSuccessor(x: TickContext, c: nat)
    requires x.Valid() && c < |x.step.current|
    ensures x.step.current[c].componentId in x.TransitionOf(Curr(c)).successors
  {
    x.SelfInCohort(Curr(c));
    MembersOfTransition(x, Curr(c));
    IdsOfMeaning(x.step.current, x.Cohort(Curr(c)).curr);
    hide x.Cohort, x.TransitionOf, IdsOf;
  }

  lemma OwnPredecessorAt(run: Run, timeline: Timeline, t: nat, p: nat)
    requires run.Valid() && timeline == TimelineOf(run) && 0 < t < |run.ticks| && p < |run.ticks[t - 1].components|
    ensures run.ContextAt(t).IsNode(Prev(p))
    ensures var r := run.ContextAt(t).TransitionOf(Prev(p));
            r in timeline.transitions && r.toTick == t && run.ticks[t - 1].components[p].componentId in r.predecessors
  {
    hide TimelineOf, run.Valid, TickContext.TransitionOf, TickContext.Valid;
    OwnPredecessor(run.ContextAt(t), p);
    Transitions(run, timeline, t, Prev(p));
  }

  lemma OnlyPredecessor(run: Run, timeline: Timeline, t: nat, p: nat, r: Transition)
    requires run.Valid() && run.Identified() && timeline == TimelineOf(run)
    requires 0 < t < |run.ticks| && p < |run.ticks[t - 1].components|
    requires r in timeline.transitions && r.toTick == t && run.ticks[t - 1].components[p].componentId in r.predecessors
    ensures run.ContextAt(t).IsNode(Prev(p)) && r == run.ContextAt(t).TransitionOf(Prev(p))
  {
    ContextIsIdentified(run, t);
    hide TimelineOf, run.Valid, run.Identified, TickContext.Identified, TickContext.Valid, TickContext.TransitionOf;
    var n := TransitionAt(run, timeline, r);
    MemberByPredecessor(run.ContextAt(t), n, p);
  }

  /** At every tick step each previous component is a predecessor in exactly one transition. */
  lemma EveryPredecessorOnce(run: Run, timeline: Timeline, t: nat, p: nat)
    requires run.Valid() && run.Identified() && timeline == TimelineOf(run)
    requires 0 < t < |run.ticks| && p < |run.ticks[t - 1].components|
    ensures var id := run.ticks[t - 1].components[p].componentId;
            && (exists r :: r in timeline.transitions && r.toTick == t && id in r.predecessors)
            && (forall r, s ::
                  r in timeline.transitions && s in timeline.transitions && r.toTick == s.toTick == t
                  && id in r.predecessors * s.predecessors
                  ==> r == s)
  {
    hide TimelineOf, run.Valid, run.ContextAt, run.Identified, run.StepAt;
    hide TickContext.Identified, TickContext.Valid, TickContext.TransitionOf, TickContext.IsNode, TickContext.Cohort;
    OwnPredecessorAt(run, timeline, t, p);
    var id, turn := run.ticks[t - 1].components[p].componentId, run.ContextAt(t).TransitionOf(Prev(p));
    forall r | r in timeline.transitions && r.toTick == t && id in r.predecessors ensures r == turn {
      OnlyPredecessor(run, timeline, t, p, r);
    }
  }

  lemma OwnSuccessorAt(run: Run, timeline: Timeline, t: nat, c: nat)
    requires run.Valid() && timeline == TimelineOf(run) && t < |run.ticks| && c < |run.ticks[t].components|
    ensures run.ContextAt(t).IsNode(Curr(c))
    ensures var r := run.ContextAt(t).TransitionOf(Curr(c));
            r in timeline.transitions && r.toTick == t && run.ticks[t].components[c].componentId in r.successors
  {
    hide TimelineOf, run.Valid, TickContext.TransitionOf, TickContext.Valid;
    OwnSuccessor(run.ContextAt(t), c);
    Transitions(run, timeline, t, Curr(c));
  }

  lemma OnlySuccessor(run: Run, timeline: Timeline, t: nat, c: nat, r: Transition)
    requires run.Valid() && run.Identified() && timeline == TimelineOf(run)
    requires t < |run.ticks| && c < |run.ticks[t].components|
    requires r in timeline.transitions && r.toTick == t && run.ticks[t].components[c].componentId in r.successors
    ensures run.ContextAt(t).IsNode(Curr(c)) && r == run.ContextAt(t).TransitionOf(Curr(c))
  {
    ContextIsIdentified(run, t);
    hide TimelineOf, run.Valid, run.Identified, TickContext.Identified, TickContext.Valid, TickContext.TransitionOf;
    var n := TransitionAt(run, timeline, r);
    MemberBySuccessor(run.ContextAt(t), n, c);
  }

  /** At every tick each current component is a successor in exactly one transition. */
  lemma EverySuccessorOnce(run: Run, timeline: Timeline, t: nat, c: nat)
    requires run.Valid() && run.Identified() && timeline == TimelineOf(run)
    requires t < |run.ticks| && c < |run.ticks[t].components|
    ensures var id := run.ticks[t].components[c].componentId;
            && (exists r :: r in timeline.transitions && r.toTick == t && id in r.successors)
            && (forall r, s ::
                  r in timeline.transitions && s in timeline.transitions && r.toTick == s.toTick == t
                  && id in r.successors * s.successors
                  ==> r == s)
  {
    hide TimelineOf, run.Valid, run.ContextAt, run.Identified, run.StepAt;
    hide TickContext.Identified, TickContext.Valid, TickContext.TransitionOf, TickContext.IsNode, TickContext.Cohort;
    OwnSuccessorAt(run, timeline, t, c);
    var id, turn := run.ticks[t].components[c].componentId, run.ContextAt(t).TransitionOf(Curr(c));
    forall r | r in timeline.transitions && r.toTick == t && id in r.successors ensures r == turn {
      OnlySuccessor(run, timeline, t, c, r);
    }
  }

  /** In every timeline the kind of a transition holds exactly when its counts have the shape. */
  lemma KindsMatchShapes(run: Run, timeline: Timeline, r: Transition)
    requires run.Valid() && timeline == TimelineOf(run) && r in timeline.transitions
    ensures var before, after := |r.predecessors|, |r.successors|;
            && before + after > 0
            && (r.kind == NEW <==> before == 0)
            && (r.kind == ENDED <==> after == 0)
            && (r.kind == CONTINUED || r.kind == REROUTED <==> before == 1 && after == 1)
            && (r.kind == SPLIT <==> before == 1 && after > 1)
            && (r.kind == MERGED <==> before > 1 && after == 1)
            && (r.kind == RECONFIGURED <==> before > 1 && after > 1)
  {
    var n := TransitionAt(run, timeline, r);
    hide TimelineOf, run.Valid, run.ContextAt, TickContext.TransitionOf;
    KindMatchesShape(run.ContextAt(r.toTick), n);
  }

  lemma PickMembers(lines: seq<Id>, indices: seq<nat>)
    requires forall k :: 0 <= k < |indices| ==> indices[k] < |lines|
    ensures forall l :: l in Pick(lines, indices) ==> exists k :: 0 <= k < |indices| && l == lines[indices[k]]
  {
    PickAt(lines, indices);
  }

  lemma GroupLineIndex(x: TickContext, group: Group, line: Id) returns (p: nat)
    requires x.Valid() && x.InRange(group) && line in x.PredecessorLines(group)
    ensures p in group.prev && x.lines[p] == line
  {
    var order := SortedIds(group.prev);
    SortPermutes<Id>(Pick(x.lines, order), CutPoints.IdOrder);
    PickMembers(x.lines, order);
    var k :| 0 <= k < |order| && line == x.lines[order[k]];
    p := order[k];
  }

  lemma PredecessorLineIndex(x: TickContext, n: Node, line: Id) returns (p: nat)
    requires x.Valid() && x.IsNode(n) && line in x.TransitionOf(n).predecessorLines
    ensures p in x.Cohort(n).prev && p < |x.lines| && x.lines[p] == line
  {
    x.SelfInCohort(n);
    if x.Cohort(n).prev != {} && x.Cohort(n).curr != {} {
      p := GroupLineIndex(x, x.Cohort(n), line);
    } else {
      AloneOnItsSide(x, n);
      p := n.index;
    }
  }

  /** The line of a predecessor in a transition that is not one-to-one is not carried on. */
  lemma RetiredLineIsGone(x: TickContext, n: Node, line: Id)
    requires Sound(x) && x.IsNode(n) && line in x.TransitionOf(n).predecessorLines
    requires x.TransitionOf(n).kind != CONTINUED && x.TransitionOf(n).kind != REROUTED
    ensures line in x.lines && line !in x.NextLines()
  {
    var p := PredecessorLineIndex(x, n, line);
    assert Has(x.Cohort(n), Prev(p));
    CohortOfMember(x, n, Prev(p));
    NotOneToOne(x, n);
    LineLivesOnIff(x, p);
  }

  /** A line that ended, split, merged or was reconfigured is never observed again. */
  lemma RetiredLineNeverReturns(run: Run, timeline: Timeline, r: Transition, line: Id, o: Observation)
    requires run.Valid() && run.Identified() && timeline == TimelineOf(run)
    requires r in timeline.transitions && r.kind != CONTINUED && r.kind != REROUTED && line in r.predecessorLines
    requires o in timeline.observations && o.tick >= r.toTick
    ensures o.line != line
  {
    hide TimelineOf, run.Valid, run.ContextAt, run.LinesAt, Sound, TickContext.TransitionOf;
    var n := TransitionAt(run, timeline, r);
    var c := ObservationAt(run, timeline, o);
    LinesStaySound(run, r.toTick);
    RetiredLineIsGone(run.ContextAt(r.toTick), n, line);
    LostAtTick(run, line, r.toTick, o.tick);
    assert run.LinesAt(o.tick)[c] in run.LinesAt(o.tick);
  }

  lemma LostAtTick(run: Run, line: Id, t: nat, later: nat)
    requires run.Valid() && run.Identified() && t <= later < |run.ticks|
    requires line in run.ContextAt(t).lines && line !in run.ContextAt(t).NextLines()
    ensures line !in run.LinesAt(later)
  {
    hide run.Valid, TickContext.NextLines, TickContext.Valid, run.LinesAt, run.ContextAt;
    ContextIsOfRun(run, t);
    if t < later {
      GoneForGood(run, line, t - 1, later);
    }
  }

  lemma NotOneToOne(x: TickContext, n: Node)
    requires x.Valid() && x.IsNode(n)
    requires x.TransitionOf(n).kind != CONTINUED && x.TransitionOf(n).kind != REROUTED
    ensures !OneToOne(x.Cohort(n))
  {
    KindMatchesShape(x, n);
    MembersOfTransition(x, n);
    x.CohortInRange(n);
    IdsOfMeaning(x.step.previous, x.Cohort(n).prev);
    IdsOfMeaning(x.step.current, x.Cohort(n).curr);
    hide x.Cohort, x.TransitionOf, IdsOf;
  }

  // ----- repeated snapshots

  /**
   A repeated snapshot continues every line iff no two of its components are linked to each other; then every
   component is observed with the line it was remembered under.
   */
  lemma RepeatedSnapshot(run: Run, timeline: Timeline, t: nat)
    requires run.Valid() && timeline == TimelineOf(run) && 0 < t < |run.ticks| && run.ticks[t] == run.ticks[t - 1]
    ensures Repeats(run.ContextAt(t))
    ensures (forall r :: r in timeline.transitions && r.toTick == t ==> r.kind == CONTINUED)
            <==> NoCrossLinks(run.ContextAt(t))
    ensures NoCrossLinks(run.ContextAt(t)) ==> run.LinesAt(t) == run.KeptAt(t - 1)
  {
    var x := run.ContextAt(t);
    TickRepeats(run, t);
    StutterContinuesIff(x);
    hide TimelineOf, run.Valid, run.KeptAt, x.TransitionOf, x.NextLines, NoCrossLinks, Repeats, x.Valid, x.IsNode;
    if NoCrossLinks(x) {
      forall r | r in timeline.transitions && r.toTick == t ensures r.kind == CONTINUED {
        var n := TransitionAt(run, timeline, r);
      }
    } else {
      var n :| x.IsNode(n) && x.TransitionOf(n).kind != CONTINUED;
      Transitions(run, timeline, t, n);
    }
  }

  lemma TickRepeats(run: Run, t: nat)
    requires run.Valid() && 0 < t < |run.ticks| && run.ticks[t] == run.ticks[t - 1]
    ensures Repeats(run.ContextAt(t))
  {
    hide AllDisjoint, Substantial;
  }
}
