/** What the observations and transitions of a timeline report (attack_world_lines.py). */
module WorldLineRecords {
  import opened Ordering
  import opened CutPoints
  import opened ComponentTexts
  import opened AttackProgression
  import opened WorldLineGroups
  import opened WorldLineTick
  import opened WorldLineFacts
  import opened WorldLines
  import opened WorldLineLaws

  /** Every observation repeats one component of its tick, with its line and the anchors kept under its identifier. */
  lemma ObservationMeaning(run: Run, timeline: Timeline, o: Observation)
    requires run.Valid() && timeline == TimelineOf(run) && o in timeline.observations
    ensures o.tick < |run.ticks|
    ensures exists c: nat :: c < |run.ticks[o.tick].components| && Reports(run, o, c)
  {
    hide run.Valid, TimelineOf, run.ContextAt, run.LinesAt, TickContext.NextLine;
    var c := ObservationAt(run, timeline, o);
    ContextOpened(run, o.tick);
    ObservedFields(run.ContextAt(o.tick), c);
    StepIs(run, o.tick);
    assert Reports(run, o, c);
  }

  ghost predicate Reports(run: Run, o: Observation, c: nat)
    requires run.Valid() && o.tick < |run.ticks| && c < |run.ticks[o.tick].components|
  {
    var component, anchors := run.ticks[o.tick].components[c], run.ticks[o.tick].anchors;
    && o.line == run.LinesAt(o.tick)[c]
    && o.componentId == component.componentId && o.entityIds == component.entityIds
    && o.relationIds == component.activeRelationIds && o.stage == component.currentStage && o.risk == component.risk
    && o.anchors == if component.componentId in anchors then anchors[component.componentId] else {}
  }

  lemma StepIs(run: Run, t: nat)
    requires run.Valid() && t < |run.ticks|
    ensures var x := run.ContextAt(t);
            && x.step.current == run.ticks[t].components && x.step.currentAnchors == run.ticks[t].anchors
            && x.step.previous == (if t == 0 then [] else run.ticks[t - 1].components)
            && x.step.previousAnchors == (if t == 0 then map[] else run.ticks[t - 1].anchors)
            && x.step.policy == run.policy && x.tick == t
  {
  }

  lemma ObservedFields(x: TickContext, c: nat)
    requires x.Valid() && c < |x.step.current|
    ensures var o, component := x.ObservationOf(c), x.step.current[c];
            && o.line == x.NextLine(c) && o.componentId == component.componentId
            && o.entityIds == component.entityIds && o.relationIds == component.activeRelationIds
            && o.stage == component.currentStage && o.risk == component.risk
            && o.anchors == if component.componentId in x.step.currentAnchors
                            then x.step.currentAnchors[component.componentId] else {}
  {
    hide x.NextLine;
  }

  // ----- transitions

  ghost predicate Ascends(ids: seq<Id>) {
    forall i, j :: 0 <= i < j < |ids| ==> ids[i] <= ids[j]
  }

  /** The list holds the line of each of these components once, in order. */
  ghost predicate ListsLines(ids: seq<Id>, lines: seq<Id>, members: set<nat>)
    requires forall i :: i in members ==> i < |lines|
  {
    Ascends(ids) && multiset(ids) == multiset(Pick(lines, SortedIds(members)))
  }

  lemma SortedLines(lines: seq<Id>, indices: seq<nat>)
    requires forall k :: 0 <= k < |indices| ==> indices[k] < |lines|
    ensures var ids := Sort<Id>(Pick(lines, indices), IdOrder);
            Ascends(ids) && multiset(ids) == multiset(Pick(lines, indices))
  {
    hide Pick, Sort;
    SortSorts<Id>(Pick(lines, indices), IdOrder);
    SortPermutes<Id>(Pick(lines, indices), IdOrder);
  }

  lemma {:induction false} SharedMeaning(x: TickContext, pairs: seq<(nat, nat)>, a: Id)
    requires forall e :: e in pairs ==> e.0 < |x.step.previous| && e.1 < |x.step.current|
    ensures a in x.SharedIn(pairs) <==>
              exists e :: e in pairs && a in AnchorsOf(x.step.previousAnchors, x.step.previous, e.0)
                && a in AnchorsOf(x.step.currentAnchors, x.step.current, e.1)
  {
    if pairs != [] {
      SharedMeaning(x, pairs[1..], a);
      assert pairs == [pairs[0]] + pairs[1..] && pairs[0] in pairs;
      assert forall e :: e in pairs <==> e == pairs[0] || e in pairs[1..];
      assert a in x.step.SharedAnchors(pairs[0].0, pairs[0].1) <==>
        a in AnchorsOf(x.step.previousAnchors, x.step.previous, pairs[0].0)
        && a in AnchorsOf(x.step.currentAnchors, x.step.current, pairs[0].1);
    }
  }

  /** The anchors kept under a component's identifier. */
  function AnchorsOf(anchors: map<Id, set<Id>>, components: seq<ComponentReport>, i: nat): set<Id> {
    if i < |components| && components[i].componentId in anchors then anchors[components[i].componentId] else {}
  }

  /**
   What a transition reports of the components it accounts for, those of one cohort: the tick before and its own, their
   lines in order, and the anchors kept on both sides. A component that is new reports its own anchors.
   */
  ghost predicate Accounts(x: TickContext, cohort: Group, r: Transition)
    requires x.Valid() && x.InRange(cohort)
  {
    && r.toTick == x.tick && r.fromTick == (if x.tick == 0 then None else Some(x.tick - 1))
    && ListsLines(r.predecessorLines, x.lines, cohort.prev) && ListsLines(r.successorLines, x.NextLines(), cohort.curr)
    && Anchored(x, cohort, r.sharedAnchors) && (cohort.prev == {} || cohort.curr == {} ==> r.maxOverlap == 0.0)
  }

  ghost predicate Anchored(x: TickContext, cohort: Group, anchors: set<Id>) {
    && (cohort.prev != {} ==> forall a :: a in anchors <==> SharedBetween(x, cohort, a))
    && (cohort.prev == {} ==> forall a :: a in anchors <==>
          exists c :: c in cohort.curr && a in AnchorsOf(x.step.currentAnchors, x.step.current, c))
  }

  ghost predicate SharedBetween(x: TickContext, cohort: Group, a: Id) {
    exists p, c :: p in cohort.prev && c in cohort.curr && a in AnchorsOf(x.step.previousAnchors, x.step.previous, p)
                   && a in AnchorsOf(x.step.currentAnchors, x.step.current, c)
  }

  lemma GroupAccounts(x: TickContext, n: Node)
    requires x.Valid() && x.IsNode(n) && x.Cohort(n).prev != {} && x.Cohort(n).curr != {}
    ensures x.InRange(x.Cohort(n)) && Accounts(x, x.Cohort(n), x.TransitionOf(n))
  {
    GroupFields(x, n);
    hide x.Cohort, x.NextLines, x.TransitionOf, PairsOf, Sort, Pick, SortedIds, Ascends, Anchored, x.SharedIn;
    SortedMembers(x.lines, x.Cohort(n).prev);
    SortedMembers(x.NextLines(), x.Cohort(n).curr);
    GroupAnchored(x, x.Cohort(n));
  }

  lemma SortedMembers(lines: seq<Id>, members: set<nat>)
    requires forall i :: i in members ==> i < |lines|
    ensures ListsLines(Sort<Id>(Pick(lines, SortedIds(members)), IdOrder), lines, members)
  {
    SortedLines(lines, SortedIds(members));
  }

  lemma GroupAnchored(x: TickContext, cohort: Group)
    requires x.Valid() && x.InRange(cohort) && cohort.prev != {}
    requires forall e :: e in PairsOf(cohort) ==> e.0 < |x.step.previous| && e.1 < |x.step.current|
    ensures Anchored(x, cohort, x.SharedIn(PairsOf(cohort)))
  {
    hide PairsOf, SharedBetween, x.SharedIn;
    forall a ensures a in x.SharedIn(PairsOf(cohort)) <==> SharedBetween(x, cohort, a) {
      SharedInGroup(x, cohort, a);
    }
  }

  lemma GroupFields(x: TickContext, n: Node)
    requires x.Valid() && x.IsNode(n) && x.Cohort(n).prev != {} && x.Cohort(n).curr != {}
    ensures x.InRange(x.Cohort(n))
    ensures forall e :: e in PairsOf(x.Cohort(n)) ==> e.0 < |x.step.previous| && e.1 < |x.step.current|
    ensures var r, cohort := x.TransitionOf(n), x.Cohort(n);
            && r.toTick == x.tick && r.fromTick == (if x.tick == 0 then None else Some(x.tick - 1))
            && r.predecessorLines == Sort<Id>(Pick(x.lines, SortedIds(cohort.prev)), IdOrder)
            && r.successorLines == Sort<Id>(Pick(x.NextLines(), SortedIds(cohort.curr)), IdOrder)
            && r.sharedAnchors == x.SharedIn(PairsOf(cohort))
  {
    x.CohortInRange(n);
    TransitionOfGroup(x, n);
    FieldsOfGroup(x, x.Cohort(n), x.KindOf(x.Cohort(n)), Pick(x.NextLines(), SortedIds(x.Cohort(n).curr)), x.Scores());
    hide x.Cohort, x.NextLines, x.TransitionOf, x.KindOf, x.GroupTransition, PairsOf, x.Scores, x.SharedIn, Pick, Sort;
  }

  lemma FieldsOfGroup(x: TickContext, cohort: Group, kind: TransitionKind, successorLines: seq<Id>,
                      scores: map<(nat, nat), real>)
    requires x.Valid() && x.InRange(cohort)
    ensures forall e :: e in PairsOf(cohort) ==> e.0 < |x.step.previous| && e.1 < |x.step.current|
    ensures var r := x.GroupTransition(cohort, kind, successorLines, scores);
            && r.toTick == x.tick && r.fromTick == (if x.tick == 0 then None else Some(x.tick - 1))
            && r.predecessorLines == Sort<Id>(Pick(x.lines, SortedIds(cohort.prev)), IdOrder)
            && r.successorLines == Sort<Id>(successorLines, IdOrder) && r.sharedAnchors == x.SharedIn(PairsOf(cohort))
  {
    x.PairsInRange(cohort);
    hide PairsOf, IdsOf, BestOverlap, x.SharedIn, Pick, Sort, SortedIds;
  }

  lemma TransitionOfGroup(x: TickContext, n: Node)
    requires x.Valid() && x.IsNode(n) && x.Cohort(n).prev != {} && x.Cohort(n).curr != {}
    ensures x.InRange(x.Cohort(n))
    ensures x.TransitionOf(n) == x.GroupTransition(x.Cohort(n), x.KindOf(x.Cohort(n)),
                                                   Pick(x.NextLines(), SortedIds(x.Cohort(n).curr)), x.Scores())
  {
    x.CohortInRange(n);
    hide x.Cohort, x.NextLines, x.KindOf, x.GroupTransition, Pick, SortedIds, x.Scores;
  }

  lemma SharedInGroup(x: TickContext, cohort: Group, a: Id)
    requires x.Valid() && x.InRange(cohort)
    requires forall e :: e in PairsOf(cohort) ==> e.0 < |x.step.previous| && e.1 < |x.step.current|
    ensures a in x.SharedIn(PairsOf(cohort)) <==> SharedBetween(x, cohort, a)
  {
    SharedMeaning(x, PairsOf(cohort), a);
    forall e ensures e in PairsOf(cohort) <==> e.0 in cohort.prev && e.1 in cohort.curr {
      PairsMeaning(SortedIds(cohort.prev), SortedIds(cohort.curr), e);
    }
    hide PairsOf, AnchorsOf;
    if p, c :| p in cohort.prev && c in cohort.curr && a in AnchorsOf(x.step.previousAnchors, x.step.previous, p)
               && a in AnchorsOf(x.step.currentAnchors, x.step.current, c)
    {
      assert (p, c) in PairsOf(cohort);
    }
  }

  lemma LoneAccounts(x: TickContext, n: Node)
    requires x.Valid() && x.IsNode(n) && (x.Cohort(n).prev == {} || x.Cohort(n).curr == {})
    ensures x.InRange(x.Cohort(n)) && Accounts(x, x.Cohort(n), x.TransitionOf(n))
  {
    AloneOnItsSide(x, n);
    LoneFields(x, n);
    x.CohortInRange(n);
    hide x.Cohort, x.TransitionOf, x.NextLines, ListsLines, Anchored;
    match n
    case Prev(p) =>
      assert x.Cohort(n) == Group({p}, {});
      OneLine(x.lines, p);
      NoLine(x.NextLines());
      LoneAnchored(x, p, 0);
    case Curr(c) =>
      assert x.Cohort(n) == Group({}, {c});
      NoLine(x.lines);
      OneLine(x.NextLines(), c);
      LoneAnchored(x, 0, c);
  }

  lemma OneLine(lines: seq<Id>, i: nat)
    requires i < |lines|
    ensures ListsLines([lines[i]], lines, {i})
  {
    PickOne(lines, i);
  }

  lemma NoLine(lines: seq<Id>)
    ensures ListsLines([], lines, {})
  {
    PickNone(lines);
  }

  lemma LoneAnchored(x: TickContext, p: nat, c: nat)
    ensures Anchored(x, Group({p}, {}), {})
    ensures Anchored(x, Group({}, {c}), AnchorsOf(x.step.currentAnchors, x.step.current, c))
  {
    hide AnchorsOf;
    assert c in Group({}, {c}).curr;
  }

  lemma LoneFields(x: TickContext, n: Node)
    requires x.Valid() && x.IsNode(n) && x.Cohort(n) == Include(Group({}, {}), n)
    ensures var r := x.TransitionOf(n);
            && r.toTick == x.tick && r.fromTick == (if x.tick == 0 then None else Some(x.tick - 1))
            && r.predecessorLines == (if n.Prev? then [x.lines[n.index]] else [])
            && r.successorLines == (if n.Prev? then [] else [x.NextLine(n.index)])
            && r.maxOverlap == 0.0
            && r.sharedAnchors == (if n.Prev? then {} else AnchorsOf(x.step.currentAnchors, x.step.current, n.index))
  {
    hide x.Cohort, x.NextLine;
  }

  lemma PickOne(lines: seq<Id>, i: nat)
    requires i < |lines|
    ensures Pick(lines, SortedIds({i})) == [lines[i]]
  {
    var order := SortedIds({i});
    assert order[0] in {i} && order == [i];
    assert order[1..] == [] && Pick(lines, []) == [];
  }

  lemma PickNone(lines: seq<Id>)
    ensures Pick(lines, SortedIds({})) == []
  {
    assert SortedIds({}) == [];
  }

  /** Every transition of a timeline accounts for one cohort of its tick. */
  lemma TransitionMeaning(run: Run, timeline: Timeline, r: Transition)
    requires run.Valid() && timeline == TimelineOf(run) && r in timeline.transitions
    ensures r.toTick < |run.ticks|
    ensures var x := run.ContextAt(r.toTick);
            exists n :: x.IsNode(n) && x.InRange(x.Cohort(n)) && Accounts(x, x.Cohort(n), r)
  {
    var n := TransitionAt(run, timeline, r);
    var x := run.ContextAt(r.toTick);
    hide run.Valid, TimelineOf, run.ContextAt, x.Cohort, x.TransitionOf, Accounts;
    if x.Cohort(n).prev != {} && x.Cohort(n).curr != {} {
      GroupAccounts(x, n);
    } else {
      LoneAccounts(x, n);
    }
  }

  /** A line that is not carried on is minted from stream, tick, component and the cohort's lines before, in order. */
  lemma MintedLineMeaning(x: TickContext, c: nat)
    requires x.Valid() && c < |x.step.current| && !OneToOne(x.Cohort(Curr(c)))
    ensures exists ps :: x.InRange(x.Cohort(Curr(c))) && ListsLines(ps, x.lines, x.Cohort(Curr(c)).prev)
                         && x.NextLine(c) == x.digest(x.stream, x.tick, x.step.current[c].componentId, ps)
  {
    var cohort := x.Cohort(Curr(c));
    x.CohortInRange(Curr(c));
    SortedLines(x.lines, SortedIds(cohort.prev));
    hide x.Cohort;
    assert ListsLines(x.PredecessorLines(cohort), x.lines, cohort.prev);
  }

  // ----- the order of the two lists

  /** A list comes before another where it is smaller at the first difference, or is cut short. */
  ghost predicate ListBefore(a: seq<Id>, b: seq<Id>) {
    exists n: nat :: DiffersAt(a, b, n)
  }

  predicate DiffersAt(a: seq<Id>, b: seq<Id>, n: nat) {
    n <= |a| && n < |b| && a[..n] == b[..n] && (n == |a| || a[n] < b[n])
  }

  lemma {:induction false} LexLeIff(a: seq<Id>, b: seq<Id>)
    ensures LexLe(a, b) <==> a == b || ListBefore(a, b)
  {
    if a == [] {
      assert b != [] ==> DiffersAt(a, b, 0);
    } else if b != [] {
      LexLeIff(a[1..], b[1..]);
      assert a == [a[0]] + a[1..] && b == [b[0]] + b[1..];
      if a[0] < b[0] {
        assert DiffersAt(a, b, 0);
      }
      if n: nat :| DiffersAt(a[1..], b[1..], n) {
        assert a[0] == b[0] ==> a[..n + 1] == [a[0]] + a[1..][..n] && b[..n + 1] == [b[0]] + b[1..][..n];
        assert a[0] == b[0] ==> DiffersAt(a, b, n + 1);
      }
      if n: nat :| DiffersAt(a, b, n) && n > 0 {
        assert a[..n] == [a[0]] + a[1..][..n - 1] && b[..n] == [b[0]] + b[1..][..n - 1];
        assert a[..n][0] == b[..n][0] && a[1..][..n - 1] == a[..n][1..] && b[1..][..n - 1] == b[..n][1..];
        assert DiffersAt(a[1..], b[1..], n - 1);
      }
    }
  }

  function NameOf(kind: TransitionKind): string {
    match kind
    case NEW => "NEW"
    case CONTINUED => "CONTINUED"
    case REROUTED => "REROUTED"
    case SPLIT => "SPLIT"
    case MERGED => "MERGED"
    case RECONFIGURED => "RECONFIGURED"
    case ENDED => "ENDED"
  }

  lemma {:induction false} SmallerAt(a: string, b: string, n: nat)
    requires n < |a| && n < |b| && a[..n] == b[..n] && a[n] < b[n]
    ensures TextBefore(a, b) && !TextBefore(b, a)
  {
    if n > 0 {
      assert a[..n][0] == b[..n][0] && a[1..][..n - 1] == a[..n][1..] && b[1..][..n - 1] == b[..n][1..];
      SmallerAt(a[1..], b[1..], n - 1);
    }
  }

  lemma NamesAscend(a: TransitionKind, b: TransitionKind)
    ensures NameRank(a) < NameRank(b) <==> TextBefore(NameOf(a), NameOf(b))
  {
    var s, t := NameOf(a), NameOf(b);
    BeforeIsStrict(s);
    hide TextBefore;
    if a != b {
      var n := if s[0] == t[0] then 2 else 0;
      assert s[..n] == t[..n] && s[n] != t[n];
      if s[n] < t[n] {
        SmallerAt(s, t, n);
      } else {
        SmallerAt(t, s, n);
      }
    }
  }

  /** Observations come by tick, line and component; transitions by tick, name of their kind, and lines on each side. */
  lemma ListsByKey(run: Run, timeline: Timeline, i: nat, j: nat)
    requires run.Valid() && timeline == TimelineOf(run) && i < j
    ensures j < |timeline.observations| ==>
              var a, b := timeline.observations[i], timeline.observations[j];
              || a.tick < b.tick
              || (a.tick == b.tick && a.line < b.line)
              || (a.tick == b.tick && a.line == b.line && a.componentId <= b.componentId)
    ensures j < |timeline.transitions| ==>
              var a, b := timeline.transitions[i], timeline.transitions[j];
              || a.toTick < b.toTick
              || (a.toTick == b.toTick && TextBefore(NameOf(a.kind), NameOf(b.kind)))
              || (a.toTick == b.toTick && a.kind == b.kind && LinesInOrder(a, b))
  {
    ListsAreSorted(run, timeline);
    hide run.Valid, TimelineOf;
    if j < |timeline.observations| {
      assert ObservationOrder(timeline.observations[i], timeline.observations[j]);
    }
    if j < |timeline.transitions| {
      assert TransitionOrder(timeline.transitions[i], timeline.transitions[j]);
      TransitionsInOrder(timeline.transitions[i], timeline.transitions[j]);
    }
  }

  ghost predicate LinesInOrder(a: Transition, b: Transition) {
    || ListBefore(a.predecessorLines, b.predecessorLines)
    || (a.predecessorLines == b.predecessorLines
        && (a.successorLines == b.successorLines || ListBefore(a.successorLines, b.successorLines)))
  }

  lemma TransitionsInOrder(a: Transition, b: Transition)
    requires TransitionOrder(a, b)
    ensures || a.toTick < b.toTick
            || (a.toTick == b.toTick && TextBefore(NameOf(a.kind), NameOf(b.kind)))
            || (a.toTick == b.toTick && a.kind == b.kind && LinesInOrder(a, b))
  {
    hide LexLe, ListBefore, TextBefore, NameOf, NameRank;
    NamesAscend(a.kind, b.kind);
    LexLeIff(a.predecessorLines, b.predecessorLines);
    LexLeIff(a.successorLines, b.successorLines);
  }
}
