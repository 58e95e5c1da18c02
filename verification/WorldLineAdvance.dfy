/** The loop body of `build_attack_world_line_timeline`: one tick, step by step (attack_world_lines.py). */
module WorldLineAdvance {
  import opened Ordering
  import opened CutPoints
  import opened WorldLineGroups
  import opened WorldLineTick
  import opened WorldLineFacts

  // ----- what a tick emits, and in which order

  /** Current component c is linked and the least current component of its cohort. */
  ghost predicate IsStart(x: TickContext, c: nat)
    requires x.Valid()
  {
    c < |x.step.current| && Curr(c) in x.Graph() && forall d :: d in x.Cohort(Curr(c)).curr ==> c <= d
  }

  ghost function Starts(x: TickContext): seq<nat>
    requires x.Valid()
  {
    SortedIds(set c | 0 <= c < |x.step.current| && IsStart(x, c))
  }

  /** The cohorts of linked components, by their least current component. */
  ghost function GroupsOf(x: TickContext): seq<Group>
    requires x.Valid()
  {
    seq(|Starts(x)|, k requires 0 <= k < |Starts(x)| => x.Cohort(Curr(Starts(x)[k])))
  }

  /** The previous components below p without a link. */
  ghost function FreePrev(x: TickContext, p: nat): set<nat>
    requires x.Valid()
  {
    set q | 0 <= q < p && Prev(q) !in x.Graph()
  }

  /** The current components below c without a link. */
  ghost function FreeCurr(x: TickContext, c: nat): set<nat>
    requires x.Valid()
  {
    set d | 0 <= d < c && Curr(d) !in x.Graph()
  }

  /** The current components of the groups, group by group. */
  function Flat(groups: seq<Group>): seq<nat> {
    if groups == [] then [] else Flat(groups[..|groups| - 1]) + SortedIds(groups[|groups| - 1].curr)
  }

  /** Every current component, in the order the tick meets them. */
  ghost function Order(x: TickContext): seq<nat>
    requires x.Valid()
  {
    Flat(GroupsOf(x)) + SortedIds(FreeCurr(x, |x.step.current|))
  }

  /** One node of every cohort, in the order the tick meets them: groups, ended and new components. */
  ghost function Turns(x: TickContext): seq<Node>
    requires x.Valid()
  {
    Tag(Starts(x), true) + Tag(SortedIds(FreePrev(x, |x.step.previous|)), false)
    + Tag(SortedIds(FreeCurr(x, |x.step.current|)), true)
  }

  predicate CurrInRange(x: TickContext, order: seq<nat>) {
    forall k :: 0 <= k < |order| ==> order[k] < |x.step.current|
  }

  ghost predicate AreNodes(x: TickContext, nodes: seq<Node>) {
    forall k :: 0 <= k < |nodes| ==> x.IsNode(nodes[k])
  }

  ghost function ObservationsOf(x: TickContext, order: seq<nat>): seq<Observation>
    requires x.Valid() && CurrInRange(x, order)
  {
    seq(|order|, k requires 0 <= k < |order| => x.ObservationOf(order[k]))
  }

  ghost function TransitionsOf(x: TickContext, nodes: seq<Node>): seq<Transition>
    requires x.Valid() && AreNodes(x, nodes)
  {
    seq(|nodes|, k requires 0 <= k < |nodes| => x.TransitionOf(nodes[k]))
  }

  /** `current_line_by_component` once the components of `order` are entered: later ones replace earlier ones. */
  ghost function Remembered(x: TickContext, lines0: map<Id, Id>, order: seq<nat>): map<Id, Id>
    requires x.Valid() && CurrInRange(x, order)
  {
    if order == [] then lines0 else
    var c := order[|order| - 1];
    Remembered(x, lines0, order[..|order| - 1])[x.step.current[c].componentId := x.NextLine(c)]
  }

  lemma EmitOneMore(x: TickContext, lines0: map<Id, Id>, order: seq<nat>, c: nat)
    requires x.Valid() && CurrInRange(x, order) && c < |x.step.current|
    ensures CurrInRange(x, order + [c])
    ensures ObservationsOf(x, order + [c]) == ObservationsOf(x, order) + [x.ObservationOf(c)]
    ensures Remembered(x, lines0, order + [c])
            == Remembered(x, lines0, order)[x.step.current[c].componentId := x.NextLine(c)]
  {
    hide x.ObservationOf, x.NextLine, x.Valid;
    assert (order + [c])[..|order|] == order;
  }

  lemma {:induction false} EmitMore(x: TickContext, lines0: map<Id, Id>, a: seq<nat>, b: seq<nat>)
    requires x.Valid() && CurrInRange(x, a) && CurrInRange(x, b)
    ensures CurrInRange(x, a + b)
    ensures ObservationsOf(x, a + b) == ObservationsOf(x, a) + ObservationsOf(x, b)
    ensures Remembered(x, lines0, a + b) == Remembered(x, Remembered(x, lines0, a), b)
  {
    hide x.ObservationOf, x.NextLine, x.Valid, ObservationsOf, Remembered;
    NothingEmitted(x, Remembered(x, lines0, a));
    if b == [] {
      assert a + b == a;
    } else {
      var n := |b| - 1;
      EmitMore(x, lines0, a, b[..n]);
      assert a + b == a + b[..n] + [b[n]] && b == b[..n] + [b[n]];
      EmitOneMore(x, lines0, a + b[..n], b[n]);
      EmitOneMore(x, Remembered(x, lines0, a), b[..n], b[n]);
    }
  }

  lemma RecordMore(x: TickContext, a: seq<Node>, b: seq<Node>)
    requires x.Valid() && AreNodes(x, a) && AreNodes(x, b)
    ensures AreNodes(x, a + b) && TransitionsOf(x, a + b) == TransitionsOf(x, a) + TransitionsOf(x, b)
  {
    hide x.TransitionOf, x.Valid;
  }

  lemma RecordOneMore(x: TickContext, nodes: seq<Node>, n: Node)
    requires x.Valid() && AreNodes(x, nodes) && x.IsNode(n)
    ensures AreNodes(x, nodes + [n]) && TransitionsOf(x, nodes + [n]) == TransitionsOf(x, nodes) + [x.TransitionOf(n)]
  {
    hide x.TransitionOf, x.Valid;
  }

  /** Appending to a sorted list: `sorted(s + {m})` when m is above all of s. */
  lemma SortedAppend(s: set<nat>, m: nat)
    requires forall i :: i in s ==> i < m
    ensures SortedIds(s + {m}) == SortedIds(s) + [m]
  {
    hide SortedIds;
    var a, b := SortedIds(s + {m}), SortedIds(s) + [m];
    assert StrictlyIncreasing(b);
    SortedListsAgree(a, b);
  }

  lemma WithoutLast(a: seq<nat>)
    requires StrictlyIncreasing(a) && a != []
    ensures a[|a| - 1] in a && forall i :: i in a ==> i <= a[|a| - 1]
    ensures forall i :: i in a[..|a| - 1] <==> i in a && i < a[|a| - 1]
  {
    assert a == a[..|a| - 1] + [a[|a| - 1]];
  }

  lemma {:induction false} SortedListsAgree(a: seq<nat>, b: seq<nat>)
    requires StrictlyIncreasing(a) && StrictlyIncreasing(b) && forall i :: i in a <==> i in b
    ensures a == b
  {
    assert a != [] ==> a[0] in b;
    assert b != [] ==> b[0] in a;
    if a != [] {
      WithoutLast(a);
      WithoutLast(b);
      assert a[|a| - 1] == b[|b| - 1];
      var c, d := a[..|a| - 1], b[..|b| - 1];
      forall i ensures i in c <==> i in d {
        assert i in a <==> i in b;
      }
      SortedListsAgree(c, d);
      assert a == c + [a[|a| - 1]] && b == d + [b[|b| - 1]];
    }
  }

  lemma TagAppend(indices: seq<nat>, i: nat, current: bool)
    ensures Tag(indices + [i], current) == Tag(indices, current) + [if current then Curr(i) else Prev(i)]
  {
  }

  // ----- the groups

  /** A group of linked components with its kind, as the grouping delivers it. */
  ghost predicate IsGroup(x: TickContext, group: Group, kind: TransitionKind)
    requires x.Valid()
  {
    && group.prev != {} && group.curr != {} && x.InRange(group) && kind == x.KindOf(group)
    && forall c :: c in group.curr ==> x.Cohort(Curr(c)) == group
  }

  lemma GroupIsInhabited(x: TickContext, groups: seq<Group>, k: nat)
    requires x.Valid() && Grouped(x.Graph(), groups, x.Graph().Keys) && k < |groups|
    ensures groups[k].prev != {} && groups[k].curr != {}
  {
    var n := if groups[k].prev != {} then Prev(MinOf(groups[k].prev)) else Curr(MinOf(groups[k].curr));
    assert Has(groups[k], n);
    assert InSomeGroup(groups, n);
    LinkedHasBothSides(x, n);
    GroupIsCohort(x, n, groups[k]);
  }

  lemma GroupMember(x: TickContext, groups: seq<Group>, k: nat, n: Node)
    requires x.Valid() && Grouped(x.Graph(), groups, x.Graph().Keys) && k < |groups| && Has(groups[k], n)
    ensures n in x.Graph() && x.IsNode(n) && x.Cohort(n) == groups[k]
  {
    assert InSomeGroup(groups, n);
    LinkedHasBothSides(x, n);
    GroupIsCohort(x, n, groups[k]);
  }

  /** Every group is the cohort of each of its members. */
  lemma GroupAt(x: TickContext, groups: seq<Group>, k: nat)
    requires x.Valid() && Grouped(x.Graph(), groups, x.Graph().Keys) && k < |groups|
    ensures IsGroup(x, groups[k], x.KindOf(groups[k]))
    ensures forall n :: Has(groups[k], n) ==> n in x.Graph() && x.IsNode(n) && x.Cohort(n) == groups[k]
  {
    hide x.Cohort, x.KindOf, Grouped, x.Graph;
    var group := groups[k];
    GroupIsInhabited(x, groups, k);
    forall n | Has(group, n) ensures n in x.Graph() && x.IsNode(n) && x.Cohort(n) == group {
      GroupMember(x, groups, k, n);
    }
    forall c | c in group.curr ensures x.Cohort(Curr(c)) == group && c < |x.step.current| {
      GroupMember(x, groups, k, Curr(c));
    }
    forall p | p in group.prev ensures p < |x.step.previous| {
      GroupMember(x, groups, k, Prev(p));
    }
  }

  function LeastCurr(groups: seq<Group>): seq<nat>
    requires forall k :: 0 <= k < |groups| ==> groups[k].curr != {}
  {
    seq(|groups|, k requires 0 <= k < |groups| => MinOf(groups[k].curr))
  }

  lemma LeastAreStarts(x: TickContext, groups: seq<Group>, c: nat)
    requires x.Valid() && Grouped(x.Graph(), groups, x.Graph().Keys) && Ascending(groups)
    ensures c in LeastCurr(groups) <==> IsStart(x, c)
  {
    hide x.Cohort, x.KindOf;
    var least := LeastCurr(groups);
    if c in least {
      var k :| 0 <= k < |groups| && least[k] == c;
      GroupAt(x, groups, k);
      assert Has(groups[k], Curr(c));
    }
    if IsStart(x, c) {
      assert InSomeGroup(groups, Curr(c));
      var k :| 0 <= k < |groups| && Has(groups[k], Curr(c));
      GroupAt(x, groups, k);
      assert least[k] == c;
    }
  }

  /** The grouping delivers exactly the cohorts of linked components, in order. */
  lemma GroupsAreThose(x: TickContext, groups: seq<Group>)
    requires x.Valid() && Grouped(x.Graph(), groups, x.Graph().Keys) && Ascending(groups)
    ensures groups == GroupsOf(x) && (forall k :: 0 <= k < |groups| ==> groups[k].curr != {})
    ensures LeastCurr(groups) == Starts(x)
  {
    hide x.Cohort, x.KindOf, SortedIds;
    var least := LeastCurr(groups);
    forall c ensures c in least <==> c in Starts(x) {
      LeastAreStarts(x, groups, c);
    }
    SortedListsAgree(least, Starts(x));
    forall k | 0 <= k < |groups| ensures groups[k] == x.Cohort(Curr(least[k])) {
      GroupAt(x, groups, k);
    }
  }

  // ----- the loop over the groups

  method SuccessorLine(x: TickContext, group: Group, kind: TransitionKind, c: nat) returns (line: Id)
    requires x.Valid() && IsGroup(x, group, kind) && c in group.curr
    ensures c < |x.step.current| && line == x.NextLine(c)
  {
    hide x.Cohort, x.Graph, x.PredecessorLines, SortedIds;
    var predecessors := x.PredecessorLines(group);
    if kind == CONTINUED || kind == REROUTED {
      OnlyPredecessorLine(x, group);
      line := predecessors[0];
    } else {
      line := x.digest(x.stream, x.tick, x.step.current[c].componentId, predecessors);
    }
  }

  lemma SortOne(a: Id)
    ensures Sort<Id>([a], IdOrder) == [a]
  {
    assert [a][1..] == [];
    assert Sort<Id>([], IdOrder) == [];
  }

  lemma OnlyPredecessorLine(x: TickContext, group: Group)
    requires x.Valid() && x.InRange(group) && |group.prev| == 1
    ensures x.PredecessorLines(group) == [x.lines[MinOf(group.prev)]]
  {
    var order := SortedIds(group.prev);
    assert order == [order[0]];
    OnlyMember(group.prev, order[0]);
    assert Pick(x.lines, order) == [x.lines[order[0]]] + Pick(x.lines, []);
    SortOne(x.lines[order[0]]);
  }

  /** The loop over `sorted(c_group)`. */
  method EmitSuccessors(
    x: TickContext, group: Group, kind: TransitionKind, lines0: map<Id, Id>, observations0: seq<Observation>)
    returns (lineByComponent: map<Id, Id>, observations: seq<Observation>, successors: seq<Id>)
    requires x.Valid() && IsGroup(x, group, kind)
    ensures x.InRange(group) && CurrInRange(x, SortedIds(group.curr))
    ensures lineByComponent == Remembered(x, lines0, SortedIds(group.curr))
    ensures observations == observations0 + ObservationsOf(x, SortedIds(group.curr))
    ensures successors == Pick(x.NextLines(), SortedIds(group.curr))
  {
    hide *;
    var order := SortedIds(group.curr);
    SuccessorsInRange(x, group, kind);
    NothingEmitted(x, lines0);
    lineByComponent, observations, successors := lines0, observations0, [];
    assert order[..0] == [];
    var i := 0;
    while i < |order|
      invariant 0 <= i <= |order| && CurrInRange(x, order[..i])
      invariant lineByComponent == Remembered(x, lines0, order[..i])
      invariant observations == observations0 + ObservationsOf(x, order[..i])
      invariant |successors| == i
      invariant forall k :: 0 <= k < i ==> order[k] < |x.step.current| && successors[k] == x.NextLine(order[k])
    {
      var line := SuccessorLine(x, group, kind, order[i]);
      EmitOneMore(x, lines0, order[..i], order[i]);
      ObservedWith(x, order[i], line);
      assert order[..i + 1] == order[..i] + [order[i]];
      lineByComponent := lineByComponent[x.step.current[order[i]].componentId := line];
      successors := successors + [line];
      observations := observations + [x.ObservationWith(order[i], line)];
      i := i + 1;
    }
    assert order[..i] == order;
    SuccessorsAre(x, group, kind, successors);
  }

  lemma SuccessorsInRange(x: TickContext, group: Group, kind: TransitionKind)
    requires x.Valid() && IsGroup(x, group, kind)
    ensures x.InRange(group) && CurrInRange(x, SortedIds(group.curr))
    ensures forall k :: 0 <= k < |SortedIds(group.curr)| ==> SortedIds(group.curr)[k] in group.curr
  {
    hide SortedIds;
  }

  lemma NothingEmitted(x: TickContext, lines0: map<Id, Id>)
    requires x.Valid()
    ensures CurrInRange(x, []) && AreNodes(x, [])
    ensures Remembered(x, lines0, []) == lines0 && ObservationsOf(x, []) == [] && TransitionsOf(x, []) == []
  {
  }

  lemma ObservedWith(x: TickContext, c: nat, line: Id)
    requires x.Valid() && c < |x.step.current| && line == x.NextLine(c)
    ensures x.ObservationOf(c) == x.ObservationWith(c, line)
  {
  }

  lemma SuccessorsAre(x: TickContext, group: Group, kind: TransitionKind, successors: seq<Id>)
    requires x.Valid() && IsGroup(x, group, kind) && |successors| == |SortedIds(group.curr)|
    requires CurrInRange(x, SortedIds(group.curr))
    requires forall k :: 0 <= k < |successors| ==> successors[k] == x.NextLine(SortedIds(group.curr)[k])
    ensures successors == Pick(x.NextLines(), SortedIds(group.curr))
  {
    hide SortedIds, Pick, x.NextLine, x.NextLines, IsGroup, x.KindOf;
    PickIs(x.NextLines(), SortedIds(group.curr), successors);
  }

  /** The transition of a group, as the source assembles it. */
  lemma GroupTransitionIsRight(x: TickContext, n: Node, group: Group, kind: TransitionKind, successors: seq<Id>)
    requires x.Valid() && x.IsNode(n) && x.Cohort(n) == group && IsGroup(x, group, kind)
    requires successors == Pick(x.NextLines(), SortedIds(group.curr))
    ensures x.GroupTransition(group, kind, successors, x.Scores()) == x.TransitionOf(n)
  {
    hide x.Cohort, x.KindOf;
  }

  /** One round of the loop over the groups. */
  method EmitGroup(
    x: TickContext, group: Group, scores: map<(nat, nat), real>, anchorOnly: set<(nat, nat)>,
    lines0: map<Id, Id>, observations0: seq<Observation>, transitions0: seq<Transition>)
    returns (lineByComponent: map<Id, Id>, observations: seq<Observation>, transitions: seq<Transition>)
    requires x.Valid() && scores == x.Scores() && anchorOnly == x.AnchorOnlyEdges()
    requires IsGroup(x, group, x.KindOf(group))
    ensures group.curr != {} && CurrInRange(x, SortedIds(group.curr)) && x.IsNode(Curr(MinOf(group.curr)))
    ensures lineByComponent == Remembered(x, lines0, SortedIds(group.curr))
    ensures observations == observations0 + ObservationsOf(x, SortedIds(group.curr))
    ensures transitions == transitions0 + [x.TransitionOf(Curr(MinOf(group.curr)))]
  {
    hide SortedIds, x.TransitionOf, x.NextLine, x.Cohort, Remembered, ObservationsOf;
    var kind := TransitionType(group, anchorOnly);
    var successors;
    lineByComponent, observations, successors := EmitSuccessors(x, group, kind, lines0, observations0);
    GroupTransitionIsRight(x, Curr(MinOf(group.curr)), group, kind, successors);
    transitions := transitions0 + [x.GroupTransition(group, kind, successors, scores)];
  }

  function CurrIn(groups: seq<Group>): set<nat> {
    if groups == [] then {} else CurrIn(groups[..|groups| - 1]) + groups[|groups| - 1].curr
  }

  function PrevIn(groups: seq<Group>): set<nat> {
    if groups == [] then {} else PrevIn(groups[..|groups| - 1]) + groups[|groups| - 1].prev
  }

  lemma {:induction false} GroupUnions(groups: seq<Group>)
    ensures forall c :: c in CurrIn(groups) <==> InSomeGroup(groups, Curr(c))
    ensures forall p :: p in PrevIn(groups) <==> InSomeGroup(groups, Prev(p))
  {
    if groups != [] {
      var init, last := groups[..|groups| - 1], groups[|groups| - 1];
      GroupUnions(init);
      assert groups == init + [last];
      forall c ensures c in CurrIn(groups) <==> InSomeGroup(groups, Curr(c)) {
        AppendedMember(init, last, Curr(c));
      }
      forall p ensures p in PrevIn(groups) <==> InSomeGroup(groups, Prev(p)) {
        AppendedMember(init, last, Prev(p));
      }
    }
  }

  lemma GroupsStep(groups: seq<Group>, k: nat)
    requires k < |groups|
    ensures CurrIn(groups[..k + 1]) == CurrIn(groups[..k]) + groups[k].curr
    ensures PrevIn(groups[..k + 1]) == PrevIn(groups[..k]) + groups[k].prev
    ensures Flat(groups[..k + 1]) == Flat(groups[..k]) + SortedIds(groups[k].curr)
  {
    hide SortedIds;
    assert groups[..k + 1][..k] == groups[..k];
  }

  /** The loop over the groups. */
  method EmitGroups(x: TickContext)
    returns (lineByComponent: map<Id, Id>, observations: seq<Observation>, transitions: seq<Transition>,
             linkedPrev: set<nat>, linkedCurr: set<nat>)
    requires x.Valid()
    ensures CurrInRange(x, Flat(GroupsOf(x))) && AreNodes(x, Tag(Starts(x), true))
    ensures lineByComponent == Remembered(x, map[], Flat(GroupsOf(x)))
    ensures observations == ObservationsOf(x, Flat(GroupsOf(x)))
    ensures transitions == TransitionsOf(x, Tag(Starts(x), true))
    ensures forall p :: p in linkedPrev <==> Prev(p) in x.Graph()
    ensures forall c :: c in linkedCurr <==> Curr(c) in x.Graph()
  {
    hide *;
    var groups, scores, anchorOnly := BipartiteGroups(x);
    GroupsAreThose(x, groups);
    ghost var starts := Starts(x);
    lineByComponent, observations, transitions, linkedPrev, linkedCurr := map[], [], [], {}, {};
    NoGroupsYet(x, groups);
    var k := 0;
    while k < |groups|
      invariant 0 <= k <= |groups| && |starts| == |groups|
      invariant linkedCurr == CurrIn(groups[..k]) && linkedPrev == PrevIn(groups[..k])
      invariant CurrInRange(x, Flat(groups[..k])) && AreNodes(x, Tag(starts[..k], true))
      invariant lineByComponent == Remembered(x, map[], Flat(groups[..k]))
      invariant observations == ObservationsOf(x, Flat(groups[..k]))
      invariant transitions == TransitionsOf(x, Tag(starts[..k], true))
    {
      GroupAt(x, groups, k);
      GroupsStep(groups, k);
      StartAt(x, groups, k);
      lineByComponent, observations, transitions :=
        EmitGroup(x, groups[k], scores, anchorOnly, lineByComponent, observations, transitions);
      EmitMore(x, map[], Flat(groups[..k]), SortedIds(groups[k].curr));
      RecordOneMore(x, Tag(starts[..k], true), Curr(starts[k]));
      linkedPrev, linkedCurr := linkedPrev + groups[k].prev, linkedCurr + groups[k].curr;
      k := k + 1;
    }
    assert groups[..k] == groups && starts[..k] == starts;
    AllGroupsCovered(x, groups);
  }

  lemma NoGroupsYet(x: TickContext, groups: seq<Group>)
    requires x.Valid() && groups == GroupsOf(x)
    ensures |groups| == |Starts(x)|
    ensures CurrIn(groups[..0]) == {} && PrevIn(groups[..0]) == {} && Flat(groups[..0]) == []
    ensures Tag(Starts(x)[..0], true) == [] && CurrInRange(x, []) && AreNodes(x, [])
    ensures Remembered(x, map[], []) == map[] && ObservationsOf(x, []) == [] && TransitionsOf(x, []) == []
  {
  }

  lemma StartAt(x: TickContext, groups: seq<Group>, k: nat)
    requires x.Valid() && k < |groups| && (forall j :: 0 <= j < |groups| ==> groups[j].curr != {})
    requires LeastCurr(groups) == Starts(x)
    ensures k < |Starts(x)| && Starts(x)[k] == MinOf(groups[k].curr)
    ensures Tag(Starts(x)[..k + 1], true) == Tag(Starts(x)[..k], true) + [Curr(Starts(x)[k])]
  {
    hide SortedIds, IsStart, Starts;
    assert LeastCurr(groups)[k] == MinOf(groups[k].curr);
    assert Starts(x)[..k + 1] == Starts(x)[..k] + [Starts(x)[k]];
  }

  lemma AllGroupsCovered(x: TickContext, groups: seq<Group>)
    requires x.Valid() && Grouped(x.Graph(), groups, x.Graph().Keys)
    ensures forall p :: p in PrevIn(groups) <==> Prev(p) in x.Graph()
    ensures forall c :: c in CurrIn(groups) <==> Curr(c) in x.Graph()
  {
    GroupUnions(groups);
  }

  // ----- the loops over components without a link

  lemma LoneNode(x: TickContext, n: Node)
    requires x.Valid() && x.IsNode(n) && n !in x.Graph()
    ensures n.Prev? ==> x.TransitionOf(n) == x.EndedTransition(n.index)
    ensures n.Curr? ==> x.TransitionOf(n) == x.NewTransition(n.index, x.NextLine(n.index))
                        && x.NextLine(n.index) == FreshLine(x, n.index)
  {
    UnlinkedIsAlone(x, n);
    match n
    case Prev(p) =>
    case Curr(c) =>
      assert SortedIds({}) == [];
      assert Sort<Id>([], IdOrder) == [];
  }

  /** The line minted for an unlinked current component. */
  function FreshLine(x: TickContext, c: nat): Id
    requires c < |x.step.current|
  {
    x.digest(x.stream, x.tick, x.step.current[c].componentId, [])
  }

  ghost predicate EndedInRange(x: TickContext, p: nat)
    requires x.Valid()
  {
    AreNodes(x, Tag(SortedIds(FreePrev(x, p)), false))
  }

  lemma FreePrevStep(x: TickContext, p: nat)
    requires x.Valid() && p < |x.step.previous| && EndedInRange(x, p)
    ensures EndedInRange(x, p + 1)
    ensures TransitionsOf(x, Tag(SortedIds(FreePrev(x, p + 1)), false))
            == TransitionsOf(x, Tag(SortedIds(FreePrev(x, p)), false))
               + (if Prev(p) in x.Graph() then [] else [x.EndedTransition(p)])
  {
    hide x.TransitionOf, SortedIds, x.Graph;
    var before := Tag(SortedIds(FreePrev(x, p)), false);
    if Prev(p) in x.Graph() {
      assert FreePrev(x, p + 1) == FreePrev(x, p);
    } else {
      assert FreePrev(x, p + 1) == FreePrev(x, p) + {p};
      SortedAppend(FreePrev(x, p), p);
      TagAppend(SortedIds(FreePrev(x, p)), p, false);
      RecordOneMore(x, before, Prev(p));
      LoneNode(x, Prev(p));
    }
  }

  /** The loop over the previous components: an ENDED transition for each one without a link. */
  method EmitEnded(x: TickContext, linkedPrev: set<nat>, transitions0: seq<Transition>)
    returns (transitions: seq<Transition>)
    requires x.Valid() && forall p :: p in linkedPrev <==> Prev(p) in x.Graph()
    ensures EndedInRange(x, |x.step.previous|)
    ensures transitions == transitions0 + TransitionsOf(x, Tag(SortedIds(FreePrev(x, |x.step.previous|)), false))
  {
    hide x.TransitionOf, SortedIds, x.Graph, TransitionsOf;
    transitions := transitions0;
    NoneFree(x);
    var p := 0;
    while p < |x.step.previous|
      invariant 0 <= p <= |x.step.previous| && EndedInRange(x, p)
      invariant transitions == transitions0 + TransitionsOf(x, Tag(SortedIds(FreePrev(x, p)), false))
    {
      FreePrevStep(x, p);
      if p !in linkedPrev {
        transitions := transitions + [x.EndedTransition(p)];
      }
      p := p + 1;
    }
  }

  lemma NoneFree(x: TickContext)
    requires x.Valid()
    ensures Tag(SortedIds(FreePrev(x, 0)), false) == [] && EndedInRange(x, 0)
    ensures SortedIds(FreeCurr(x, 0)) == [] && NewInRange(x, 0)
    ensures TransitionsOf(x, Tag(SortedIds(FreePrev(x, 0)), false)) == []
    ensures TransitionsOf(x, Tag(SortedIds(FreeCurr(x, 0)), true)) == []
    ensures ObservationsOf(x, SortedIds(FreeCurr(x, 0))) == []
  {
    assert FreePrev(x, 0) == {} && FreeCurr(x, 0) == {};
  }

  ghost predicate NewInRange(x: TickContext, c: nat)
    requires x.Valid()
  {
    CurrInRange(x, SortedIds(FreeCurr(x, c))) && AreNodes(x, Tag(SortedIds(FreeCurr(x, c)), true))
  }

  lemma FreeCurrStep(x: TickContext, lines0: map<Id, Id>, c: nat)
    requires x.Valid() && c < |x.step.current| && NewInRange(x, c)
    ensures NewInRange(x, c + 1)
    ensures var before, after := SortedIds(FreeCurr(x, c)), SortedIds(FreeCurr(x, c + 1));
            var line := FreshLine(x, c);
            if Curr(c) in x.Graph() then after == before
            else
              && TransitionsOf(x, Tag(after, true)) == TransitionsOf(x, Tag(before, true)) + [x.NewTransition(c, line)]
              && ObservationsOf(x, after) == ObservationsOf(x, before) + [x.ObservationWith(c, line)]
              && Remembered(x, lines0, after)
                 == Remembered(x, lines0, before)[x.step.current[c].componentId := line]
  {
    hide x.TransitionOf, SortedIds, x.Graph, x.NextLine;
    var before := SortedIds(FreeCurr(x, c));
    if Curr(c) in x.Graph() {
      assert FreeCurr(x, c + 1) == FreeCurr(x, c);
    } else {
      assert FreeCurr(x, c + 1) == FreeCurr(x, c) + {c};
      SortedAppend(FreeCurr(x, c), c);
      TagAppend(before, c, true);
      RecordOneMore(x, Tag(before, true), Curr(c));
      EmitOneMore(x, lines0, before, c);
      LoneNode(x, Curr(c));
      ObservedWith(x, c, FreshLine(x, c));
    }
  }

  /** The loop over the current components: a fresh line, an observation and NEW for each one without a link. */
  method EmitNew(
    x: TickContext, linkedCurr: set<nat>, lines0: map<Id, Id>, observations0: seq<Observation>,
    transitions0: seq<Transition>)
    returns (lineByComponent: map<Id, Id>, observations: seq<Observation>, transitions: seq<Transition>)
    requires x.Valid() && forall c :: c in linkedCurr <==> Curr(c) in x.Graph()
    ensures NewInRange(x, |x.step.current|)
    ensures lineByComponent == Remembered(x, lines0, SortedIds(FreeCurr(x, |x.step.current|)))
    ensures observations == observations0 + ObservationsOf(x, SortedIds(FreeCurr(x, |x.step.current|)))
    ensures transitions == transitions0 + TransitionsOf(x, Tag(SortedIds(FreeCurr(x, |x.step.current|)), true))
  {
    hide x.TransitionOf, SortedIds, x.Graph, x.NextLine, TransitionsOf, ObservationsOf, Remembered, FreeCurr, Tag;
    lineByComponent, observations, transitions := lines0, observations0, transitions0;
    NoneFree(x);
    NothingEmitted(x, lines0);
    var c := 0;
    while c < |x.step.current|
      invariant 0 <= c <= |x.step.current| && NewInRange(x, c)
      invariant lineByComponent == Remembered(x, lines0, SortedIds(FreeCurr(x, c)))
      invariant observations == observations0 + ObservationsOf(x, SortedIds(FreeCurr(x, c)))
      invariant transitions == transitions0 + TransitionsOf(x, Tag(SortedIds(FreeCurr(x, c)), true))
    {
      FreeCurrStep(x, lines0, c);
      if c !in linkedCurr {
        var line := FreshLine(x, c);
        lineByComponent := lineByComponent[x.step.current[c].componentId := line];
        observations := observations + [x.ObservationWith(c, line)];
        transitions := transitions + [x.NewTransition(c, line)];
      }
      c := c + 1;
    }
  }

  /** One tick, whatever the identifiers of its components are. */
  method AdvanceTick(x: TickContext)
    returns (lineByComponent: map<Id, Id>, observations: seq<Observation>, transitions: seq<Transition>)
    requires x.Valid()
    ensures CurrInRange(x, Order(x)) && AreNodes(x, Turns(x))
    ensures lineByComponent == Remembered(x, map[], Order(x))
    ensures observations == ObservationsOf(x, Order(x)) && transitions == TransitionsOf(x, Turns(x))
  {
    hide *;
    var linkedPrev, linkedCurr;
    lineByComponent, observations, transitions, linkedPrev, linkedCurr := EmitGroups(x);
    transitions := EmitEnded(x, linkedPrev, transitions);
    lineByComponent, observations, transitions := EmitNew(x, linkedCurr, lineByComponent, observations, transitions);
    TickIsWhole(x);
  }

  lemma TickIsWhole(x: TickContext)
    requires x.Valid() && CurrInRange(x, Flat(GroupsOf(x))) && AreNodes(x, Tag(Starts(x), true))
    requires EndedInRange(x, |x.step.previous|) && NewInRange(x, |x.step.current|)
    ensures var free := SortedIds(FreeCurr(x, |x.step.current|));
            var ended := Tag(SortedIds(FreePrev(x, |x.step.previous|)), false);
            && CurrInRange(x, Order(x)) && AreNodes(x, Turns(x))
            && Remembered(x, map[], Order(x)) == Remembered(x, Remembered(x, map[], Flat(GroupsOf(x))), free)
            && ObservationsOf(x, Order(x)) == ObservationsOf(x, Flat(GroupsOf(x))) + ObservationsOf(x, free)
            && TransitionsOf(x, Turns(x))
               == TransitionsOf(x, Tag(Starts(x), true)) + TransitionsOf(x, ended) + TransitionsOf(x, Tag(free, true))
  {
    hide SortedIds, x.TransitionOf, x.Graph, x.NextLine, TransitionsOf, ObservationsOf, Remembered, GroupsOf, Starts;
    var free := SortedIds(FreeCurr(x, |x.step.current|));
    var ended := Tag(SortedIds(FreePrev(x, |x.step.previous|)), false);
    EmitMore(x, map[], Flat(GroupsOf(x)), free);
    RecordMore(x, Tag(Starts(x), true), ended);
    RecordMore(x, Tag(Starts(x), true) + ended, Tag(free, true));
  }
}
