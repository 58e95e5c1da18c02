/** One tick of the world-line timeline: cohorts, line identifiers, transitions (attack_world_lines.py). */
module WorldLineTick {
  import opened Ordering
  import opened Reachability
  import opened StateGraph
  import opened StageScoring
  import opened CutPoints
  import opened AttackProgression
  import opened WorldLineGroups

  datatype TransitionKind = NEW | CONTINUED | REROUTED | SPLIT | MERGED | RECONFIGURED | ENDED

  datatype Observation = Observation(
    tick: nat, line: Id, componentId: Id, entityIds: set<Id>, relationIds: set<Id>, anchors: set<Id>,
    stage: Option<Stage>, risk: real)

  /** The sorted lists of component identifiers are kept as multisets. */
  datatype Transition = Transition(
    fromTick: Option<nat>, toTick: nat, kind: TransitionKind, predecessorLines: seq<Id>, successorLines: seq<Id>,
    predecessors: multiset<Id>, successors: multiset<Id>, sharedAnchors: set<Id>, maxOverlap: real)

  /** SHA-256 of stream, tick, component identifier and sorted predecessor lines. */
  type LineDigest = (Id, nat, Id, seq<Id>) -> Id

  /** Within a stream, lines minted at different ticks are different. */
  ghost predicate TicksDiffer(digest: LineDigest) {
    forall s, t, c, ps, t', c', ps' :: t != t' ==> digest(s, t, c, ps) != digest(s, t', c', ps')
  }

  /** At one tick, components with different identifiers are given different lines. */
  ghost predicate TellsApart(digest: LineDigest, components: seq<ComponentReport>) {
    forall s, t, i, j, ps, ps' ::
      0 <= i < |components| && 0 <= j < |components| && components[i].componentId != components[j].componentId
      ==> digest(s, t, components[i].componentId, ps) != digest(s, t, components[j].componentId, ps')
  }

  // ----- shapes of a group

  /** `_transition_type`, for a group with members on both sides. */
  function TransitionType(group: Group, anchorOnly: set<(nat, nat)>): TransitionKind
    requires group.prev != {} && group.curr != {}
  {
    if |group.prev| == 1 && |group.curr| == 1 then
      if (MinOf(group.prev), MinOf(group.curr)) in anchorOnly then REROUTED else CONTINUED
    else if |group.prev| == 1 && |group.curr| > 1 then SPLIT
    else if |group.prev| > 1 && |group.curr| == 1 then MERGED
    else RECONFIGURED
  }

  predicate OneToOne(group: Group) {
    |group.prev| == 1 && |group.curr| == 1
  }

  function Pairs(ps: seq<nat>, cs: seq<nat>): seq<(nat, nat)> {
    if ps == [] then [] else Row(ps[0], cs) + Pairs(ps[1..], cs)
  }

  function Row(p: nat, cs: seq<nat>): seq<(nat, nat)> {
    if cs == [] then [] else [(p, cs[0])] + Row(p, cs[1..])
  }

  function PairsOf(group: Group): seq<(nat, nat)> {
    Pairs(SortedIds(group.prev), SortedIds(group.curr))
  }

  lemma {:induction false} RowMeaning(p: nat, cs: seq<nat>, e: (nat, nat))
    ensures e in Row(p, cs) <==> e.0 == p && e.1 in cs
  {
    if cs != [] {
      RowMeaning(p, cs[1..], e);
    }
  }

  lemma {:induction false} PairsMeaning(ps: seq<nat>, cs: seq<nat>, e: (nat, nat))
    ensures e in Pairs(ps, cs) <==> e.0 in ps && e.1 in cs
  {
    if ps != [] {
      RowMeaning(ps[0], cs, e);
      PairsMeaning(ps[1..], cs, e);
    }
  }

  /** `max((scores[e] for e in pairs if e in scores), default=0.0)`; scores are never negative. */
  function BestOverlap(scores: map<(nat, nat), real>, pairs: seq<(nat, nat)>): real {
    if pairs == [] then 0.0 else
    var rest := BestOverlap(scores, pairs[1..]);
    if pairs[0] in scores then Max(scores[pairs[0]], rest) else rest
  }

  /** `[list[index] for index in indices]`. */
  function Pick(list: seq<Id>, indices: seq<nat>): seq<Id>
    requires forall k :: 0 <= k < |indices| ==> indices[k] < |list|
  {
    if indices == [] then [] else [list[indices[0]]] + Pick(list, indices[1..])
  }

  lemma {:induction false} PickAt(list: seq<Id>, indices: seq<nat>)
    requires forall k :: 0 <= k < |indices| ==> indices[k] < |list|
    ensures |Pick(list, indices)| == |indices|
    ensures forall k :: 0 <= k < |indices| ==> Pick(list, indices)[k] == list[indices[k]]
  {
    if indices != [] {
      PickAt(list, indices[1..]);
    }
  }

  lemma {:induction false} PickIs(list: seq<Id>, indices: seq<nat>, s: seq<Id>)
    requires |s| == |indices|
    requires forall k :: 0 <= k < |indices| ==> indices[k] < |list| && s[k] == list[indices[k]]
    ensures s == Pick(list, indices)
  {
    PickAt(list, indices);
  }

  function IdsIn(components: seq<ComponentReport>): seq<Id> {
    seq(|components|, i requires 0 <= i < |components| => components[i].componentId)
  }

  /** `sorted(components[index].component_id for index in indices)`. */
  function IdsOf(components: seq<ComponentReport>, indices: set<nat>): multiset<Id>
    requires forall i :: i in indices ==> i < |components|
  {
    multiset(Pick(IdsIn(components), SortedIds(indices)))
  }

  lemma IdsOfMeaning(components: seq<ComponentReport>, indices: set<nat>)
    requires forall i :: i in indices ==> i < |components|
    ensures |IdsOf(components, indices)| == |indices|
    ensures forall id :: id in IdsOf(components, indices)
                         <==> exists i :: i in indices && components[i].componentId == id
  {
    hide SortedIds, Pick;
    var order := SortedIds(indices);
    var ids := Pick(IdsIn(components), order);
    PickAt(IdsIn(components), order);
    forall id ensures id in ids <==> exists i :: i in indices && components[i].componentId == id {
      if id in ids {
        var k :| 0 <= k < |ids| && ids[k] == id;
        assert order[k] in indices;
      }
      if i :| i in indices && components[i].componentId == id {
        assert i in order;
        var k :| 0 <= k < |order| && order[k] == i;
        assert ids[k] == id;
      }
    }
  }

  lemma IdsOfOne(components: seq<ComponentReport>, i: nat)
    requires i < |components|
    ensures IdsOf(components, {i}) == multiset{components[i].componentId}
  {
    var order := SortedIds({i});
    assert order[0] in {i} && order == [i];
    assert order[1..] == [] && Pick(IdsIn(components), []) == [];
  }

  // ----- what one tick must produce

  /** A tick in context; `lines` are the world lines of the previous components. */
  datatype TickContext = TickContext(step: Step, tick: nat, stream: Id, digest: LineDigest, lines: seq<Id>)
  {
    ghost predicate Valid() {
      && step.policy.entityWeight + step.policy.relationWeight > 0.0
      && |lines| == |step.previous|
    }

    /** On either side the components have different identifiers. */
    ghost predicate Identified() {
      DistinctIds(step.previous) && DistinctIds(step.current)
    }

    ghost predicate IsNode(n: Node) {
      match n
      case Prev(p) => p < |step.previous|
      case Curr(c) => c < |step.current|
    }

    ghost function Graph(): map<Node, set<Node>>
      requires Valid()
    {
      LinkGraph(step.Edges())
    }

    /** All components of both ticks connected to n by links, n included. */
    ghost function Cohort(n: Node): Group
      requires Valid()
    {
      Group(set p | 0 <= p < |step.previous| && Reaches(Graph(), n, Prev(p)),
            set c | 0 <= c < |step.current| && Reaches(Graph(), n, Curr(c)))
    }

    predicate InRange(group: Group) {
      && (forall p :: p in group.prev ==> p < |step.previous|)
      && (forall c :: c in group.curr ==> c < |step.current|)
    }

    /** `sorted(previous_line_by_component[...] for index in p_group)`. */
    function PredecessorLines(group: Group): seq<Id>
      requires InRange(group) && |lines| == |step.previous|
    {
      Sort<Id>(Pick(lines, SortedIds(group.prev)), IdOrder)
    }

    function MintedLine(group: Group, c: nat): Id
      requires InRange(group) && |lines| == |step.previous| && c < |step.current|
    {
      digest(stream, tick, step.current[c].componentId, PredecessorLines(group))
    }

    /** The line of current component c: carried in a one-to-one cohort, minted otherwise. */
    ghost function NextLine(c: nat): Id
      requires Valid() && c < |step.current|
    {
      var cohort := Cohort(Curr(c));
      if OneToOne(cohort) then lines[MinOf(cohort.prev)] else MintedLine(cohort, c)
    }

    ghost function NextLines(): (lines: seq<Id>)
      requires Valid()
      ensures |lines| == |step.current| && forall c :: 0 <= c < |lines| ==> lines[c] == NextLine(c)
    {
      seq(|step.current|, c requires 0 <= c < |step.current| => NextLine(c))
    }

    function ObservationWith(c: nat, line: Id): Observation
      requires c < |step.current|
    {
      var component := step.current[c];
      Observation(tick, line, component.componentId, component.entityIds, component.activeRelationIds,
                  Neighbours(step.currentAnchors, component.componentId), component.currentStage, component.risk)
    }

    ghost function ObservationOf(c: nat): Observation
      requires Valid() && c < |step.current|
    {
      ObservationWith(c, NextLine(c))
    }

    ghost function AnchorOnlyEdges(): set<(nat, nat)>
      requires Valid()
    {
      set e | e in step.Edges() && step.AnchorOnly(e.0, e.1)
    }

    ghost function Scores(): map<(nat, nat), real>
      requires Valid()
    {
      map e | e in step.Edges() :: step.Score(e.0, e.1)
    }

    ghost function KindOf(group: Group): TransitionKind
      requires Valid()
    {
      if group.prev == {} then NEW else if group.curr == {} then ENDED
      else TransitionType(group, AnchorOnlyEdges())
    }

    function SharedIn(pairs: seq<(nat, nat)>): set<Id>
      requires forall e :: e in pairs ==> e.0 < |step.previous| && e.1 < |step.current|
    {
      if pairs == [] then {} else step.SharedAnchors(pairs[0].0, pairs[0].1) + SharedIn(pairs[1..])
    }

    function From(): Option<nat> {
      if tick == 0 then None else Some(tick - 1)
    }

    /** The transition of a group of linked components. */
    function GroupTransition(
      group: Group, kind: TransitionKind, successorLines: seq<Id>, scores: map<(nat, nat), real>): Transition
      requires InRange(group) && |lines| == |step.previous|
    {
      assert forall e :: e in PairsOf(group) ==> e.0 < |step.previous| && e.1 < |step.current| by {
        PairsInRange(group);
      }
      Transition(From(), tick, kind, PredecessorLines(group), Sort<Id>(successorLines, IdOrder),
                 IdsOf(step.previous, group.prev), IdsOf(step.current, group.curr),
                 SharedIn(PairsOf(group)), BestOverlap(scores, PairsOf(group)))
    }

    function EndedTransition(p: nat): Transition
      requires p < |step.previous| && |lines| == |step.previous|
    {
      Transition(From(), tick, ENDED, [lines[p]], [], multiset{step.previous[p].componentId}, multiset{}, {}, 0.0)
    }

    function NewTransition(c: nat, line: Id): Transition
      requires c < |step.current|
    {
      var id := step.current[c].componentId;
      Transition(From(), tick, NEW, [], [line], multiset{}, multiset{id}, Neighbours(step.currentAnchors, id), 0.0)
    }

    lemma PairsInRange(group: Group)
      requires InRange(group)
      ensures forall e :: e in PairsOf(group) ==> e.0 < |step.previous| && e.1 < |step.current|
    {
      forall e | e in PairsOf(group) ensures e.0 < |step.previous| && e.1 < |step.current| {
        PairsMeaning(SortedIds(group.prev), SortedIds(group.curr), e);
      }
    }

    lemma SelfInCohort(n: Node)
      requires Valid() && IsNode(n)
      ensures Has(Cohort(n), n)
    {
      ReachesItself(Graph(), n);
    }

    lemma CohortInRange(n: Node)
      requires Valid()
      ensures InRange(Cohort(n))
    {
    }

    /** The one transition that accounts for node n and everything linked to it. */
    ghost function TransitionOf(n: Node): Transition
      requires Valid() && IsNode(n)
    {
      var cohort := Cohort(n);
      if cohort.prev == {} then
        assert n.Curr? by { SelfInCohort(n); }
        NewTransition(n.index, NextLine(n.index))
      else if cohort.curr == {} then
        assert n.Prev? by { SelfInCohort(n); }
        EndedTransition(n.index)
      else
        GroupTransition(cohort, KindOf(cohort), Pick(NextLines(), SortedIds(cohort.curr)), Scores())
    }
  }

  // ----- cohorts

  lemma GraphIsSymmetric(x: TickContext)
    requires x.Valid()
    ensures Symmetric(x.Graph()) && IsLinkGraph(x.Graph(), x.step.Edges())
  {
    LinkGraphMeaning(x.step.Edges());
  }

  lemma LinkedNodesInRange(x: TickContext, n: Node, m: Node)
    requires x.Valid() && x.IsNode(n) && Reaches(x.Graph(), n, m)
    ensures x.IsNode(m)
  {
    GraphIsSymmetric(x);
    hide x.Valid, x.Graph;
    ClosedHoldsReachable(x.Graph(), NodesInRange(x), n, m);
  }

  function NodesInRange(x: TickContext): (nodes: set<Node>)
    ensures forall n :: n in nodes <==> x.IsNode(n)
  {
    (set p | 0 <= p < |x.step.previous| :: Prev(p)) + (set c | 0 <= c < |x.step.current| :: Curr(c))
  }

  lemma CohortMeaning(x: TickContext, n: Node)
    requires x.Valid() && x.IsNode(n)
    ensures IsCohort(x.Graph(), n, x.Cohort(n))
  {
    forall m ensures Has(x.Cohort(n), m) <==> Reaches(x.Graph(), n, m) {
      if Reaches(x.Graph(), n, m) {
        LinkedNodesInRange(x, n, m);
      }
    }
  }

  lemma SameMembersSameGroup(a: Group, b: Group)
    requires forall m :: Has(a, m) <==> Has(b, m)
    ensures a == b
  {
    forall i ensures i in a.prev <==> i in b.prev {
      assert Has(a, Prev(i)) <==> Has(b, Prev(i));
    }
    forall i ensures i in a.curr <==> i in b.curr {
      assert Has(a, Curr(i)) <==> Has(b, Curr(i));
    }
  }

  lemma GroupIsCohort(x: TickContext, n: Node, group: Group)
    requires x.Valid() && x.IsNode(n) && IsCohort(x.Graph(), n, group)
    ensures group == x.Cohort(n)
  {
    CohortMeaning(x, n);
    SameMembersSameGroup(group, x.Cohort(n));
  }

  /** Every member of a cohort has that same cohort. */
  lemma CohortOfMember(x: TickContext, n: Node, m: Node)
    requires x.Valid() && x.IsNode(n) && Has(x.Cohort(n), m)
    ensures x.IsNode(m) && x.Cohort(m) == x.Cohort(n)
  {
    GraphIsSymmetric(x);
    CohortMeaning(x, n);
    LinkedNodesInRange(x, n, m);
    MemberHasSameCohort(x.Graph(), n, m, x.Cohort(n));
    GroupIsCohort(x, m, x.Cohort(n));
  }

  /** A component without links is alone in its cohort. */
  lemma UnlinkedIsAlone(x: TickContext, n: Node)
    requires x.Valid() && x.IsNode(n) && n !in x.Graph()
    ensures x.Cohort(n) == Include(Group({}, {}), n)
  {
    assert Closed(x.Graph(), {n});
    CohortMeaning(x, n);
    forall m ensures Has(x.Cohort(n), m) <==> m == n {
      if Has(x.Cohort(n), m) {
        ClosedHoldsReachable(x.Graph(), {n}, n, m);
      }
      ReachesItself(x.Graph(), n);
    }
    SameMembersSameGroup(x.Cohort(n), Include(Group({}, {}), n));
  }

  /** A linked component has partners on the other side. */
  lemma LinkedHasBothSides(x: TickContext, n: Node)
    requires x.Valid() && n in x.Graph()
    ensures x.IsNode(n) && x.Cohort(n).prev != {} && x.Cohort(n).curr != {}
  {
    GraphIsSymmetric(x);
    var m :| m in x.Graph()[n];
    assert m in Neighbours(x.Graph(), n) && Joined(x.step.Edges(), n, m);
    x.SelfInCohort(n);
    ReachesItself(x.Graph(), n);
    ReachesNext(x.Graph(), n, n, m);
    CohortMeaning(x, n);
    assert Has(x.Cohort(n), m);
  }

  // ----- the tick as the source computes it

  /** `_bipartite_groups`: the connected components of the thresholded link graph, by least current component. */
  method BipartiteGroups(x: TickContext)
    returns (groups: seq<Group>, scores: map<(nat, nat), real>, anchorOnly: set<(nat, nat)>)
    requires x.Valid()
    ensures Grouped(x.Graph(), groups, x.Graph().Keys) && Ascending(groups)
    ensures scores == x.Scores() && anchorOnly == x.AnchorOnlyEdges()
  {
    hide Grouped, Ascending, Bipartite;
    var adj;
    scores, anchorOnly, adj := LinkEdges(x.step);
    GraphIsSymmetric(x);
    LinkGraphIsBipartite(adj, x.step.Edges());
    LinksAreAll(x, scores, anchorOnly);
    groups := GroupLinks(adj);
  }

  lemma LinksAreAll(x: TickContext, scores: map<(nat, nat), real>, anchorOnly: set<(nat, nat)>)
    requires x.Valid() && LinksBefore(x.step, scores, anchorOnly, |x.step.previous|, 0)
    ensures scores == x.Scores() && anchorOnly == x.AnchorOnlyEdges()
  {
    forall e ensures e in scores <==> e in x.step.Edges() {
    }
    forall e ensures e in anchorOnly <==> e in x.AnchorOnlyEdges() {
    }
  }
}
