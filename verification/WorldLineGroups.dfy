/** Overlap scores between two ticks and the grouping of linked components (attack_world_lines.py). */
module WorldLineGroups {
  import opened Ordering
  import opened Reachability
  import opened StageScoring
  import opened AttackProgression

  datatype Policy = Policy(minOverlap: real, entityWeight: real, relationWeight: real, anchorBonus: real)

  ghost predicate ValidPolicy(p: Policy) {
    && 0.0 <= p.minOverlap <= 1.0 && 0.0 <= p.entityWeight <= 1.0
    && 0.0 <= p.relationWeight <= 1.0 && 0.0 <= p.anchorBonus <= 1.0
    && p.entityWeight + p.relationWeight > 0.0
  }

  function Jaccard(left: set<Id>, right: set<Id>): real {
    if left + right == {} then 0.0 else (|left * right| as real) / (|left + right| as real)
  }

  function WeightedMean(policy: Policy, entityScore: real, relationScore: real): real
    requires policy.entityWeight + policy.relationWeight > 0.0
  {
    (policy.entityWeight * entityScore + policy.relationWeight * relationScore)
    / (policy.entityWeight + policy.relationWeight)
  }

  /** `component_overlap_score`; the weights are positive together (line 104 raises otherwise). */
  function OverlapScore(p: ComponentReport, c: ComponentReport, policy: Policy): real
    requires policy.entityWeight + policy.relationWeight > 0.0
  {
    Min(1.0, WeightedMean(policy, Jaccard(p.entityIds, c.entityIds), Jaccard(p.activeRelationIds, c.activeRelationIds)))
  }

  /** Two consecutive ticks: the components of each and the protected anchors by component identifier. */
  datatype Step = Step(
    previous: seq<ComponentReport>, current: seq<ComponentReport>,
    previousAnchors: map<Id, set<Id>>, currentAnchors: map<Id, set<Id>>, policy: Policy)
  {
    function SharedAnchors(p: nat, c: nat): set<Id>
      requires p < |previous| && c < |current|
    {
      Neighbours(previousAnchors, previous[p].componentId) * Neighbours(currentAnchors, current[c].componentId)
    }

    function BaseScore(p: nat, c: nat): real
      requires p < |previous| && c < |current| && policy.entityWeight + policy.relationWeight > 0.0
    {
      OverlapScore(previous[p], current[c], policy)
    }

    function Score(p: nat, c: nat): real
      requires p < |previous| && c < |current| && policy.entityWeight + policy.relationWeight > 0.0
    {
      Min(1.0, BaseScore(p, c) + (if SharedAnchors(p, c) != {} then policy.anchorBonus else 0.0))
    }

    predicate Linked(p: nat, c: nat)
      requires policy.entityWeight + policy.relationWeight > 0.0
    {
      p < |previous| && c < |current| && Score(p, c) >= policy.minOverlap
    }

    predicate AnchorOnly(p: nat, c: nat)
      requires policy.entityWeight + policy.relationWeight > 0.0
    {
      Linked(p, c) && BaseScore(p, c) < policy.minOverlap && SharedAnchors(p, c) != {}
    }

    ghost function Edges(): set<(nat, nat)>
      requires policy.entityWeight + policy.relationWeight > 0.0
    {
      set p: nat, c: nat | 0 <= p < |previous| && 0 <= c < |current| && Linked(p, c) :: (p, c)
    }
  }

  // ----- the bipartite link graph

  /** A component of the current or of the previous tick; current ones sort first ("c" < "p"). */
  datatype Node = Curr(index: nat) | Prev(index: nat)

  predicate Joined(edges: set<(nat, nat)>, n: Node, m: Node) {
    match n
    case Prev(p) => m.Curr? && (p, m.index) in edges
    case Curr(c) => m.Prev? && (m.index, c) in edges
  }

  ghost predicate IsLinkGraph(adj: map<Node, set<Node>>, edges: set<(nat, nat)>) {
    && (forall n, m :: m in Neighbours(adj, n) <==> Joined(edges, n, m))
    && (forall n :: n in adj ==> adj[n] != {})
  }

  function Nodes(edges: set<(nat, nat)>): set<Node> {
    (set e | e in edges :: Curr(e.1)) + (set e | e in edges :: Prev(e.0))
  }

  ghost function LinkGraph(edges: set<(nat, nat)>): map<Node, set<Node>> {
    map n | n in Nodes(edges) :: set m | m in Nodes(edges) && Joined(edges, n, m)
  }

  lemma LinkGraphMeaning(edges: set<(nat, nat)>)
    ensures IsLinkGraph(LinkGraph(edges), edges) && Symmetric(LinkGraph(edges))
  {
    var adj := LinkGraph(edges);
    forall n, m ensures m in Neighbours(adj, n) <==> Joined(edges, n, m) {
      if Joined(edges, n, m) {
        assert n in Nodes(edges) && m in Nodes(edges);
      }
    }
    forall n | n in adj ensures adj[n] != {} {
      var e :| e in edges && (n == Curr(e.1) || n == Prev(e.0));
      var m := if n.Curr? then Prev(e.0) else Curr(e.1);
      assert Joined(edges, n, m) && m in adj[n];
    }
    forall n, m | m in Neighbours(adj, n) ensures n in Neighbours(adj, m) {
      assert Joined(edges, m, n);
    }
  }

  lemma SameNeighboursSameGraph(a: map<Node, set<Node>>, b: map<Node, set<Node>>)
    requires forall n :: Neighbours(a, n) == Neighbours(b, n)
    requires forall n :: n in a ==> a[n] != {}
    requires forall n :: n in b ==> b[n] != {}
    ensures a == b
  {
    forall n ensures n in a <==> n in b {
      assert Neighbours(a, n) == Neighbours(b, n);
    }
    forall n | n in a ensures a[n] == b[n] {
      assert Neighbours(a, n) == Neighbours(b, n);
    }
  }

  lemma LinkGraphIsUnique(adj: map<Node, set<Node>>, edges: set<(nat, nat)>)
    requires IsLinkGraph(adj, edges)
    ensures adj == LinkGraph(edges)
  {
    LinkGraphMeaning(edges);
    var spec := LinkGraph(edges);
    forall n ensures Neighbours(adj, n) == Neighbours(spec, n) {
      forall m ensures m in Neighbours(adj, n) <==> m in Neighbours(spec, n) {
        assert m in Neighbours(adj, n) <==> Joined(edges, n, m);
      }
    }
    SameNeighboursSameGraph(adj, spec);
  }

  /** `adjacency[p_node].add(c_node); adjacency[c_node].add(p_node)`. */
  function Join(adj: map<Node, set<Node>>, p: nat, c: nat): map<Node, set<Node>> {
    var there := adj[Prev(p) := Neighbours(adj, Prev(p)) + {Curr(c)}];
    there[Curr(c) := Neighbours(there, Curr(c)) + {Prev(p)}]
  }

  lemma JoinAddsEdge(adj: map<Node, set<Node>>, edges: set<(nat, nat)>, p: nat, c: nat)
    requires IsLinkGraph(adj, edges)
    ensures IsLinkGraph(Join(adj, p, c), edges + {(p, c)})
  {
    var there := adj[Prev(p) := Neighbours(adj, Prev(p)) + {Curr(c)}];
    var both := Join(adj, p, c);
    forall n, m ensures m in Neighbours(both, n) <==> Joined(edges + {(p, c)}, n, m) {
      assert m in Neighbours(both, n) <==>
             m in Neighbours(adj, n) || (n == Prev(p) && m == Curr(c)) || (n == Curr(c) && m == Prev(p));
    }
  }

  predicate Before(e: (nat, nat), p: nat, c: nat) {
    e.0 < p || (e.0 == p && e.1 < c)
  }

  /** Exactly the linked pairs met before (p, c), each with its score, and the anchor-only ones among them. */
  ghost predicate LinksBefore(
    step: Step, scores: map<(nat, nat), real>, anchorOnly: set<(nat, nat)>, p: nat, c: nat)
    requires step.policy.entityWeight + step.policy.relationWeight > 0.0
  {
    && (forall e :: e in scores <==> Before(e, p, c) && step.Linked(e.0, e.1))
    && (forall e :: e in scores && step.Linked(e.0, e.1) ==> scores[e] == step.Score(e.0, e.1))
    && (forall e :: e in anchorOnly <==> Before(e, p, c) && step.AnchorOnly(e.0, e.1))
  }

  lemma NextPair(step: Step, scores: map<(nat, nat), real>, anchorOnly: set<(nat, nat)>, p: nat, c: nat)
    requires step.policy.entityWeight + step.policy.relationWeight > 0.0
    requires p < |step.previous| && c < |step.current| && LinksBefore(step, scores, anchorOnly, p, c)
    ensures !step.Linked(p, c) ==> LinksBefore(step, scores, anchorOnly, p, c + 1)
    ensures step.Linked(p, c) ==>
              LinksBefore(step, scores[(p, c) := step.Score(p, c)],
                          if step.AnchorOnly(p, c) then anchorOnly + {(p, c)} else anchorOnly, p, c + 1)
  {
    forall e ensures Before(e, p, c + 1) <==> Before(e, p, c) || e == (p, c) {
    }
  }

  /** The inner of the two scoring loops of `_bipartite_groups`. */
  method LinkRow(step: Step, p: nat, scores0: map<(nat, nat), real>, anchorOnly0: set<(nat, nat)>,
                 adj0: map<Node, set<Node>>)
    returns (scores: map<(nat, nat), real>, anchorOnly: set<(nat, nat)>, adj: map<Node, set<Node>>)
    requires step.policy.entityWeight + step.policy.relationWeight > 0.0 && p < |step.previous|
    requires LinksBefore(step, scores0, anchorOnly0, p, 0) && IsLinkGraph(adj0, scores0.Keys)
    ensures LinksBefore(step, scores, anchorOnly, p + 1, 0) && IsLinkGraph(adj, scores.Keys)
  {
    hide IsLinkGraph, LinksBefore, Join, step.Score;
    scores, anchorOnly, adj := scores0, anchorOnly0, adj0;
    var c := 0;
    while c < |step.current|
      invariant 0 <= c <= |step.current|
      invariant IsLinkGraph(adj, scores.Keys)
      invariant LinksBefore(step, scores, anchorOnly, p, c)
    {
      NextPair(step, scores, anchorOnly, p, c);
      if step.Linked(p, c) {
        JoinAddsEdge(adj, scores.Keys, p, c);
        assert scores[(p, c) := step.Score(p, c)].Keys == scores.Keys + {(p, c)};
        scores := scores[(p, c) := step.Score(p, c)];
        anchorOnly := if step.AnchorOnly(p, c) then anchorOnly + {(p, c)} else anchorOnly;
        adj := Join(adj, p, c);
      }
      c := c + 1;
    }
    RowComplete(step, scores, anchorOnly, p);
  }

  lemma RowComplete(step: Step, scores: map<(nat, nat), real>, anchorOnly: set<(nat, nat)>, p: nat)
    requires step.policy.entityWeight + step.policy.relationWeight > 0.0 && p < |step.previous|
    requires LinksBefore(step, scores, anchorOnly, p, |step.current|)
    ensures LinksBefore(step, scores, anchorOnly, p + 1, 0)
  {
  }

  /** The scoring part of `_bipartite_groups`. */
  method LinkEdges(step: Step)
    returns (scores: map<(nat, nat), real>, anchorOnly: set<(nat, nat)>, adj: map<Node, set<Node>>)
    requires step.policy.entityWeight + step.policy.relationWeight > 0.0
    ensures scores.Keys == step.Edges() && adj == LinkGraph(step.Edges())
    ensures LinksBefore(step, scores, anchorOnly, |step.previous|, 0)
  {
    scores, anchorOnly, adj := map[], {}, map[];
    var p := 0;
    while p < |step.previous|
      invariant 0 <= p <= |step.previous|
      invariant LinksBefore(step, scores, anchorOnly, p, 0)
      invariant IsLinkGraph(adj, scores.Keys)
    {
      scores, anchorOnly, adj := LinkRow(step, p, scores, anchorOnly, adj);
      p := p + 1;
    }
    assert scores.Keys == step.Edges();
    LinkGraphIsUnique(adj, scores.Keys);
  }

  // ----- grouping by breadth-first search

  datatype Group = Group(prev: set<nat>, curr: set<nat>)

  predicate Has(group: Group, n: Node) {
    match n
    case Prev(p) => p in group.prev
    case Curr(c) => c in group.curr
  }

  function Include(group: Group, n: Node): Group {
    match n
    case Prev(p) => group.(prev := group.prev + {p})
    case Curr(c) => group.(curr := group.curr + {c})
  }

  function CurrIndices(nodes: set<Node>): set<nat> {
    set n | n in nodes && n.Curr? :: n.index
  }

  function PrevIndices(nodes: set<Node>): set<nat> {
    set n | n in nodes && n.Prev? :: n.index
  }

  function Tag(indices: seq<nat>, current: bool): seq<Node> {
    seq(|indices|, i requires 0 <= i < |indices| => if current then Curr(indices[i]) else Prev(indices[i]))
  }

  /** The order of nodes: ("c", index) before ("p", index), then by index. */
  predicate NodeBefore(a: Node, b: Node) {
    (a.Curr? && b.Prev?) || (a.Curr? == b.Curr? && a.index < b.index)
  }

  /** `sorted(nodes)`: current nodes by index, then previous nodes by index. */
  method SortNodes(nodes: set<Node>) returns (r: seq<Node>)
    ensures forall n :: n in r <==> n in nodes
    ensures forall i, j :: 0 <= i < j < |r| ==> NodeBefore(r[i], r[j])
  {
    hide SortedIds, Tag, CurrIndices, PrevIndices, NodeBefore;
    var cs, ps := SortedIds(CurrIndices(nodes)), SortedIds(PrevIndices(nodes));
    r := Tag(cs, true) + Tag(ps, false);
    SortedNodesAscend(cs, ps);
    forall n ensures n in r <==> n in nodes {
      SortedNodesHold(nodes, cs, ps, n);
    }
  }

  lemma SortedNodesAscend(cs: seq<nat>, ps: seq<nat>)
    requires StrictlyIncreasing(cs) && StrictlyIncreasing(ps)
    ensures var r := Tag(cs, true) + Tag(ps, false);
            forall i, j :: 0 <= i < j < |r| ==> NodeBefore(r[i], r[j])
  {
  }

  lemma SortedNodesHold(nodes: set<Node>, cs: seq<nat>, ps: seq<nat>, n: Node)
    requires forall i :: i in cs <==> i in CurrIndices(nodes)
    requires forall i :: i in ps <==> i in PrevIndices(nodes)
    ensures n in Tag(cs, true) + Tag(ps, false) <==> n in nodes
  {
    var a, b := Tag(cs, true), Tag(ps, false);
    if n in nodes {
      if n.Curr? {
        assert n.index in cs;
        var i :| 0 <= i < |cs| && cs[i] == n.index;
        assert a[i] == n;
      } else {
        assert n.index in ps;
        var i :| 0 <= i < |ps| && ps[i] == n.index;
        assert b[i] == n;
      }
    }
    if n in a {
      var i :| 0 <= i < |a| && a[i] == n;
      assert cs[i] in cs;
    }
    if n in b {
      var i :| 0 <= i < |b| && b[i] == n;
      assert ps[i] in ps;
    }
  }

  /** The group is exactly the set of nodes reachable from n. */
  ghost predicate IsCohort(adj: map<Node, set<Node>>, n: Node, group: Group) {
    forall m :: Has(group, m) <==> Reaches(adj, n, m)
  }

  lemma NotSeen(adj: map<Node, set<Node>>, seen: set<Node>, start: Node, n: Node)
    requires Symmetric(adj) && Closed(adj, seen) && start !in seen && Reaches(adj, start, n)
    ensures n !in seen
  {
    ReachesBack(adj, start, n);
    if n in seen {
      ClosedHoldsReachable(adj, seen, n, start);
    }
  }

  /** The queue loop of `_bipartite_groups`, which marks a node when it leaves the queue. */
  method CollectGroup(adj: map<Node, set<Node>>, start: Node, seen0: set<Node>) returns (group: Group, seen: set<Node>)
    requires Symmetric(adj) && Closed(adj, seen0) && start in adj && start !in seen0 && seen0 <= adj.Keys
    ensures IsCohort(adj, start, group)
    ensures Closed(adj, seen) && start in seen && seen <= adj.Keys
    ensures forall n :: n in seen <==> n in seen0 || Has(group, n)
  {
    group, seen := Group({}, {}), seen0;
    var queue := [start];
    ReachesItself(adj, start);
    while queue != []
      invariant seen0 <= seen <= adj.Keys
      invariant forall n :: n in seen <==> n in seen0 || Has(group, n)
      invariant forall n :: Has(group, n) ==> Reaches(adj, start, n)
      invariant forall n :: n in queue ==> Reaches(adj, start, n) && n in adj
      invariant start in seen || start in queue
      invariant forall n, m :: Has(group, n) && m in Neighbours(adj, n) ==> m in seen || m in queue
      decreases adj.Keys - seen, |queue|
    {
      var node := queue[0];
      ghost var was := queue;
      queue := queue[1..];
      assert was == [node] + queue;
      if node !in seen {
        ghost var before := seen;
        seen := seen + {node};
        assert adj.Keys - seen < adj.Keys - before;
        group := Include(group, node);
        queue := Enqueue(adj, start, node, seen, queue);
      }
    }
    assert Closed(adj, seen);
    CohortComplete(adj, start, seen0, seen, group);
  }

  method Enqueue(adj: map<Node, set<Node>>, ghost start: Node, node: Node, seen: set<Node>, queue0: seq<Node>)
    returns (queue: seq<Node>)
    requires Symmetric(adj) && Reaches(adj, start, node)
    requires forall n :: n in queue0 ==> Reaches(adj, start, n) && n in adj
    ensures forall n :: n in queue ==> Reaches(adj, start, n) && n in adj
    ensures forall n :: n in queue0 ==> n in queue
    ensures forall m :: m in Neighbours(adj, node) ==> m in seen || m in queue
  {
    queue := queue0;
    var neighbours := SortNodes(Neighbours(adj, node));
    var i := 0;
    while i < |neighbours|
      invariant 0 <= i <= |neighbours|
      invariant forall n :: n in queue ==> Reaches(adj, start, n) && n in adj
      invariant forall n :: n in queue0 ==> n in queue
      invariant forall k :: 0 <= k < i ==> neighbours[k] in seen || neighbours[k] in queue
    {
      var neighbour := neighbours[i];
      assert neighbour in neighbours;
      ReachesNext(adj, start, node, neighbour);
      assert node in Neighbours(adj, neighbour);
      if neighbour !in seen {
        queue := queue + [neighbour];
      }
      i := i + 1;
    }
    forall m | m in Neighbours(adj, node) ensures m in seen || m in queue {
      assert m in neighbours;
    }
  }

  lemma CohortComplete(adj: map<Node, set<Node>>, start: Node, seen0: set<Node>, seen: set<Node>, group: Group)
    requires Symmetric(adj) && Closed(adj, seen0) && Closed(adj, seen) && start !in seen0 && start in seen
    requires forall n :: n in seen <==> n in seen0 || Has(group, n)
    requires forall n :: Has(group, n) ==> Reaches(adj, start, n)
    ensures IsCohort(adj, start, group)
  {
    forall n | Reaches(adj, start, n) ensures Has(group, n) {
      NotSeen(adj, seen0, start, n);
      ClosedHoldsReachable(adj, seen, start, n);
    }
  }

  // ----- the groups together

  ghost predicate InSomeGroup(groups: seq<Group>, n: Node) {
    exists k :: 0 <= k < |groups| && Has(groups[k], n)
  }

  ghost predicate GroupsDisjoint(groups: seq<Group>) {
    forall i, j, n :: 0 <= i < j < |groups| && Has(groups[i], n) ==> !Has(groups[j], n)
  }

  /** Each group is the whole cohort of each of its members. */
  ghost predicate GroupsAreCohorts(adj: map<Node, set<Node>>, groups: seq<Group>) {
    forall k, n :: 0 <= k < |groups| && Has(groups[k], n) ==> IsCohort(adj, n, groups[k])
  }

  /** Disjoint whole cohorts that together hold exactly the nodes in `seen`. */
  ghost predicate Grouped(adj: map<Node, set<Node>>, groups: seq<Group>, seen: set<Node>) {
    && GroupsDisjoint(groups)
    && GroupsAreCohorts(adj, groups)
    && (forall k :: 0 <= k < |groups| ==> groups[k] != Group({}, {}))
    && forall n :: n in seen <==> InSomeGroup(groups, n)
  }

  /** The groups in the order of their least current components; each has one. */
  ghost predicate Ascending(groups: seq<Group>) {
    && (forall k :: 0 <= k < |groups| ==> groups[k].curr != {})
    && (forall i, j :: 0 <= i < j < |groups| ==> MinOf(groups[i].curr) < MinOf(groups[j].curr))
  }

  /** Links join a previous component to a current one. */
  ghost predicate Bipartite(adj: map<Node, set<Node>>) {
    forall n :: n in adj && n.Prev? ==> exists m :: m in adj[n] && m.Curr?
  }

  lemma LinkGraphIsBipartite(adj: map<Node, set<Node>>, edges: set<(nat, nat)>)
    requires IsLinkGraph(adj, edges)
    ensures Bipartite(adj)
  {
    forall n | n in adj && n.Prev? ensures exists m :: m in adj[n] && m.Curr? {
      var m :| m in adj[n];
      assert m in Neighbours(adj, n) && Joined(edges, n, m);
    }
  }

  /** `_bipartite_groups` once the links are known. */
  method GroupLinks(adj: map<Node, set<Node>>) returns (groups: seq<Group>)
    requires Symmetric(adj) && Bipartite(adj)
    ensures Grouped(adj, groups, adj.Keys) && Ascending(groups)
  {
    hide Grouped, Ascending, Bipartite, IsCohort;
    groups := [];
    var seen: set<Node> := {};
    var starts := SortNodes(adj.Keys);
    NoGroups(adj);
    var i := 0;
    while i < |starts|
      invariant 0 <= i <= |starts|
      invariant Closed(adj, seen) && seen <= adj.Keys
      invariant Grouped(adj, groups, seen) && Ascending(groups)
      invariant forall k :: 0 <= k < i ==> starts[k] in seen
      invariant forall k :: 0 <= k < |groups| ==> StartsBefore(groups[k], starts, i)
    {
      var start := starts[i];
      assert start in starts;
      if start !in seen {
        var group, after := CollectGroup(adj, start, seen);
        StartIsLeast(adj, starts, i, seen, group, after);
        AppendGroup(adj, groups, group, start, seen, after);
        AppendAscending(groups, group, starts, i);
        groups, seen := groups + [group], after;
      }
      StartsEarlier(groups, starts, i);
      i := i + 1;
    }
    assert seen == adj.Keys by {
      forall n | n in adj.Keys ensures n in seen {
        assert n in starts;
      }
    }
  }

  /** The group has a current member below every current node from position i on. */
  ghost predicate StartsBefore(group: Group, starts: seq<Node>, i: nat) {
    group.curr != {} && forall k :: i <= k < |starts| && starts[k].Curr? ==> MinOf(group.curr) < starts[k].index
  }

  lemma NoGroups(adj: map<Node, set<Node>>)
    ensures Grouped(adj, [], {}) && Ascending([])
  {
  }

  lemma StartsEarlier(groups: seq<Group>, starts: seq<Node>, i: nat)
    ensures forall k :: 0 <= k < |groups| && StartsBefore(groups[k], starts, i) ==>
                          StartsBefore(groups[k], starts, i + 1)
  {
  }

  /** A start that was not seen is a current node, and the least one of its group. */
  lemma StartIsLeast(adj: map<Node, set<Node>>, starts: seq<Node>, i: nat, seen: set<Node>, group: Group,
                     after: set<Node>)
    requires Symmetric(adj) && Bipartite(adj) && Closed(adj, seen) && i < |starts| && starts[i] !in seen
    requires forall n :: n in starts <==> n in adj
    requires forall j, k :: 0 <= j < k < |starts| ==> NodeBefore(starts[j], starts[k])
    requires forall k :: 0 <= k < i ==> starts[k] in seen
    requires IsCohort(adj, starts[i], group) && after <= adj.Keys
    requires forall n :: n in after <==> n in seen || Has(group, n)
    ensures starts[i].Curr? && group.curr != {} && MinOf(group.curr) == starts[i].index
    ensures StartsBefore(group, starts, i + 1)
  {
    var start := starts[i];
    assert start in starts;
    forall m | m in Neighbours(adj, start) ensures m == start || NodeBefore(start, m) {
      assert start in Neighbours(adj, m);
      assert m in starts;
      var k :| 0 <= k < |starts| && starts[k] == m;
    }
    ReachesItself(adj, start);
    assert Has(group, start);
    forall c | c in group.curr ensures start.index <= c {
      var n := Curr(c);
      assert Has(group, n);
      NotSeen(adj, seen, start, n);
      assert n in after;
      var k :| 0 <= k < |starts| && starts[k] == n;
      assert k >= i;
    }
  }

  lemma AppendAscending(groups: seq<Group>, group: Group, starts: seq<Node>, i: nat)
    requires Ascending(groups) && group.curr != {} && i < |starts| && starts[i].Curr?
    requires MinOf(group.curr) == starts[i].index && StartsBefore(group, starts, i + 1)
    requires forall k :: 0 <= k < |groups| ==> StartsBefore(groups[k], starts, i)
    ensures Ascending(groups + [group])
  {
  }

  lemma AppendGroup(adj: map<Node, set<Node>>, groups: seq<Group>, group: Group, start: Node, seen: set<Node>,
                    after: set<Node>)
    requires Symmetric(adj) && Closed(adj, seen) && start !in seen
    requires Grouped(adj, groups, seen) && IsCohort(adj, start, group)
    requires forall n :: n in after <==> n in seen || Has(group, n)
    ensures Grouped(adj, groups + [group], after)
  {
    var all := groups + [group];
    ReachesItself(adj, start);
    assert Has(group, start);
    forall n ensures n in after <==> InSomeGroup(all, n) {
      AppendedMember(groups, group, n);
    }
    forall i, j, n | 0 <= i < j < |all| && Has(all[i], n) ensures !Has(all[j], n) {
      if j == |groups| {
        assert InSomeGroup(groups, n);
        if Reaches(adj, start, n) {
          NotSeen(adj, seen, start, n);
        }
      }
    }
    forall k, n | 0 <= k < |all| && Has(all[k], n) ensures IsCohort(adj, n, all[k]) {
      if k == |groups| {
        MemberHasSameCohort(adj, start, n, group);
      }
    }
  }

  lemma AppendedMember(groups: seq<Group>, group: Group, n: Node)
    ensures InSomeGroup(groups + [group], n) <==> InSomeGroup(groups, n) || Has(group, n)
  {
    var all := groups + [group];
    if Has(group, n) {
      assert Has(all[|groups|], n);
    }
    if InSomeGroup(groups, n) {
      var k :| 0 <= k < |groups| && Has(groups[k], n);
      assert Has(all[k], n);
    }
    if InSomeGroup(all, n) {
      var k :| 0 <= k < |all| && Has(all[k], n);
      assert k < |groups| ==> Has(groups[k], n);
    }
  }

  lemma MemberHasSameCohort(adj: map<Node, set<Node>>, start: Node, n: Node, group: Group)
    requires Symmetric(adj) && IsCohort(adj, start, group) && Reaches(adj, start, n)
    ensures IsCohort(adj, n, group)
  {
    ReachesBack(adj, start, n);
    forall m ensures Has(group, m) <==> Reaches(adj, n, m) {
      if Reaches(adj, n, m) {
        ReachesTransitively(adj, start, n, m);
      }
      if Has(group, m) {
        ReachesTransitively(adj, n, start, m);
      }
    }
  }
}
