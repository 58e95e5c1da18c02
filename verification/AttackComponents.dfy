/** Active relations, attack components and component subgraphs (attack_progression.py). */
module AttackComponents {
  import opened Ordering
  import opened StateGraph
  import opened Reachability

  // ----- active relations and their adjacency

  predicate Active(r: Relation) {
    (r.status.OBSERVED? || r.status.INFERRED?) && r.confidence >= 0.5
  }

  function ActiveRelations(g: Graph): seq<Relation> {
    Filter(g.relations, Active)
  }

  /** `adjacency[x].add(y)` on a `defaultdict(set)`. */
  function AddEdge(adj: map<Id, set<Id>>, x: Id, y: Id): map<Id, set<Id>> {
    adj[x := Neighbours(adj, x) + {y}]
  }

  function UndirectedLinks(rs: seq<Relation>): map<Id, set<Id>> {
    if rs == [] then map[] else
    var r := rs[|rs| - 1];
    AddEdge(AddEdge(UndirectedLinks(rs[..|rs| - 1]), r.source, r.target), r.target, r.source)
  }

  function DirectedLinks(rs: seq<Relation>): map<Id, set<Id>> {
    if rs == [] then map[] else
    var r := rs[|rs| - 1];
    AddEdge(DirectedLinks(rs[..|rs| - 1]), r.source, r.target)
  }

  predicate Joins(r: Relation, x: Id, y: Id) {
    (r.source == x && r.target == y) || (r.source == y && r.target == x)
  }

  predicate Touches(r: Relation, x: Id) {
    r.source == x || r.target == x
  }

  lemma {:induction false} UndirectedLinksMeaning(rs: seq<Relation>)
    ensures forall x, y :: y in Neighbours(UndirectedLinks(rs), x) <==> exists r :: r in rs && Joins(r, x, y)
    ensures forall x :: x in UndirectedLinks(rs) <==> exists r :: r in rs && Touches(r, x)
    ensures Symmetric(UndirectedLinks(rs))
  {
    if rs != [] {
      var init, last := rs[..|rs| - 1], rs[|rs| - 1];
      assert rs == init + [last];
      UndirectedLinksMeaning(init);
      forall x, y ensures y in Neighbours(UndirectedLinks(rs), x) <==> exists r :: r in rs && Joins(r, x, y) {
        assert y in Neighbours(UndirectedLinks(rs), x)
               <==> y in Neighbours(UndirectedLinks(init), x) || Joins(last, x, y);
        if exists r :: r in init && Joins(r, x, y) {
          var r :| r in init && Joins(r, x, y);
          assert r in rs;
        }
      }
      forall x ensures x in UndirectedLinks(rs) <==> exists r :: r in rs && Touches(r, x) {
        assert x in UndirectedLinks(rs) <==> x in UndirectedLinks(init) || Touches(last, x);
        if exists r :: r in init && Touches(r, x) {
          var r :| r in init && Touches(r, x);
          assert r in rs;
        }
      }
    }
    forall x, y | y in Neighbours(UndirectedLinks(rs), x) ensures x in Neighbours(UndirectedLinks(rs), y) {
      var r :| r in rs && Joins(r, x, y);
      assert Joins(r, y, x);
    }
  }

  lemma {:induction false} DirectedLinksMeaning(rs: seq<Relation>)
    ensures forall x, y ::
              y in Neighbours(DirectedLinks(rs), x) <==> exists r :: r in rs && r.source == x && r.target == y
  {
    if rs != [] {
      var init, last := rs[..|rs| - 1], rs[|rs| - 1];
      assert rs == init + [last];
      DirectedLinksMeaning(init);
      forall x, y
        ensures y in Neighbours(DirectedLinks(rs), x) <==> exists r :: r in rs && r.source == x && r.target == y
      {
        assert y in Neighbours(DirectedLinks(rs), x) <==>
               y in Neighbours(DirectedLinks(init), x) || (last.source == x && last.target == y);
        if exists r :: r in init && r.source == x && r.target == y {
          var r :| r in init && r.source == x && r.target == y;
          assert r in rs;
        }
      }
    }
  }

  function ActiveLinks(g: Graph): map<Id, set<Id>> {
    UndirectedLinks(ActiveRelations(g))
  }

  /** The endpoints of active relations. */
  function ActiveEntities(g: Graph): set<Id> {
    ActiveLinks(g).Keys
  }

  lemma ActiveLinksMeaning(g: Graph)
    ensures Symmetric(ActiveLinks(g))
    ensures forall x, y ::
              y in Neighbours(ActiveLinks(g), x) <==> exists r :: r in g.relations && Active(r) && Joins(r, x, y)
    ensures forall x :: x in ActiveEntities(g) <==> exists r :: r in g.relations && Active(r) && Touches(r, x)
  {
    FilterKeeps(g.relations, Active);
    var rs := ActiveRelations(g);
    UndirectedLinksMeaning(rs);
    forall x, y
      ensures y in Neighbours(ActiveLinks(g), x) <==> exists r :: r in g.relations && Active(r) && Joins(r, x, y)
    {
      if exists r :: r in g.relations && Active(r) && Joins(r, x, y) {
        var r :| r in g.relations && Active(r) && Joins(r, x, y);
        assert r in rs;
      }
    }
    forall x ensures x in ActiveEntities(g) <==> exists r :: r in g.relations && Active(r) && Touches(r, x) {
      if exists r :: r in g.relations && Active(r) && Touches(r, x) {
        var r :| r in g.relations && Active(r) && Touches(r, x);
        assert r in rs;
      }
    }
  }

  // ----- breadth-first search

  /**
   The queue loop of `_active_components` and of `_reachable_count`: whatever order the neighbours
   come in, it ends with exactly the reachable nodes. `universe` bounds the nodes for termination.
   */
  method BreadthFirst(adj: map<Id, set<Id>>, start: Id, ghost universe: set<Id>) returns (seen: set<Id>)
    requires start in universe && Closed(adj, universe)
    ensures forall y :: y in seen <==> Reaches(adj, start, y)
    ensures seen <= universe
  {
    seen := {start};
    var queue := [start];
    ReachesItself(adj, start);
    while queue != []
      invariant start in seen && seen <= universe
      invariant forall y :: y in seen ==> Reaches(adj, start, y)
      invariant forall y :: y in queue ==> y in seen
      invariant forall x, y :: x in seen && x !in queue && y in Neighbours(adj, x) ==> y in seen
      decreases universe - seen, |queue|
    {
      var current := queue[0];
      ghost var was := queue;
      ghost var before := seen;
      queue := queue[1..];
      assert was == [current] + queue;
      var neighbours := SortedIds(Neighbours(adj, current));
      var i := 0;
      while i < |neighbours|
        invariant 0 <= i <= |neighbours|
        invariant start in seen && before <= seen <= universe
        invariant forall y :: y in seen ==> Reaches(adj, start, y)
        invariant forall y :: y in queue ==> y in seen
        invariant forall y :: y in before && y !in queue ==> y == current || y !in was
        invariant forall y :: y in seen && y !in before ==> y in queue
        invariant forall k :: 0 <= k < i ==> neighbours[k] in seen
        invariant seen == before ==> queue == was[1..]
      {
        var neighbour := neighbours[i];
        if neighbour !in seen {
          ReachesNext(adj, start, current, neighbour);
          seen := seen + {neighbour};
          queue := queue + [neighbour];
        }
        i := i + 1;
      }
      forall x, y | x in seen && x !in queue && y in Neighbours(adj, x) ensures y in seen {
        if x == current {
          assert y in neighbours;
        }
      }
      if seen != before {
        assert universe - seen < universe - before;
      }
    }
    SearchIsExact(adj, start, seen);
  }

  // ----- attack components

  /** The connectivity class of x. */
  ghost function Class(adj: map<Id, set<Id>>, x: Id): set<Id> {
    ReachableWithin(adj, adj.Keys, x)
  }

  /** The classes that are left, in the order the discovery loop meets them. */
  ghost function ComponentsFrom(adj: map<Id, set<Id>>, remaining: set<Id>): seq<set<Id>>
    requires remaining <= adj.Keys
    decreases remaining
  {
    if remaining == {} then [] else
    var first := Class(adj, MinOf(remaining));
    assert MinOf(remaining) in first by { ReachesItself(adj, MinOf(remaining)); }
    [first] + ComponentsFrom(adj, remaining - first)
  }

  ghost function ActiveComponents(g: Graph): seq<set<Id>> {
    ComponentsFrom(ActiveLinks(g), ActiveEntities(g))
  }

  /** `_active_components`. The final sort is a no-op: see ComponentsPartitionEntities. */
  method ComputeActiveComponents(g: Graph) returns (components: seq<set<Id>>)
    ensures components == ActiveComponents(g)
  {
    var adjacency := UndirectedLinks(ActiveRelations(g));
    ActiveLinksMeaning(g);
    var remaining := adjacency.Keys;
    components := [];
    while remaining != {}
      invariant remaining <= adjacency.Keys
      invariant components + ComponentsFrom(adjacency, remaining) == ActiveComponents(g)
      decreases remaining
    {
      var start := MinOf(remaining);
      assert Closed(adjacency, adjacency.Keys);
      var seen := BreadthFirst(adjacency, start, adjacency.Keys);
      assert seen == Class(adjacency, start);
      ReachesItself(adjacency, start);
      assert components + ComponentsFrom(adjacency, remaining)
             == components + [seen] + ComponentsFrom(adjacency, remaining - seen);
      components := components + [seen];
      remaining := remaining - seen;
    }
  }

  /** Every part is non-empty. */
  ghost predicate Inhabited(parts: seq<set<Id>>) {
    forall i :: 0 <= i < |parts| ==> parts[i] != {}
  }

  ghost predicate PairwiseDisjoint(parts: seq<set<Id>>) {
    forall i, j :: 0 <= i < j < |parts| ==> parts[i] !! parts[j]
  }

  /** The parts together hold exactly the universe. */
  ghost predicate Covers(parts: seq<set<Id>>, universe: set<Id>) {
    && (forall i :: 0 <= i < |parts| ==> parts[i] <= universe)
    && (forall x :: x in universe ==> InSomePart(parts, x))
  }

  ghost predicate InSomePart(parts: seq<set<Id>>, x: Id) {
    exists i :: 0 <= i < |parts| && x in parts[i]
  }

  /** Each part is one whole class of mutual reachability. */
  ghost predicate AreClasses(adj: map<Id, set<Id>>, parts: seq<set<Id>>) {
    forall i :: 0 <= i < |parts| ==> IsClass(adj, parts[i])
  }

  ghost predicate IsClass(adj: map<Id, set<Id>>, part: set<Id>) {
    forall x, y :: x in part && y in adj ==> (y in part <==> Reaches(adj, x, y))
  }

  /** The order of `components.sort(key=lambda row: tuple(sorted(row)))` on disjoint parts. */
  ghost predicate Ascending(parts: seq<set<Id>>)
    requires Inhabited(parts)
  {
    forall i, j :: 0 <= i < j < |parts| ==> MinOf(parts[i]) < MinOf(parts[j])
  }

  ghost predicate IsPartition(adj: map<Id, set<Id>>, universe: set<Id>, parts: seq<set<Id>>) {
    Inhabited(parts) && PairwiseDisjoint(parts) && Covers(parts, universe) && AreClasses(adj, parts) && Ascending(parts)
  }

  lemma ClassIsClosed(adj: map<Id, set<Id>>, x: Id)
    requires Symmetric(adj) && x in adj
    ensures Closed(adj, Class(adj, x)) && x in Class(adj, x)
    ensures IsClass(adj, Class(adj, x))
  {
    ReachesItself(adj, x);
    forall y, z | y in Class(adj, x) && z in Neighbours(adj, y) ensures z in Class(adj, x) {
      ReachesNext(adj, x, y, z);
      assert y in Neighbours(adj, z);
    }
    forall y, z | y in Class(adj, x) && z in adj ensures z in Class(adj, x) <==> Reaches(adj, y, z) {
      MeetingClassesCoincide(adj, adj.Keys, x, y);
      assert z in Class(adj, x) <==> z in ReachableWithin(adj, adj.Keys, y);
    }
  }

  lemma {:induction false} ComponentsFromPartition(adj: map<Id, set<Id>>, remaining: set<Id>)
    requires Symmetric(adj) && remaining <= adj.Keys && Closed(adj, remaining)
    ensures IsPartition(adj, remaining, ComponentsFrom(adj, remaining))
    decreases remaining
  {
    if remaining != {} {
      var start := MinOf(remaining);
      var first := Class(adj, start);
      ClassIsClosed(adj, start);
      forall y | y in first ensures y in remaining {
        ClosedHoldsReachable(adj, remaining, start, y);
      }
      var rest := remaining - first;
      forall x, y | x in rest && y in Neighbours(adj, x) ensures y in rest {
        assert x in Neighbours(adj, y);
      }
      ComponentsFromPartition(adj, rest);
      PrependClass(adj, remaining, first, ComponentsFrom(adj, rest));
    }
  }

  lemma PrependClass(adj: map<Id, set<Id>>, remaining: set<Id>, first: set<Id>, tail: seq<set<Id>>)
    requires first != {} && first <= remaining && IsClass(adj, first) && MinOf(remaining) in first
    requires IsPartition(adj, remaining - first, tail)
    ensures IsPartition(adj, remaining, [first] + tail)
  {
    var parts := [first] + tail;
    forall i | 0 <= i < |parts| ensures parts[i] != {} && IsClass(adj, parts[i]) {
      assert i > 0 ==> parts[i] == tail[i - 1];
    }
    assert Inhabited(parts) && AreClasses(adj, parts);
    PrependCovers(remaining, first, tail);
    PrependAscends(remaining, first, tail);
  }

  lemma PrependCovers(remaining: set<Id>, first: set<Id>, tail: seq<set<Id>>)
    requires first <= remaining && Covers(tail, remaining - first) && PairwiseDisjoint(tail)
    ensures Covers([first] + tail, remaining) && PairwiseDisjoint([first] + tail)
  {
    var parts := [first] + tail;
    assert forall i :: 0 < i < |parts| ==> parts[i] == tail[i - 1];
    forall x | x in remaining ensures InSomePart(parts, x) {
      if x in first {
        assert x in parts[0];
      } else {
        assert InSomePart(tail, x);
        var k :| 0 <= k < |tail| && x in tail[k];
        assert x in parts[k + 1];
      }
    }
  }

  lemma PrependAscends(remaining: set<Id>, first: set<Id>, tail: seq<set<Id>>)
    requires remaining != {} && first <= remaining && MinOf(remaining) in first
    requires Inhabited(tail) && Ascending(tail)
    requires forall i :: 0 <= i < |tail| ==> tail[i] <= remaining - first
    ensures Inhabited([first] + tail) && Ascending([first] + tail)
  {
    var parts := [first] + tail;
    assert forall i :: 0 < i < |parts| ==> parts[i] == tail[i - 1];
    forall i, j | 0 <= i < j < |parts| ensures MinOf(parts[i]) < MinOf(parts[j]) {
      if i == 0 {
        assert MinOf(parts[j]) in tail[j - 1];
      }
    }
  }

  /**
   The components are exactly the connectivity classes of the active relations: they partition the
   endpoints of active relations, and two entities share one iff a path of active relations joins them.
   */
  lemma ComponentsPartitionEntities(g: Graph)
    ensures IsPartition(ActiveLinks(g), ActiveEntities(g), ActiveComponents(g))
  {
    ActiveLinksMeaning(g);
    ComponentsFromPartition(ActiveLinks(g), ActiveEntities(g));
  }

  /** No active relation crosses two components, and each touches exactly one. */
  lemma ActiveRelationInOneComponent(g: Graph, r: Relation)
    requires r in g.relations && Active(r)
    ensures InSomePart(ActiveComponents(g), r.source)
    ensures forall i :: 0 <= i < |ActiveComponents(g)| ==>
                          (r.source in ActiveComponents(g)[i] <==> r.target in ActiveComponents(g)[i])
  {
    var adj, parts := ActiveLinks(g), ActiveComponents(g);
    ComponentsPartitionEntities(g);
    assert AreClasses(adj, parts) && Covers(parts, adj.Keys);
    EdgeStaysInside(g, r, parts);
  }

  lemma EdgeStaysInside(g: Graph, r: Relation, parts: seq<set<Id>>)
    requires r in g.relations && Active(r) && AreClasses(ActiveLinks(g), parts)
    ensures r.source in ActiveEntities(g) && r.target in ActiveEntities(g)
    ensures forall i :: 0 <= i < |parts| ==> (r.source in parts[i] <==> r.target in parts[i])
  {
    ActiveLinksMeaning(g);
    var adj := ActiveLinks(g);
    assert Joins(r, r.source, r.target) && Joins(r, r.target, r.source);
    assert r.target in Neighbours(adj, r.source) && r.source in Neighbours(adj, r.target);
    ReachesItself(adj, r.source);
    ReachesNext(adj, r.source, r.source, r.target);
    ReachesBack(adj, r.source, r.target);
    forall i | 0 <= i < |parts| ensures r.source in parts[i] <==> r.target in parts[i] {
      EdgeStaysInClass(adj, parts[i], r.source, r.target);
    }
  }

  lemma EdgeStaysInClass(adj: map<Id, set<Id>>, part: set<Id>, x: Id, y: Id)
    requires IsClass(adj, part) && x in adj && y in adj && Reaches(adj, x, y) && Reaches(adj, y, x)
    ensures x in part <==> y in part
  {
  }

  // ----- component subgraphs

  function EntityInside(ids: set<Id>): Entity -> bool {
    (e: Entity) => e.id in ids
  }

  function RelationInside(ids: set<Id>): Relation -> bool {
    (r: Relation) => r.source in ids && r.target in ids
  }

  function ComponentSubgraph(g: Graph, ids: set<Id>): Graph {
    Graph(g.id, Filter(g.entities, EntityInside(ids)), Filter(g.relations, RelationInside(ids)))
  }

  /** Building a component's subgraph never trips the graph validator. */
  lemma SubgraphIsValid(g: Graph, ids: set<Id>)
    requires Valid(g)
    ensures Valid(ComponentSubgraph(g, ids))
    ensures EntityIds(ComponentSubgraph(g, ids)) == EntityIds(g) * ids
  {
    var sub := ComponentSubgraph(g, ids);
    FilterKeeps(g.entities, EntityInside(ids));
    FilterKeeps(g.relations, RelationInside(ids));
    var distinctEntities := (a: Entity, b: Entity) => a.id != b.id;
    var distinctRelations := (a: Relation, b: Relation) => a.id != b.id;
    assert Pairwise(g.entities, distinctEntities) && Pairwise(g.relations, distinctRelations);
    FilterKeepsPairwise(g.entities, EntityInside(ids), distinctEntities);
    FilterKeepsPairwise(g.relations, RelationInside(ids), distinctRelations);
    forall i, j | 0 <= i < j < |sub.entities| ensures sub.entities[i].id != sub.entities[j].id {
      assert distinctEntities(sub.entities[i], sub.entities[j]);
    }
    forall i, j | 0 <= i < j < |sub.relations| ensures sub.relations[i].id != sub.relations[j].id {
      assert distinctRelations(sub.relations[i], sub.relations[j]);
    }
    forall r | r in sub.relations ensures r.source in EntityIds(sub) && r.target in EntityIds(sub) {
      assert r.source in EntityIds(g) && r.target in EntityIds(g);
      var a :| a in g.entities && a.id == r.source;
      var b :| b in g.entities && b.id == r.target;
      assert a in sub.entities && b in sub.entities;
    }
  }

  lemma ActiveInSubgraph(g: Graph, ids: set<Id>)
    ensures forall r :: r in ActiveRelations(ComponentSubgraph(g, ids)) <==>
                          r in g.relations && Active(r) && r.source in ids && r.target in ids
  {
    FilterKeeps(g.relations, RelationInside(ids));
    FilterKeeps(ComponentSubgraph(g, ids).relations, Active);
  }

  /** No active relation has one end inside c and the other outside. */
  ghost predicate Separated(g: Graph, c: set<Id>) {
    forall r :: r in g.relations && Active(r) ==> (r.source in c <==> r.target in c)
  }

  /** Inside a separated set of entities the subgraph has the same links as the whole graph. */
  lemma SubgraphLinks(g: Graph, c: set<Id>, x: Id, y: Id)
    requires Separated(g, c)
    ensures y in Neighbours(ActiveLinks(ComponentSubgraph(g, c)), x) <==> x in c && y in Neighbours(ActiveLinks(g), x)
  {
    var sub := ComponentSubgraph(g, c);
    FilterKeeps(g.relations, RelationInside(c));
    ActiveLinksMeaning(g);
    ActiveLinksMeaning(sub);
    if x in c && y in Neighbours(ActiveLinks(g), x) {
      var r :| r in g.relations && Active(r) && Joins(r, x, y);
      assert r in sub.relations;
    }
  }

  lemma SubgraphEntities(g: Graph, c: set<Id>)
    requires Separated(g, c)
    ensures ActiveEntities(ComponentSubgraph(g, c)) == ActiveEntities(g) * c
  {
    var sub := ComponentSubgraph(g, c);
    FilterKeeps(g.relations, RelationInside(c));
    ActiveLinksMeaning(g);
    ActiveLinksMeaning(sub);
    forall x ensures x in ActiveEntities(sub) <==> x in ActiveEntities(g) && x in c {
      if x in ActiveEntities(g) && x in c {
        var r :| r in g.relations && Active(r) && Touches(r, x);
        assert r in sub.relations;
      }
    }
  }

  lemma ComponentIsClass(g: Graph, i: nat)
    requires i < |ActiveComponents(g)|
    ensures IsClass(ActiveLinks(g), ActiveComponents(g)[i])
    ensures ActiveComponents(g)[i] <= ActiveEntities(g) && ActiveComponents(g)[i] != {}
  {
    ComponentsPartitionEntities(g);
  }

  lemma ComponentIsSeparated(g: Graph, i: nat)
    requires i < |ActiveComponents(g)|
    ensures Separated(g, ActiveComponents(g)[i])
  {
    forall r | r in g.relations && Active(r)
      ensures r.source in ActiveComponents(g)[i] <==> r.target in ActiveComponents(g)[i]
    {
      ActiveRelationInOneComponent(g, r);
    }
  }

  /** Re-running component discovery on a component's subgraph gives back exactly that component. */
  lemma ComponentDiscoveryIsIdempotent(g: Graph, i: nat)
    requires i < |ActiveComponents(g)|
    ensures ActiveComponents(ComponentSubgraph(g, ActiveComponents(g)[i])) == [ActiveComponents(g)[i]]
  {
    ComponentIsClass(g, i);
    ComponentIsSeparated(g, i);
    SubgraphEntities(g, ActiveComponents(g)[i]);
    SingleComponent(g, ActiveComponents(g)[i]);
  }

  lemma SingleComponent(g: Graph, c: set<Id>)
    requires Separated(g, c) && IsClass(ActiveLinks(g), c) && c <= ActiveEntities(g) && c != {}
    requires ActiveEntities(ComponentSubgraph(g, c)) == c
    ensures ActiveComponents(ComponentSubgraph(g, c)) == [c]
  {
    var adj, inner := ActiveLinks(g), ActiveLinks(ComponentSubgraph(g, c));
    forall x, y ensures y in Neighbours(inner, x) <==> x in c && y in Neighbours(adj, x) {
      SubgraphLinks(g, c, x, y);
    }
    ActiveLinksMeaning(ComponentSubgraph(g, c));
    WholeClass(adj, inner, c, MinOf(c));
    assert ComponentsFrom(inner, c) == [c] + ComponentsFrom(inner, c - c);
    assert c - c == {};
  }

  lemma WholeClass(adj: map<Id, set<Id>>, inner: map<Id, set<Id>>, c: set<Id>, x: Id)
    requires IsClass(adj, c) && c <= adj.Keys && inner.Keys == c && x in c && Symmetric(inner)
    requires forall x, y :: y in Neighbours(inner, x) <==> x in c && y in Neighbours(adj, x)
    ensures Class(inner, x) == c
  {
    ClassIsClosed(inner, x);
    var found := Class(inner, x);
    assert Closed(adj, found);
    forall y | y in c ensures y in found {
      assert Reaches(adj, x, y);
      ClosedHoldsReachable(adj, found, x, y);
    }
  }

  /** The active relations of all components, one component after the other. */
  ghost function GatherActive(g: Graph, parts: seq<set<Id>>): seq<Relation> {
    if parts == [] then [] else
    GatherActive(g, parts[..|parts| - 1]) + ActiveRelations(ComponentSubgraph(g, parts[|parts| - 1]))
  }

  ghost predicate InsideSomePart(parts: seq<set<Id>>, r: Relation) {
    exists i :: 0 <= i < |parts| && r.source in parts[i] && r.target in parts[i]
  }

  lemma {:induction false} GatherActiveMeaning(g: Graph, parts: seq<set<Id>>)
    ensures forall r :: r in GatherActive(g, parts) <==> r in g.relations && Active(r) && InsideSomePart(parts, r)
  {
    if parts != [] {
      var init, last := parts[..|parts| - 1], parts[|parts| - 1];
      assert parts == init + [last];
      GatherActiveMeaning(g, init);
      ActiveInSubgraph(g, last);
      forall r ensures InsideSomePart(parts, r) <==> InsideSomePart(init, r) || RelationInside(last)(r) {
        if RelationInside(last)(r) {
          assert r.source in parts[|init|];
        }
        if InsideSomePart(init, r) {
          var k :| 0 <= k < |init| && r.source in init[k] && r.target in init[k];
          assert r.source in parts[k];
        }
        if InsideSomePart(parts, r) {
          var k :| 0 <= k < |parts| && r.source in parts[k] && r.target in parts[k];
          assert k < |init| ==> r.source in init[k];
        }
      }
    }
  }

  lemma {:induction false} GatherActiveDistinct(g: Graph, parts: seq<set<Id>>)
    requires NoDuplicates(g.relations) && PairwiseDisjoint(parts)
    ensures NoDuplicates(GatherActive(g, parts))
  {
    if parts != [] {
      var init, last := parts[..|parts| - 1], parts[|parts| - 1];
      GatherActiveDistinct(g, init);
      GatherActiveMeaning(g, init);
      ActiveInSubgraph(g, last);
      FilterKeeps(g.relations, RelationInside(last));
      FilterKeeps(ComponentSubgraph(g, last).relations, Active);
      var before, added := GatherActive(g, init), ActiveRelations(ComponentSubgraph(g, last));
      forall i, j | 0 <= i < |before| && 0 <= j < |added| ensures before[i] != added[j] {
        var r := before[i];
        assert r in before;
        var k :| 0 <= k < |init| && r.source in init[k];
        assert parts[k] !! parts[|init|];
        assert added[j] in added;
      }
    }
  }

  /** Component analysis conserves the active relations: together the components hold each exactly once. */
  lemma ComponentsConserveRelations(g: Graph)
    requires Valid(g)
    ensures multiset(GatherActive(g, ActiveComponents(g))) == multiset(ActiveRelations(g))
  {
    var parts := ActiveComponents(g);
    ComponentsPartitionEntities(g);
    GatherActiveMeaning(g, parts);
    GatherActiveDistinct(g, parts);
    FilterKeeps(g.relations, Active);
    var gathered, active := GatherActive(g, parts), ActiveRelations(g);
    forall r ensures r in gathered <==> r in active {
      if r in active {
        ActiveRelationInOneComponent(g, r);
        assert InSomePart(parts, r.source);
        assert InsideSomePart(parts, r);
      }
    }
    SameElementsSameMultiset(gathered, active);
  }
}
