/** A valid graph whose two components have the same joined text, and what follows from it. */
module ComponentCollisions {
  import opened Ordering
  import opened Reachability
  import opened StateGraph
  import opened AttackComponents
  import opened StageScoring
  import opened AttackProgression
  import opened DefensePlanner
  import opened DefenseAssurance
  import opened MultiIncident
  import opened MultiIncidentLaws
  import opened WorldLineGroups
  import opened WorldLineTick
  import opened WorldLines
  import opened WorldLineLaws
  import opened ComponentTexts

  /** Texts of at least three characters, as the identifier fields ask for, in ascending order. */
  function Texts(id: Id): string {
    match id
    case 0 => "aaa"
    case 1 => "aaa|bbb"
    case 2 => "bbb,ccc|ddd"
    case 3 => "ccc"
    case _ => "ddd"
  }

  function Host(id: Id): Entity {
    Entity(id, DEVICE, map[])
  }

  function Seen(id: Id, source: Id, target: Id): Relation {
    Relation(id, source, target, RelationType(0, 0, None), OBSERVED, 0.75, [EvidenceRef(id, 0, 0, None)])
  }

  /** Entity "aaa" has a relation "bbb,ccc|ddd" to itself; relation "ddd" joins "aaa|bbb" and "ccc". */
  function Confusing(): Graph {
    Graph(GraphId(0, 3), [Host(0), Host(1), Host(3)], [Seen(2, 0, 0), Seen(4, 1, 3)])
  }

  lemma ConfusingParts()
    ensures EntityIds(Confusing()) == {0, 1, 3} && RelationIds(Confusing().relations) == {2, 4}
    ensures forall r :: r in Confusing().relations <==> r == Seen(2, 0, 0) || r == Seen(4, 1, 3)
  {
    var es, rs := Confusing().entities, Confusing().relations;
    assert es[0] in es && es[1] in es && es[2] in es && rs[0] in rs && rs[1] in rs;
  }

  lemma ConfusingIsValid()
    ensures Valid(Confusing()) && Spells(Texts, Confusing())
    ensures forall id :: FitsIdField(|Texts(id)|)
  {
    ConfusingParts();
    hide EntityIds, RelationIds;
    TextsAscend();
  }

  lemma TextsAscend()
    ensures forall x, y :: x in {0, 1, 2, 3, 4} && y in {0, 1, 2, 3, 4} && x < y ==> TextBefore(Texts(x), Texts(y))
  {
    var a, b, c, d, e := Texts(0), Texts(1), Texts(2), Texts(3), Texts(4);
    assert a[1..] == "aa" && a[1..][1..] == "a" && a[1..][1..][1..] == "";
    assert b[1..] == "aa|bbb" && b[1..][1..] == "a|bbb" && b[1..][1..][1..] == "|bbb";
    assert TextBefore("", "|bbb") && TextBefore("a", "a|bbb") && TextBefore("aa", "aa|bbb");
    assert TextBefore(a, b);
  }

  lemma PartOf(g: Graph, x: Id) returns (k: nat)
    requires x in ActiveEntities(g)
    ensures k < |ActiveComponents(g)| && x in ActiveComponents(g)[k]
    ensures IsClass(ActiveLinks(g), ActiveComponents(g)[k]) && ActiveComponents(g)[k] <= ActiveEntities(g)
  {
    hide ActiveLinks, ActiveComponents, IsClass, ActiveEntities;
    ComponentsPartitionEntities(g);
    assert InSomePart(ActiveComponents(g), x);
    k :| k < |ActiveComponents(g)| && x in ActiveComponents(g)[k];
    ComponentIsClass(g, k);
  }

  /** The two components: {0} with relation 2, and {1, 3} with relation 4. */
  lemma ConfusingClasses() returns (i: nat, j: nat)
    ensures i < |ActiveComponents(Confusing())| && j < |ActiveComponents(Confusing())| && i != j
    ensures ActiveComponents(Confusing())[i] == {0} && ActiveComponents(Confusing())[j] == {1, 3}
  {
    hide Confusing, ActiveLinks, ActiveComponents, ActiveEntities, Reaches, Closed, IsClass;
    var g := Confusing();
    ConfusingLinks();
    i := PartOf(g, 0);
    j := PartOf(g, 1);
    ClassIs(g, ActiveComponents(g)[i], 0, {0});
    ClassIs(g, ActiveComponents(g)[j], 1, {1, 3});
    assert 0 !in ActiveComponents(g)[j];
  }

  lemma ConfusingLinks()
    ensures var adj := ActiveLinks(Confusing());
            && ActiveEntities(Confusing()) == {0, 1, 3}
            && Closed(adj, {0}) && Closed(adj, {1, 3})
            && Reaches(adj, 0, 0) && Reaches(adj, 1, 1) && Reaches(adj, 1, 3)
  {
    ConfusingNeighbours();
    hide ActiveLinks, Confusing, Reaches;
    var adj := ActiveLinks(Confusing());
    ReachesItself(adj, 0);
    ReachesItself(adj, 1);
    ReachesNext(adj, 1, 1, 3);
  }

  lemma ConfusingNeighbours()
    ensures var adj := ActiveLinks(Confusing());
            && ActiveEntities(Confusing()) == {0, 1, 3}
            && forall x, y :: y in Neighbours(adj, x) <==> (x, y) in {(0, 0), (1, 3), (3, 1)}
  {
    var g := Confusing();
    ConfusingParts();
    var self, joint := Seen(2, 0, 0), Seen(4, 1, 3);
    assert Active(self) && Active(joint) && Touches(self, 0) && Touches(joint, 1) && Touches(joint, 3);
    assert Joins(joint, 1, 3);
    assert forall x, y :: Joins(self, x, y) <==> x == 0 && y == 0;
    assert forall x, y :: Joins(joint, x, y) <==> (x == 1 && y == 3) || (x == 3 && y == 1);
    assert forall x :: (Touches(self, x) <==> x == 0) && (Touches(joint, x) <==> x == 1 || x == 3);
    hide Confusing, ActiveLinks, Reaches, Active, Seen, Joins, Touches;
    assert forall r :: r in g.relations <==> r == self || r == joint;
    ActiveLinksMeaning(g);
  }

  lemma ClassIs(g: Graph, part: set<Id>, x: Id, members: set<Id>)
    requires IsClass(ActiveLinks(g), part) && part <= ActiveEntities(g) && x in part
    requires Closed(ActiveLinks(g), members) && x in members && members <= ActiveEntities(g)
    requires forall y :: y in members ==> Reaches(ActiveLinks(g), x, y)
    ensures part == members
  {
    hide ActiveLinks, Reaches;
    forall y | y in part ensures y in members {
      ClosedHoldsReachable(ActiveLinks(g), members, x, y);
    }
  }

  lemma RelationsInside(ids: set<Id>)
    ensures RelationIds(ActiveRelations(ComponentSubgraph(Confusing(), ids)))
            == (if 0 in ids then {2} else {}) + (if 1 in ids && 3 in ids then {4} else {})
  {
    var g := Confusing();
    ConfusingParts();
    ActiveInSubgraph(g, ids);
    var rs := ActiveRelations(ComponentSubgraph(g, ids));
    hide Confusing, ActiveRelations, ComponentSubgraph;
    assert forall r :: r in rs ==> r.id in RelationIds(rs);
    assert Seen(2, 0, 0) in rs <==> 0 in ids;
    assert Seen(4, 1, 3) in rs <==> 1 in ids && 3 in ids;
  }

  lemma SortedOne(a: Id)
    ensures SortedIds({a}) == [a]
  {
    var s := SortedIds({a});
    assert s[0] in {a};
  }

  lemma SortedTwo(a: Id, b: Id)
    requires a < b
    ensures SortedIds({a, b}) == [a, b]
  {
    assert MinOf({a, b}) == a && {a, b} - {a} == {b};
    SortedOne(b);
  }

  lemma JoinedOne(spell: Spelling, a: Id)
    ensures JoinTexts(Spelled(spell, SortedIds({a}))) == spell(a)
  {
    SortedOne(a);
    hide SortedIds;
    assert Spelled(spell, [a]) == [spell(a)];
  }

  lemma JoinedTwo(spell: Spelling, a: Id, b: Id)
    requires a < b
    ensures JoinTexts(Spelled(spell, SortedIds({a, b}))) == spell(a) + "," + spell(b)
  {
    SortedTwo(a, b);
    hide SortedIds;
    assert Spelled(spell, [a, b]) == [spell(a), spell(b)];
    assert [spell(a), spell(b)][1..] == [spell(b)];
  }

  lemma SameText()
    ensures ComponentText(Texts, {0}, {2}) == ComponentText(Texts, {1, 3}, {4})
  {
    JoinedOne(Texts, 0);
    JoinedOne(Texts, 2);
    JoinedOne(Texts, 4);
    JoinedTwo(Texts, 1, 3);
    SameCharacters();
    hide SortedIds, JoinTexts, Spelled, Texts;
  }

  lemma SameCharacters()
    ensures Texts(0) + "|" + Texts(2) == Texts(1) + "," + Texts(3) + "|" + Texts(4)
  {
    assert "aaa|bbb" == "aaa" + "|" + "bbb";
    assert "bbb,ccc|ddd" == "bbb" + "," + "ccc" + "|" + "ddd";
  }

  lemma TextsAreConfused()
    ensures !TextsDiffer(Confusing(), Texts)
  {
    var i, j := ConfusingClasses();
    RelationsInside({0});
    RelationsInside({1, 3});
    SameText();
    hide Confusing, ActiveComponents, ComponentText, ActiveRelations, ComponentSubgraph, Texts, RelationIds;
    assert TextAt(Confusing(), Texts, i) == TextAt(Confusing(), Texts, j);
  }

  /** Both components are "aaa|bbb,ccc|ddd": whatever the hash, they get one identifier. */
  lemma IdentifiersCollide(hash: TextHash)
    ensures Valid(Confusing()) && Spells(Texts, Confusing())
    ensures !DistinctIn(Confusing(), IdentifierOf(Texts, hash))
  {
    hide Confusing, Valid, TextsDiffer, Spells, Components;
    ConfusingIsValid();
    TextsAreConfused();
    IdentifiersDifferIff(Confusing(), Texts, hash);
  }

  /**
   On this graph the builder of plans for several incidents passes all its checks on single components and then
   finds a duplicate.
   */
  lemma ConfusingPlansAreDuplicates(hash: TextHash, critical: set<Id>, registry: Registry, policy: AssurancePolicy)
    ensures var digest := IdentifierOf(Texts, hash);
            && Valid(Confusing()) && Plannable(Confusing())
            && AllSound(Confusing(), Components(Confusing(), digest), critical, registry, policy, digest)
            && !IdsUnique(MultiPlanOf(Confusing(), critical, registry, policy, digest).plans)
  {
    hide Valid, Components, AllSound, IdsUnique, MultiPlanOf, DistinctIds, IdentifierOf;
    IdentifiersCollide(hash);
    BoundaryErrorsAreUnreachable(Confusing(), critical, registry, policy, IdentifierOf(Texts, hash));
    NoDuplicateIff(Confusing(), critical, registry, policy, IdentifierOf(Texts, hash));
  }

  /** In a timeline that starts with this graph two components without a common entity share a line at once. */
  lemma ConfusingLinesCoincide(
    hash: TextHash, anchors: set<Id>, policy: Policy, stream: Id, digest: LineDigest,
    run: Run)
    requires ValidPolicy(policy)
    requires run == RunOf([Confusing()], anchors, policy, stream, IdentifierOf(Texts, hash), digest)
    ensures run.Valid()
    ensures exists a, b :: a in TimelineOf(run).observations && b in TimelineOf(run).observations
                           && a.tick == b.tick == 0 && a.line == b.line && a.entityIds !! b.entityIds
  {
    hide Confusing, Valid, Components, run.Valid, TimelineOf, IdentifierOf, run.LinesAt, run.ContextAt, TickOf;
    IdentifiersCollide(hash);
    RunOfSnapshotsIsValid([Confusing()], anchors, policy, stream, IdentifierOf(Texts, hash), digest);
    FirstTick(run, Confusing(), anchors, policy, stream, IdentifierOf(Texts, hash), digest);
    var cs := run.ticks[0].components;
    var i: nat, j: nat :| i < |cs| && j < |cs| && i != j && !Different(cs[i], cs[j]);
    FirstLineAt(run, i);
    FirstLineAt(run, j);
    FirstObservation(run, i);
    FirstObservation(run, j);
    assert Disjoint(cs[i], cs[j]);
    var a, b := run.ContextAt(0).ObservationOf(i), run.ContextAt(0).ObservationOf(j);
    assert a.line == b.line && a.entityIds !! b.entityIds;
  }

  lemma FirstTick(run: Run, g: Graph, anchors: set<Id>, policy: Policy, stream: Id,
                  componentDigest: ComponentDigest, digest: LineDigest)
    requires run == RunOf([g], anchors, policy, stream, componentDigest, digest) && Valid(g)
    ensures |run.ticks| == 1 && run.ticks[0].components == Components(g, componentDigest)
    ensures AllDisjoint(run.ticks[0].components)
  {
    hide Components, AnchorMap, Valid;
    ComponentsAreApart(g, componentDigest);
  }

  lemma FirstObservation(run: Run, c: nat)
    requires run.Valid() && |run.ticks| == 1 && c < |run.ticks[0].components|
    ensures var o := run.ContextAt(0).ObservationOf(c);
            && o in TimelineOf(run).observations && o.tick == 0 && o.line == run.LinesAt(0)[c]
            && o.entityIds == run.ticks[0].components[c].entityIds
  {
    hide run.Valid, TimelineOf, TickContext.NextLine;
    Observes(run, TimelineOf(run), 0, c);
  }
}
