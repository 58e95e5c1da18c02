/** When a repeated snapshot keeps every line, said of the graph itself (attack_world_lines.py). */
module WorldLineSnapshots {
  import opened Ordering
  import opened Reachability
  import opened StateGraph
  import opened AttackComponents
  import opened AttackProgression
  import opened WorldLineGroups
  import opened WorldLineTick
  import opened WorldLineFacts
  import opened WorldLines
  import opened WorldLineLaws

  // ----- anchors read off the graph

  /** Entity x is the protected entity a, or a relation that is not disproved and not below 0.5 joins them. */
  ghost predicate Guards(g: Graph, anchors: set<Id>, x: Id, a: Id) {
    && a in anchors
    && (x == a || exists r :: r in g.relations && r.status != DISPROVED && r.confidence >= 0.5 && Joins(r, x, a))
  }

  /** Two entities in different components. */
  ghost predicate Divided(g: Graph, x: Id, y: Id) {
    x in ActiveEntities(g) && y in ActiveEntities(g) && !Reaches(ActiveLinks(g), x, y)
  }

  ghost predicate ShareAnchor(g: Graph, anchors: set<Id>, x: Id, y: Id) {
    exists a :: Guards(g, anchors, x, a) && Guards(g, anchors, y, a)
  }

  /** Two entities whose components are linked when the graph is repeated. */
  ghost predicate Tangled(g: Graph, anchors: set<Id>, policy: Policy, x: Id, y: Id) {
    && Divided(g, x, y)
    && (policy.minOverlap == 0.0 || (policy.anchorBonus >= policy.minOverlap && ShareAnchor(g, anchors, x, y)))
  }

  lemma {:induction false} AnchorsThroughMeaning(rs: seq<Relation>, entities: set<Id>, anchors: set<Id>, a: Id)
    ensures a in AnchorsThrough(rs, entities, anchors) <==>
              a in anchors && (a in entities || exists r, x :: r in rs && x in entities && Credits(r) && Joins(r, x, a))
  {
    if rs != [] {
      var init, last := rs[..|rs| - 1], rs[|rs| - 1];
      assert rs == init + [last];
      AnchorsThroughMeaning(init, entities, anchors, a);
      if r, x :| r in rs && x in entities && Credits(r) && Joins(r, x, a) {
        assert r in init || r == last;
      }
      if a in AnchorsThrough(rs, entities, anchors) && a !in AnchorsThrough(init, entities, anchors) {
        var x := if last.target == a && last.source in entities then last.source else last.target;
        assert last in rs && x in entities && Credits(last) && Joins(last, x, a);
      }
    }
  }

  lemma ProtectedAnchorsMeaning(g: Graph, c: ComponentReport, anchors: set<Id>, a: Id)
    ensures a in ProtectedAnchors(g, c, anchors) <==> exists x :: x in c.entityIds && Guards(g, anchors, x, a)
  {
    AnchorsThroughMeaning(g.relations, c.entityIds, anchors, a);
    if x :| x in c.entityIds && Guards(g, anchors, x, a) {
    }
    if a in ProtectedAnchors(g, c, anchors) {
      if a in c.entityIds {
        assert Guards(g, anchors, a, a);
      } else {
        var r, x :| r in g.relations && x in c.entityIds && Credits(r) && Joins(r, x, a);
        assert Guards(g, anchors, x, a);
      }
    }
  }

  lemma {:induction false} AnchorMapMeaning(g: Graph, cs: seq<ComponentReport>, anchors: set<Id>, i: nat)
    requires DistinctIds(cs) && i < |cs|
    ensures Neighbours(AnchorMap(g, cs, anchors), cs[i].componentId) == ProtectedAnchors(g, cs[i], anchors)
  {
    hide ProtectedAnchors;
    var n := |cs| - 1;
    if i < n {
      assert Different(cs[i], cs[n]);
      assert DistinctIds(cs[..n]) by {
        forall j, k | 0 <= j < n && 0 <= k < n && j != k ensures Different(cs[..n][j], cs[..n][k]) {
          assert Different(cs[j], cs[k]);
        }
      }
      AnchorMapMeaning(g, cs[..n], anchors, i);
    }
  }

  // ----- components and connectivity

  /** An entity of component i reaches exactly the entities of component i. */
  lemma ComponentHoldsWhatIsReached(g: Graph, digest: ComponentDigest, i: nat, x: Id, y: Id)
    requires i < |Components(g, digest)| && x in Components(g, digest)[i].entityIds && y in ActiveEntities(g)
    ensures y in Components(g, digest)[i].entityIds <==> Reaches(ActiveLinks(g), x, y)
  {
    hide Components, ActiveLinks, ActiveComponents, IsClass, Reaches;
    var c := Components(g, digest)[i];
    ComponentsMeaning(g, digest);
    assert c in Components(g, digest);
    var k :| 0 <= k < |ActiveComponents(g)| && c == ComponentReportOf(g, ActiveComponents(g)[k], digest);
    ReportEntities(g, ActiveComponents(g)[k], digest);
    ComponentIsClass(g, k);
    ClassMeaning(g, c.entityIds, x, y);
  }

  lemma ReportEntities(g: Graph, ids: set<Id>, digest: ComponentDigest)
    ensures ComponentReportOf(g, ids, digest).entityIds == ids
  {
  }

  lemma ClassMeaning(g: Graph, part: set<Id>, x: Id, y: Id)
    requires IsClass(ActiveLinks(g), part) && x in part && y in ActiveEntities(g)
    ensures y in part <==> Reaches(ActiveLinks(g), x, y)
  {
  }

  /** Entities are divided exactly when they lie in different listed components. */
  lemma DividedIff(g: Graph, digest: ComponentDigest, x: Id, y: Id)
    requires AllDisjoint(Components(g, digest))
    ensures Divided(g, x, y) <==> exists i, j :: Parts(Components(g, digest), i, j, x, y)
  {
    hide Components, ActiveLinks, ActiveEntities, Reaches;
    var cs := Components(g, digest);
    InSomeComponentIff(g, digest, x);
    InSomeComponentIff(g, digest, y);
    if Divided(g, x, y) {
      var i :| 0 <= i < |cs| && x in cs[i].entityIds;
      var j :| 0 <= j < |cs| && y in cs[j].entityIds;
      ComponentHoldsWhatIsReached(g, digest, i, x, y);
      assert Parts(cs, i, j, x, y);
    }
    if i, j :| Parts(cs, i, j, x, y) {
      ComponentHoldsWhatIsReached(g, digest, i, x, y);
      assert Disjoint(cs[i], cs[j]);
    }
  }

  ghost predicate Parts(cs: seq<ComponentReport>, i: int, j: int, x: Id, y: Id) {
    0 <= i < |cs| && 0 <= j < |cs| && i != j && x in cs[i].entityIds && y in cs[j].entityIds
  }

  // ----- repeating a graph

  /** Components and anchors of both sides of the step are those of one graph. */
  ghost predicate RepeatsGraph(s: Step, g: Graph, anchors: set<Id>, digest: ComponentDigest) {
    && s.previous == s.current == Components(g, digest)
    && s.previousAnchors == s.currentAnchors == AnchorMap(g, Components(g, digest), anchors)
  }

  lemma SharedAnchorsIff(s: Step, g: Graph, anchors: set<Id>, digest: ComponentDigest, i: nat, j: nat)
    requires RepeatsGraph(s, g, anchors, digest) && DistinctIds(s.current) && i < |s.current| && j < |s.current|
    ensures s.SharedAnchors(i, j) != {}
            <==> exists x, y ::
                   x in s.current[i].entityIds && y in s.current[j].entityIds && ShareAnchor(g, anchors, x, y)
  {
    hide Components, ProtectedAnchors, AnchorMap, Guards;
    AnchorMapMeaning(g, s.current, anchors, i);
    AnchorMapMeaning(g, s.current, anchors, j);
    var own, other := ProtectedAnchors(g, s.current[i], anchors), ProtectedAnchors(g, s.current[j], anchors);
    assert s.SharedAnchors(i, j) == own * other;
    if a :| a in own * other {
      ProtectedAnchorsMeaning(g, s.current[i], anchors, a);
      ProtectedAnchorsMeaning(g, s.current[j], anchors, a);
      var x :| x in s.current[i].entityIds && Guards(g, anchors, x, a);
      var y :| y in s.current[j].entityIds && Guards(g, anchors, y, a);
      assert ShareAnchor(g, anchors, x, y);
    }
    if x, y :| x in s.current[i].entityIds && y in s.current[j].entityIds && ShareAnchor(g, anchors, x, y) {
      var a :| Guards(g, anchors, x, a) && Guards(g, anchors, y, a);
      ProtectedAnchorsMeaning(g, s.current[i], anchors, a);
      ProtectedAnchorsMeaning(g, s.current[j], anchors, a);
      assert a in own * other;
    }
  }

  lemma CrossLinkTangles(x: TickContext, g: Graph, anchors: set<Id>, digest: ComponentDigest, i: nat, j: nat)
    requires x.Valid() && Repeats(x) && RepeatsGraph(x.step, g, anchors, digest) && DistinctIds(x.step.current)
    requires i < |x.step.current| && j < |x.step.current| && i != j && x.step.Linked(i, j)
    ensures exists a, b :: Tangled(g, anchors, x.step.policy, a, b)
  {
    hide Components, ShareAnchor, Divided, x.step.Linked;
    var cs := x.step.current;
    CrossLinkIff(x, i, j);
    SharedAnchorsIff(x.step, g, anchors, digest, i, j);
    var a := SomeElement(cs[i].entityIds);
    var b := SomeElement(cs[j].entityIds);
    if x.step.policy.minOverlap != 0.0 {
      a, b :| a in cs[i].entityIds && b in cs[j].entityIds && ShareAnchor(g, anchors, a, b);
    }
    assert Parts(cs, i, j, a, b);
    DividedIff(g, digest, a, b);
    assert Tangled(g, anchors, x.step.policy, a, b);
  }

  lemma TangleCrossLinks(x: TickContext, g: Graph, anchors: set<Id>, digest: ComponentDigest, a: Id, b: Id)
    requires x.Valid() && Repeats(x) && RepeatsGraph(x.step, g, anchors, digest) && DistinctIds(x.step.current)
    requires Tangled(g, anchors, x.step.policy, a, b)
    ensures !NoCrossLinks(x)
  {
    hide Components, ShareAnchor, Divided, x.step.Linked;
    DividedIff(g, digest, a, b);
    var i: nat, j: nat :| Parts(x.step.current, i, j, a, b);
    CrossLinkIff(x, i, j);
    SharedAnchorsIff(x.step, g, anchors, digest, i, j);
    assert (i, j) in x.step.Edges();
  }

  lemma NoCrossLinksIff(x: TickContext, g: Graph, anchors: set<Id>, digest: ComponentDigest)
    requires x.Valid() && Repeats(x) && RepeatsGraph(x.step, g, anchors, digest) && DistinctIds(x.step.current)
    ensures NoCrossLinks(x) <==> forall a, b :: !Tangled(g, anchors, x.step.policy, a, b)
  {
    hide Tangled, Repeats, Components, AnchorMap, Step.Linked;
    if a, b :| Tangled(g, anchors, x.step.policy, a, b) {
      TangleCrossLinks(x, g, anchors, digest, a, b);
    }
    if !NoCrossLinks(x) {
      var i: nat, j: nat :| i < |x.step.previous| && j < |x.step.current| && i != j && (i, j) in x.step.Edges();
      CrossLinkTangles(x, g, anchors, digest, i, j);
    }
  }

  lemma StepRepeatsGraph(
    graphs: seq<Graph>, anchors: set<Id>, policy: Policy, stream: Id, componentDigest: ComponentDigest,
    digest: LineDigest, run: Run, t: nat)
    requires run == RunOf(graphs, anchors, policy, stream, componentDigest, digest) && run.Valid()
    requires 0 < t < |graphs| && graphs[t] == graphs[t - 1]
    ensures t < |run.ticks| && run.ticks[t] == run.ticks[t - 1]
    ensures RepeatsGraph(run.ContextAt(t).step, graphs[t], anchors, componentDigest)
    ensures run.ContextAt(t).step.policy == policy
    ensures run.ContextAt(t).step.current == Components(graphs[t], componentDigest)
  {
    hide run.LinesAt, run.Valid, AnchorMap, Components;
  }

  /**
   Repeating a graph yields only CONTINUED, and keeps every line, exactly when no two entities of different
   components are tangled: the threshold is positive, and either the bonus misses it or no two components
   guard a common protected entity. Components are told apart by their identifiers here.
   */
  lemma RepeatedGraphContinuesIff(
    graphs: seq<Graph>, anchors: set<Id>, policy: Policy, stream: Id, componentDigest: ComponentDigest,
    digest: LineDigest, run: Run, timeline: Timeline, t: nat)
    requires run == RunOf(graphs, anchors, policy, stream, componentDigest, digest) && run.Valid()
    requires timeline == TimelineOf(run) && 0 < t < |graphs| && graphs[t] == graphs[t - 1]
    requires DistinctIn(graphs[t], componentDigest)
    ensures (forall r :: r in timeline.transitions && r.toTick == t ==> r.kind == CONTINUED)
            <==> forall x, y :: !Tangled(graphs[t], anchors, policy, x, y)
    ensures t < |run.ticks|
    ensures (forall x, y :: !Tangled(graphs[t], anchors, policy, x, y)) ==> SameLines(run, t)
  {
    hide run.LinesAt, run.ContextAt, run.Valid, TimelineOf, RunOf, Tangled, Repeats, RepeatsGraph, NoCrossLinks;
    hide Components, SameLines;
    StepRepeatsGraph(graphs, anchors, policy, stream, componentDigest, digest, run, t);
    RepeatedSnapshot(run, timeline, t);
    NoCrossLinksIff(run.ContextAt(t), graphs[t], anchors, componentDigest);
    if NoCrossLinks(run.ContextAt(t)) {
      KeptLines(run, t);
    }
  }

  /** Each component of tick t is observed with the line it was remembered under, which was its line at tick t - 1. */
  ghost predicate SameLines(run: Run, t: nat)
    requires run.Valid() && 0 < t < |run.ticks|
  {
    run.LinesAt(t) == run.KeptAt(t - 1) && (run.IdentifiedTo(t) ==> run.LinesAt(t) == run.LinesAt(t - 1))
  }

  lemma KeptLines(run: Run, t: nat)
    requires run.Valid() && 0 < t < |run.ticks| && run.LinesAt(t) == run.KeptAt(t - 1)
    ensures SameLines(run, t)
  {
    hide run.Valid, run.LinesAt, run.KeptAt, run.IdentifiedTo;
    if run.IdentifiedTo(t) {
      KeptIsObserved(run, t - 1);
    }
  }

  // ----- when it continues

  /** No relation predicts an attack step with confidence at least 0.5. */
  ghost predicate PredictsNothing(g: Graph) {
    forall r :: r in g.relations && r.status.PREDICTED? ==> r.confidence < 0.5
  }

  /** Without such a prediction whoever guards an entity is it or reaches it over active relations. */
  lemma GuardReaches(g: Graph, anchors: set<Id>, x: Id, a: Id)
    requires PredictsNothing(g) && Guards(g, anchors, x, a)
    ensures Reaches(ActiveLinks(g), x, a) && Reaches(ActiveLinks(g), a, x)
  {
    ActiveLinksMeaning(g);
    ReachesItself(ActiveLinks(g), x);
    if x != a {
      var r :| r in g.relations && r.status != DISPROVED && r.confidence >= 0.5 && Joins(r, x, a);
      assert Active(r);
      ReachesNext(ActiveLinks(g), x, x, a);
      ReachesBack(ActiveLinks(g), x, a);
    }
  }

  lemma NothingPredictedNothingTangled(g: Graph, anchors: set<Id>, policy: Policy, x: Id, y: Id)
    requires PredictsNothing(g) && policy.minOverlap > 0.0
    ensures !Tangled(g, anchors, policy, x, y)
  {
    hide Guards, PredictsNothing, Reaches, ActiveLinks;
    if a :| Guards(g, anchors, x, a) && Guards(g, anchors, y, a) {
      GuardReaches(g, anchors, x, a);
      GuardReaches(g, anchors, y, a);
      ReachesTransitively(ActiveLinks(g), x, a, y);
    }
  }

  /**
   With a positive threshold, repeating a graph without a confident prediction keeps every line,
   whatever is protected.
   */
  lemma RepeatWithoutPredictionsContinues(
    graphs: seq<Graph>, anchors: set<Id>, policy: Policy, stream: Id, componentDigest: ComponentDigest,
    digest: LineDigest, run: Run, timeline: Timeline, t: nat)
    requires run == RunOf(graphs, anchors, policy, stream, componentDigest, digest) && run.Valid()
    requires timeline == TimelineOf(run) && 0 < t < |graphs| && graphs[t] == graphs[t - 1]
    requires DistinctIn(graphs[t], componentDigest)
    requires policy.minOverlap > 0.0 && PredictsNothing(graphs[t])
    ensures forall r :: r in timeline.transitions && r.toTick == t ==> r.kind == CONTINUED
    ensures t < |run.ticks| && SameLines(run, t)
  {
    hide *;
    forall x, y ensures !Tangled(graphs[t], anchors, policy, x, y) {
      NothingPredictedNothingTangled(graphs[t], anchors, policy, x, y);
    }
    RepeatedGraphContinuesIff(graphs, anchors, policy, stream, componentDigest, digest, run, timeline, t);
  }

  lemma {:induction false} NoAnchorsAnywhere(g: Graph, components: seq<ComponentReport>, id: Id)
    ensures Neighbours(AnchorMap(g, components, {}), id) == {}
  {
    if components != [] {
      NoAnchorsAnywhere(g, components[..|components| - 1], id);
    }
  }

  lemma NoAnchorsNoCrossLinks(x: TickContext, g: Graph, digest: ComponentDigest)
    requires x.Valid() && Repeats(x) && RepeatsGraph(x.step, g, {}, digest) && x.step.policy.minOverlap > 0.0
    ensures NoCrossLinks(x)
  {
    hide Components;
    forall i: nat, j: nat | i < |x.step.previous| && j < |x.step.current| && i != j ensures (i, j) !in x.step.Edges() {
      NoAnchorsAnywhere(g, x.step.current, x.step.previous[i].componentId);
      CrossLinkIff(x, i, j);
    }
  }

  /**
   Without protected anchors and with a positive threshold, repeating a snapshot keeps every line, whatever the
   identifiers are.
   */
  lemma StutterWithoutAnchors(
    graphs: seq<Graph>, policy: Policy, stream: Id, componentDigest: ComponentDigest, digest: LineDigest,
    run: Run, timeline: Timeline, t: nat)
    requires run == RunOf(graphs, {}, policy, stream, componentDigest, digest) && run.Valid() && policy.minOverlap > 0.0
    requires timeline == TimelineOf(run) && 0 < t < |graphs| && graphs[t] == graphs[t - 1]
    ensures forall r :: r in timeline.transitions && r.toTick == t ==> r.kind == CONTINUED
    ensures t < |run.ticks| && SameLines(run, t)
  {
    hide run.LinesAt, run.ContextAt, run.Valid, TimelineOf, RunOf, Repeats, RepeatsGraph, NoCrossLinks, SameLines;
    StepRepeatsGraph(graphs, {}, policy, stream, componentDigest, digest, run, t);
    RepeatedSnapshot(run, timeline, t);
    NoAnchorsNoCrossLinks(run.ContextAt(t), graphs[t], componentDigest);
    KeptLines(run, t);
  }

  // ----- a graph whose repetition does not continue

  function Device(id: Id): Entity {
    Entity(id, DEVICE, map[])
  }

  function AttackStep(id: Id, source: Id, target: Id, status: EvidenceStatus): Relation {
    Relation(id, source, target, RelationType(0, 0, None), status, 0.75, [EvidenceRef(id, 0, 0, None)])
  }

  /** Two attacks, 1 to 2 and 3 to 4, each predicted to go on to the protected entity 5. */
  function ConvergingAttacks(): Graph {
    Graph(GraphId(0, 3), [Device(1), Device(2), Device(3), Device(4), Device(5)],
          [AttackStep(1, 1, 2, OBSERVED), AttackStep(2, 3, 4, OBSERVED),
           AttackStep(3, 1, 5, PREDICTED), AttackStep(4, 3, 5, PREDICTED)])
  }

  /** The default policy. */
  const DEFAULT_POLICY := Policy(0.25, 0.8, 0.2, 0.35)

  lemma ConvergingEntities()
    ensures EntityIds(ConvergingAttacks()) == {1, 2, 3, 4, 5}
  {
    var es := ConvergingAttacks().entities;
    assert es[0] in es && es[1] in es && es[2] in es && es[3] in es && es[4] in es;
    assert es[0].id == 1 && es[1].id == 2 && es[2].id == 3 && es[3].id == 4 && es[4].id == 5;
  }

  lemma ConvergingIds()
    ensures var g := ConvergingAttacks();
            && FitsIdField(g.id.length)
            && (forall i :: 0 <= i < |g.entities| ==> g.entities[i].id == i + 1)
            && (forall i :: 0 <= i < |g.relations| ==> g.relations[i].id == i + 1)
  {
  }

  lemma ConvergingRelations(r: Relation)
    requires r in ConvergingAttacks().relations
    ensures ValidRelation(r) && {r.source, r.target} <= {1, 2, 3, 4, 5}
    ensures Active(r) ==> {r.source, r.target} == {1, 2} || {r.source, r.target} == {3, 4}
  {
  }

  lemma ConvergingAttacksAreValid()
    ensures Valid(ConvergingAttacks())
  {
    hide ConvergingAttacks, EntityIds, ValidRelation, Active;
    var g := ConvergingAttacks();
    ConvergingEntities();
    ConvergingIds();
    forall r | r in g.relations ensures ValidRelation(r) && r.source in EntityIds(g) && r.target in EntityIds(g) {
      ConvergingRelations(r);
    }
  }

  lemma ConvergingAttacksStart()
    ensures var rs := ConvergingAttacks().relations;
            && (exists r :: r in rs && Active(r) && Touches(r, 1))
            && (exists r :: r in rs && Active(r) && Touches(r, 3))
  {
    var rs := ConvergingAttacks().relations;
    assert rs[0] in rs && Active(rs[0]) && Touches(rs[0], 1);
    assert rs[1] in rs && Active(rs[1]) && Touches(rs[1], 3);
  }

  lemma ConvergingAttacksAreDivided()
    ensures Divided(ConvergingAttacks(), 1, 3)
  {
    hide ActiveLinks, ConvergingAttacks, Active, Reaches;
    var g := ConvergingAttacks();
    ConvergingAttacksStart();
    ActiveLinksMeaning(g);
    forall x, y | x in {1, 2} && y in Neighbours(ActiveLinks(g), x) ensures y in {1, 2} {
      var r :| r in g.relations && Active(r) && Joins(r, x, y);
      ConvergingRelations(r);
      assert x in {r.source, r.target} && y in {r.source, r.target};
    }
    if Reaches(ActiveLinks(g), 1, 3) {
      ClosedHoldsReachable(ActiveLinks(g), {1, 2}, 1, 3);
    }
  }

  lemma ConvergingAttacksAreTangled()
    ensures Valid(ConvergingAttacks()) && Tangled(ConvergingAttacks(), {5}, DEFAULT_POLICY, 1, 3)
  {
    hide Divided, Valid, ActiveLinks;
    ConvergingAttacksAreValid();
    ConvergingAttacksAreDivided();
    var g := ConvergingAttacks();
    assert g.relations[2] in g.relations && Credits(g.relations[2]) && Joins(g.relations[2], 1, 5);
    assert g.relations[3] in g.relations && Credits(g.relations[3]) && Joins(g.relations[3], 3, 5);
    assert Guards(g, {5}, 1, 5) && Guards(g, {5}, 3, 5);
  }

  /** Under the default policy, repeating these two attacks reconnects them: some transition is not CONTINUED. */
  lemma RepeatedConvergingAttacksDoNotContinue(
    stream: Id, componentDigest: ComponentDigest, digest: LineDigest, run: Run, timeline: Timeline)
    requires DistinctIn(ConvergingAttacks(), componentDigest)
    requires run == RunOf([ConvergingAttacks(), ConvergingAttacks()], {5}, DEFAULT_POLICY, stream, componentDigest,
                          digest)
    ensures run.Valid()
    ensures timeline == TimelineOf(run) ==>
              exists r :: r in timeline.transitions && r.toTick == 1 && r.kind != CONTINUED
  {
    hide ConvergingAttacks, run.Valid, TimelineOf, RunOf, Tangled, StateGraph.Valid, DistinctIn;
    var graphs := [ConvergingAttacks(), ConvergingAttacks()];
    ConvergingAttacksAreTangled();
    RunOfSnapshotsIsValid(graphs, {5}, DEFAULT_POLICY, stream, componentDigest, digest);
    if timeline == TimelineOf(run) {
      RepeatedGraphContinuesIff(graphs, {5}, DEFAULT_POLICY, stream, componentDigest, digest, run, timeline, 1);
    }
  }
}
