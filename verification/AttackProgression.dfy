/** Component reports and the analysis of a whole graph (attack_progression.py). */
module AttackProgression {
  import opened Ordering
  import opened StateGraph
  import opened AttackComponents
  import opened StageScoring
  import opened CutPoints

  /** How a component's identifier comes from its entities and its active relations; nothing is assumed of it. */
  type ComponentDigest = (set<Id>, set<Id>) -> Id

  /** Sorted lists of distinct identifiers are kept as sets. */
  datatype ComponentReport = ComponentReport(
    componentId: Id, entityIds: set<Id>, relationIds: set<Id>, stages: seq<StageEvidence>,
    currentStage: Option<Stage>, confidence: real, predicted: seq<Prediction>, cutPoints: seq<CutPoint>,
    activeRelationIds: set<Id>, disprovedRelationIds: set<Id>, risk: real)

  datatype ProgressionReport = ProgressionReport(
    graphId: GraphId, stages: seq<StageEvidence>, currentStage: Option<Stage>, confidence: real,
    predicted: seq<Prediction>, cutPoints: seq<CutPoint>, activeRelationIds: set<Id>,
    disprovedRelationIds: set<Id>, primaryComponentId: Option<Id>, components: seq<ComponentReport>)

  function MaxEffect(cuts: seq<CutPoint>): real {
    if cuts == [] then 0.0
    else if |cuts| == 1 then cuts[0].effect
    else Max(cuts[0].effect, MaxEffect(cuts[1..]))
  }

  function RiskScore(current: Option<Stage>, confidence: real, cuts: seq<CutPoint>, entityCount: nat): real {
    var stageScore := if current.None? then 0.0 else (current.value as real) / 13.0;
    var spanScore := Min(1.0, (entityCount as real) / 8.0);
    Min(1.0, 0.45 * stageScore + 0.35 * confidence + 0.15 * MaxEffect(cuts) + 0.05 * spanScore)
  }

  function IsDisproved(r: Relation): bool { r.status.DISPROVED? }

  function ReportFrom(
    sub: Graph, ids: set<Id>, stages: seq<StageEvidence>, cuts: seq<CutPoint>, digest: ComponentDigest): ComponentReport
  {
    var current := CurrentStage(stages);
    var activeIds := RelationIds(ActiveRelations(sub));
    ComponentReport(
      digest(ids, activeIds), ids, RelationIds(sub.relations), stages, current, Confidence(stages),
      Predictions(current, stages), cuts, activeIds, RelationIds(Filter(sub.relations, IsDisproved)),
      RiskScore(current, Confidence(stages), cuts, |ids|))
  }

  ghost function ComponentReportOf(g: Graph, ids: set<Id>, digest: ComponentDigest): ComponentReport {
    var sub := ComponentSubgraph(g, ids);
    ReportFrom(sub, ids, StageRows(sub.relations, 14), DefensiveCutPoints(sub), digest)
  }

  /** The subgraph's own name, the graph's name with a suffix, still fits its field. */
  predicate SubgraphFits(g: Graph) {
    FitsIdField(g.id.length + |":component"|)
  }

  ghost predicate Analysable(g: Graph) {
    ActiveComponents(g) == [] || SubgraphFits(g)
  }

  datatype AnalysisError = SUBGRAPH_ID_TOO_LONG

  /** `_analyze_component`. */
  method AnalyzeComponent(g: Graph, ids: set<Id>, digest: ComponentDigest)
    returns (result: Result<ComponentReport, AnalysisError>)
    requires Valid(g)
    ensures result.Ok? <==> SubgraphFits(g)
    ensures result.Ok? ==> result.value == ComponentReportOf(g, ids, digest)
  {
    if !SubgraphFits(g) {
      return Err(SUBGRAPH_ID_TOO_LONG);
    }
    var sub := ComponentSubgraph(g, ids);
    SubgraphIsValid(g, ids);
    var stages := ComputeStageEvidence(sub);
    var cuts := ComputeCutPoints(sub);
    result := Ok(ReportFrom(sub, ids, stages, cuts, digest));
  }

  ghost function ReportsOf(g: Graph, parts: seq<set<Id>>, digest: ComponentDigest): seq<ComponentReport> {
    seq(|parts|, i requires 0 <= i < |parts| => ComponentReportOf(g, parts[i], digest))
  }

  /** The key `(-risk_score, component_id)`. */
  predicate RiskOrder(a: ComponentReport, b: ComponentReport) {
    a.risk > b.risk || (a.risk == b.risk && a.componentId <= b.componentId)
  }

  /** The components of a graph, as every analysis of it lists them. */
  ghost function Components(g: Graph, digest: ComponentDigest): seq<ComponentReport> {
    Sort(ReportsOf(g, ActiveComponents(g), digest), RiskOrder)
  }

  // ----- the primary component

  /** The key `(risk_score, stage rank or -1, confidence, component_id)`, compared strictly. */
  predicate Outranks(a: ComponentReport, b: ComponentReport) {
    a.risk > b.risk || (a.risk == b.risk && (
      Rank(a.currentStage) > Rank(b.currentStage) || (Rank(a.currentStage) == Rank(b.currentStage) && (
        a.confidence > b.confidence || (a.confidence == b.confidence && a.componentId > b.componentId)))))
  }

  function Best(rs: seq<ComponentReport>): (best: ComponentReport)
    requires rs != []
    ensures best in rs
  {
    var last := rs[|rs| - 1];
    if |rs| == 1 then last else
    var best := Best(rs[..|rs| - 1]);
    if Outranks(last, best) then last else best
  }

  function Meets(focus: set<Id>): ComponentReport -> bool {
    (c: ComponentReport) => focus * c.entityIds != {}
  }

  function PrimaryComponent(components: seq<ComponentReport>, focus: set<Id>): Option<ComponentReport> {
    if components == [] then None else
    var focused := Filter(components, Meets(focus));
    Some(Best(if focused != [] then focused else components))
  }

  function ReportWith(g: Graph, components: seq<ComponentReport>, primary: Option<ComponentReport>): ProgressionReport {
    if primary.None? then
      ProgressionReport(g.id, [], None, 0.0, [], [], {}, RelationIds(Filter(g.relations, IsDisproved)), None, [])
    else
      var p := primary.value;
      ProgressionReport(g.id, p.stages, p.currentStage, p.confidence, p.predicted, p.cutPoints, p.activeRelationIds,
                        p.disprovedRelationIds, Some(p.componentId), components)
  }

  ghost function Analysis(g: Graph, focus: set<Id>, digest: ComponentDigest): ProgressionReport {
    var components := Components(g, digest);
    ReportWith(g, components, PrimaryComponent(components, focus))
  }

  lemma ReportsStep(g: Graph, parts: seq<set<Id>>, i: nat, digest: ComponentDigest)
    requires i < |parts|
    ensures ReportsOf(g, parts[..i + 1], digest)
            == ReportsOf(g, parts[..i], digest) + [ComponentReportOf(g, parts[i], digest)]
  {
  }

  /** `analyze_attack_progression`. */
  method AnalyzeAttackProgression(g: Graph, focus: set<Id>, digest: ComponentDigest)
    returns (result: Result<ProgressionReport, AnalysisError>)
    requires Valid(g)
    ensures result.Ok? <==> Analysable(g)
    ensures result.Ok? ==> result.value == Analysis(g, focus, digest)
  {
    var parts := ComputeActiveComponents(g);
    var reports := AnalyzeComponents(g, parts, digest);
    if reports.Err? {
      return Err(reports.error);
    }
    var components := Sort(reports.value, RiskOrder);
    result := Ok(ReportWith(g, components, PrimaryComponent(components, focus)));
  }

  method AnalyzeComponents(g: Graph, parts: seq<set<Id>>, digest: ComponentDigest)
    returns (result: Result<seq<ComponentReport>, AnalysisError>)
    requires Valid(g)
    ensures result.Ok? <==> parts == [] || SubgraphFits(g)
    ensures result.Ok? ==> result.value == ReportsOf(g, parts, digest)
  {
    hide Valid, SubgraphFits, ComponentReportOf;
    var reports: seq<ComponentReport> := [];
    var i := 0;
    while i < |parts|
      invariant 0 <= i <= |parts|
      invariant i > 0 ==> SubgraphFits(g)
      invariant reports == ReportsOf(g, parts[..i], digest)
    {
      var next := AnalyzeComponent(g, parts[i], digest);
      if next.Err? {
        return Err(next.error);
      }
      ReportsStep(g, parts, i, digest);
      reports := reports + [next.value];
      i := i + 1;
    }
    assert parts[..i] == parts;
    result := Ok(reports);
  }

  // ----- what every analysis promises

  /** Whatever is focused, the report lists all components. */
  lemma AnalysisListsComponents(g: Graph, focus: set<Id>, digest: ComponentDigest)
    ensures Analysis(g, focus, digest).components == Components(g, digest)
  {
  }

  predicate Disjoint(a: ComponentReport, b: ComponentReport) {
    a.entityIds !! b.entityIds && a.activeRelationIds !! b.activeRelationIds
  }

  ghost predicate AllDisjoint(rs: seq<ComponentReport>) {
    forall i, j {:trigger Disjoint(rs[i], rs[j])} ::
      0 <= i < |rs| && 0 <= j < |rs| && i != j ==> Disjoint(rs[i], rs[j])
  }

  predicate Different(a: ComponentReport, b: ComponentReport) {
    a.componentId != b.componentId
  }

  ghost predicate DistinctIds(rs: seq<ComponentReport>) {
    forall i, j {:trigger Different(rs[i], rs[j])} ::
      0 <= i < |rs| && 0 <= j < |rs| && i != j ==> Different(rs[i], rs[j])
  }

  ghost predicate Substantial(rs: seq<ComponentReport>) {
    forall i :: 0 <= i < |rs| ==> rs[i].entityIds != {} && rs[i].activeRelationIds != {}
  }

  lemma ActiveIdsAreDisjoint(g: Graph, a: set<Id>, b: set<Id>)
    requires Valid(g) && a !! b
    ensures RelationIds(ActiveRelations(ComponentSubgraph(g, a)))
            !! RelationIds(ActiveRelations(ComponentSubgraph(g, b)))
  {
    ActiveInSubgraph(g, a);
    ActiveInSubgraph(g, b);
    forall x | x in RelationIds(ActiveRelations(ComponentSubgraph(g, a)))
      ensures x !in RelationIds(ActiveRelations(ComponentSubgraph(g, b)))
    {
      var r :| r in ActiveRelations(ComponentSubgraph(g, a)) && r.id == x;
      if x in RelationIds(ActiveRelations(ComponentSubgraph(g, b))) {
        var q :| q in ActiveRelations(ComponentSubgraph(g, b)) && q.id == x;
        SameIdSameRelation(g, r, q);
      }
    }
  }

  lemma SameIdSameRelation(g: Graph, r: Relation, q: Relation)
    requires Valid(g) && r in g.relations && q in g.relations && r.id == q.id
    ensures r == q
  {
    var i :| 0 <= i < |g.relations| && g.relations[i] == r;
    var j :| 0 <= j < |g.relations| && g.relations[j] == q;
  }

  lemma ComponentHasActiveRelation(g: Graph, i: nat)
    requires i < |ActiveComponents(g)|
    ensures RelationIds(ActiveRelations(ComponentSubgraph(g, ActiveComponents(g)[i]))) != {}
  {
    hide ActiveComponents, ActiveEntities, ComponentSubgraph, ActiveRelations, ActiveLinks, IsClass;
    var c := ActiveComponents(g)[i];
    ComponentIsClass(g, i);
    ComponentIsSeparated(g, i);
    ActiveLinksMeaning(g);
    ActiveInSubgraph(g, c);
    var x := SomeElement(c);
    var r :| r in g.relations && Active(r) && Touches(r, x);
    assert r.source in c && r.target in c;
    assert r.id in RelationIds(ActiveRelations(ComponentSubgraph(g, c)));
  }

  lemma ReportsAreApart(g: Graph, digest: ComponentDigest)
    requires Valid(g)
    ensures AllDisjoint(ReportsOf(g, ActiveComponents(g), digest))
    ensures Substantial(ReportsOf(g, ActiveComponents(g), digest))
  {
    hide Valid, ActiveComponents, ComponentSubgraph;
    var parts := ActiveComponents(g);
    var rs := ReportsOf(g, parts, digest);
    PartsAreDisjoint(g);
    forall i, j | 0 <= i < |rs| && 0 <= j < |rs| && i != j ensures Disjoint(rs[i], rs[j]) {
      ActiveIdsAreDisjoint(g, parts[i], parts[j]);
    }
    forall i | 0 <= i < |rs| ensures rs[i].entityIds != {} && rs[i].activeRelationIds != {} {
      ComponentIsClass(g, i);
      ComponentHasActiveRelation(g, i);
    }
  }

  lemma PartsAreDisjoint(g: Graph)
    ensures forall i, j :: 0 <= i < |ActiveComponents(g)| && 0 <= j < |ActiveComponents(g)| && i != j ==>
                             ActiveComponents(g)[i] !! ActiveComponents(g)[j]
  {
    ComponentsPartitionEntities(g);
    var parts := ActiveComponents(g);
    forall i, j | 0 <= i < |parts| && 0 <= j < |parts| && i != j ensures parts[i] !! parts[j] {
      if i < j {
        assert parts[i] !! parts[j];
      } else {
        assert parts[j] !! parts[i];
      }
    }
  }

  lemma DisjointAreDistinct(rs: seq<ComponentReport>)
    requires AllDisjoint(rs) && Substantial(rs)
    ensures NoDuplicates(rs)
  {
    forall i, j | 0 <= i < j < |rs| ensures rs[i] != rs[j] {
      assert Disjoint(rs[i], rs[j]);
    }
  }

  lemma SortKeepsApart(rs: seq<ComponentReport>)
    requires AllDisjoint(rs) && Substantial(rs)
    ensures AllDisjoint(Sort(rs, RiskOrder)) && Substantial(Sort(rs, RiskOrder))
  {
    hide Sort;
    var sorted := Sort(rs, RiskOrder);
    SortPermutes(rs, RiskOrder);
    DisjointAreDistinct(rs);
    SortKeepsDistinct(rs, RiskOrder);
    forall i, j | 0 <= i < |sorted| && 0 <= j < |sorted| && i != j ensures Disjoint(sorted[i], sorted[j]) {
      assert sorted[i] in rs && sorted[j] in rs && sorted[i] != sorted[j];
      var a :| 0 <= a < |rs| && rs[a] == sorted[i];
      var b :| 0 <= b < |rs| && rs[b] == sorted[j];
      assert Disjoint(rs[a], rs[b]);
    }
    forall i | 0 <= i < |sorted| ensures sorted[i].entityIds != {} && sorted[i].activeRelationIds != {} {
      assert sorted[i] in rs;
    }
  }

  lemma DifferentInAnyOrder(rs: seq<ComponentReport>)
    requires NoDuplicates(rs)
    ensures DistinctIds(rs) <==> forall a, b :: a in rs && b in rs && a != b ==> Different(a, b)
  {
    if DistinctIds(rs) {
      forall a, b | a in rs && b in rs && a != b ensures Different(a, b) {
        var i :| 0 <= i < |rs| && rs[i] == a;
        var j :| 0 <= j < |rs| && rs[j] == b;
      }
    }
  }

  lemma SortKeepsIds(rs: seq<ComponentReport>)
    requires AllDisjoint(rs) && Substantial(rs)
    ensures DistinctIds(Sort(rs, RiskOrder)) <==> DistinctIds(rs)
  {
    hide Sort, DistinctIds;
    DisjointAreDistinct(rs);
    SortKeepsDistinct(rs, RiskOrder);
    SortPermutes(rs, RiskOrder);
    DifferentInAnyOrder(rs);
    DifferentInAnyOrder(Sort(rs, RiskOrder));
  }

  /**
   Whatever the identifiers are, the listed components have pairwise disjoint entities and pairwise disjoint
   active relations, and none is empty.
   */
  lemma ComponentsAreApart(g: Graph, digest: ComponentDigest)
    requires Valid(g)
    ensures AllDisjoint(Components(g, digest)) && Substantial(Components(g, digest))
  {
    ReportsAreApart(g, digest);
    SortKeepsApart(ReportsOf(g, ActiveComponents(g), digest));
  }

  /** A listed component is the report on one connectivity class, and every class is listed. */
  lemma ComponentsMeaning(g: Graph, digest: ComponentDigest)
    ensures forall c :: c in Components(g, digest) ==>
              exists i :: 0 <= i < |ActiveComponents(g)| && c == ComponentReportOf(g, ActiveComponents(g)[i], digest)
    ensures forall i :: 0 <= i < |ActiveComponents(g)| ==>
              ComponentReportOf(g, ActiveComponents(g)[i], digest) in Components(g, digest)
    ensures |Components(g, digest)| == |ActiveComponents(g)|
  {
    var parts := ActiveComponents(g);
    var rs := ReportsOf(g, parts, digest);
    SortPermutes(rs, RiskOrder);
    forall c | c in Components(g, digest)
      ensures exists i :: 0 <= i < |parts| && c == ComponentReportOf(g, parts[i], digest)
    {
      assert c in rs;
      var i :| 0 <= i < |rs| && rs[i] == c;
    }
    forall i | 0 <= i < |parts| ensures ComponentReportOf(g, parts[i], digest) in Components(g, digest) {
      assert rs[i] in rs;
    }
  }

  /** Some listed component holds an entity exactly when an active relation touches it. */
  lemma InSomeComponentIff(g: Graph, digest: ComponentDigest, x: Id)
    ensures (exists i :: 0 <= i < |Components(g, digest)| && x in Components(g, digest)[i].entityIds)
            <==> x in ActiveEntities(g)
  {
    hide Components, ActiveEntities, ActiveComponents;
    var cs, parts := Components(g, digest), ActiveComponents(g);
    ComponentsMeaning(g, digest);
    ComponentsPartitionEntities(g);
    if i :| 0 <= i < |cs| && x in cs[i].entityIds {
      assert cs[i] in cs;
      var k :| 0 <= k < |parts| && cs[i] == ComponentReportOf(g, parts[k], digest);
      assert parts[k] <= ActiveEntities(g);
    }
    if x in ActiveEntities(g) {
      assert InSomePart(parts, x);
      var k :| 0 <= k < |parts| && x in parts[k];
      var c := ComponentReportOf(g, parts[k], digest);
      assert c in cs;
      var i :| 0 <= i < |cs| && cs[i] == c;
    }
  }

  /** The primary component has top rank among the candidates: nothing it was chosen from outranks it. */
  lemma {:induction false} BestIsNotOutranked(rs: seq<ComponentReport>)
    requires rs != []
    ensures forall c :: c in rs ==> !Outranks(c, Best(rs))
  {
    if |rs| > 1 {
      BestIsNotOutranked(rs[..|rs| - 1]);
      assert rs == rs[..|rs| - 1] + [rs[|rs| - 1]];
    }
  }

  /** Focusing on any entity of a component selects exactly that component. */
  lemma FocusSelectsComponent(components: seq<ComponentReport>, i: nat, x: Id)
    requires AllDisjoint(components) && i < |components| && x in components[i].entityIds
    ensures PrimaryComponent(components, {x}) == Some(components[i])
  {
    var focused := Filter(components, Meets({x}));
    FilterKeeps(components, Meets({x}));
    assert x in {x} * components[i].entityIds;
    assert components[i] in components;
    assert components[i] in focused;
    forall c | c in focused ensures c == components[i] {
      var k :| 0 <= k < |components| && components[k] == c;
      var y :| y in {x} * c.entityIds;
      SharedEntityMeansSame(components, k, i, x);
    }
  }

  lemma SharedEntityMeansSame(components: seq<ComponentReport>, i: nat, j: nat, x: Id)
    requires AllDisjoint(components) && i < |components| && j < |components|
    requires x in components[i].entityIds && x in components[j].entityIds
    ensures i == j
  {
    var a, b := components[i], components[j];
    assert Disjoint(a, b) ==> x !in b.entityIds;
  }
}
