/** The base defense plan of a state graph (active_defense_planner.py). */
module DefensePlanner {
  import opened Ordering
  import opened StateGraph
  import opened AttackComponents
  import opened StageScoring
  import opened CutPoints
  import opened AttackProgression
  import opened DefenseAuthority

  datatype ActivePlan = ActivePlan(
    graphId: GraphId, assessment: Assessment, decision: Decision, progression: ProgressionReport,
    authorized: seq<CutPoint>, withheld: seq<CutPoint>, criticalIds: set<Id>)

  datatype PlanError = UNKNOWN_CRITICAL(ids: set<Id>) | UNKNOWN_FOCUS(ids: set<Id>) | GRAPH_ID_TOO_LONG

  // ----- what the assessment is made of

  predicate Corroborates(r: Relation) {
    r.status.OBSERVED? || r.status.INFERRED?
  }

  predicate Counts(activeIds: set<Id>, r: Relation) {
    r.id in activeIds && Corroborates(r)
  }

  /** The evidence identifiers of the corroborating relations among the given ones. */
  ghost function EvidenceIds(rs: seq<Relation>, activeIds: set<Id>): set<Id> {
    set r, e | r in rs && Counts(activeIds, r) && e in r.evidence :: e.evidenceId
  }

  function IdsOf(evidence: seq<EvidenceRef>): set<Id> {
    set e | e in evidence :: e.evidenceId
  }

  /** `_corroborating_evidence`. */
  method CorroboratingEvidence(g: Graph, activeIds: set<Id>) returns (count: nat)
    ensures count == |EvidenceIds(g.relations, activeIds)|
  {
    var ids: set<Id> := {};
    var i := 0;
    while i < |g.relations|
      invariant 0 <= i <= |g.relations|
      invariant ids == EvidenceIds(g.relations[..i], activeIds)
    {
      var r := g.relations[i];
      assert g.relations[..i + 1] == g.relations[..i] + [r];
      EvidenceStep(g.relations[..i], r, activeIds);
      if Counts(activeIds, r) {
        ids := ids + IdsOf(r.evidence);
      }
      i := i + 1;
    }
    assert g.relations[..i] == g.relations;
    count := |ids|;
  }

  lemma EvidenceStep(rs: seq<Relation>, r: Relation, activeIds: set<Id>)
    ensures EvidenceIds(rs + [r], activeIds)
            == EvidenceIds(rs, activeIds) + (if Counts(activeIds, r) then IdsOf(r.evidence) else {})
  {
    var all := EvidenceIds(rs + [r], activeIds);
    var parts := EvidenceIds(rs, activeIds) + (if Counts(activeIds, r) then IdsOf(r.evidence) else {});
    forall x | x in all ensures x in parts {
      var q, e :| q in rs + [r] && Counts(activeIds, q) && e in q.evidence && e.evidenceId == x;
      if q != r {
        assert q in rs;
      }
    }
    forall x | x in parts ensures x in all {
      if x in EvidenceIds(rs, activeIds) {
        var q, e :| q in rs && Counts(activeIds, q) && e in q.evidence && e.evidenceId == x;
        assert q in rs + [r];
      } else {
        var e :| e in r.evidence && e.evidenceId == x;
        assert r in rs + [r];
      }
    }
  }

  predicate TouchesCritical(r: Relation, critical: set<Id>) {
    r.source in critical || r.target in critical
  }

  /** An active relation of the primary component touches a critical entity, or a cut point sits on one. */
  ghost predicate CriticalAtRisk(g: Graph, report: ProgressionReport, critical: set<Id>) {
    || (exists r :: r in g.relations && r.id in report.activeRelationIds && TouchesCritical(r, critical))
    || (exists c :: c in report.cutPoints && c.entityId in critical)
  }

  /** `_critical_asset_at_risk`. */
  method ComputeCriticalAtRisk(g: Graph, report: ProgressionReport, critical: set<Id>) returns (risk: bool)
    ensures risk == CriticalAtRisk(g, report, critical)
  {
    if critical == {} {
      return false;
    }
    var i := 0;
    while i < |g.relations|
      invariant 0 <= i <= |g.relations|
      invariant forall j :: 0 <= j < i ==>
                  !(g.relations[j].id in report.activeRelationIds && TouchesCritical(g.relations[j], critical))
    {
      if g.relations[i].id in report.activeRelationIds && TouchesCritical(g.relations[i], critical) {
        return true;
      }
      i := i + 1;
    }
    risk := exists c :: c in report.cutPoints && c.entityId in critical;
  }

  function HasActiveId(activeIds: set<Id>): Relation -> bool {
    (r: Relation) => r.id in activeIds
  }

  /** `_evidence_gap`. */
  predicate EvidenceGap(g: Graph, report: ProgressionReport) {
    var relevant := Filter(g.relations, HasActiveId(report.activeRelationIds));
    var observed := |Filter(relevant, IsObserved)|;
    var inferred := |Filter(relevant, IsInferred)|;
    relevant == [] || observed == 0 || inferred > observed
  }

  predicate Strong(row: StageEvidence) {
    row.score >= 0.5
  }

  predicate ActiveProgression(report: ProgressionReport) {
    var strong := Filter(report.stages, Strong);
    |strong| >= 2 || (strong != [] && report.predicted != [])
  }

  ghost function AssessmentOf(g: Graph, report: ProgressionReport, critical: set<Id>): Assessment {
    Assessment(report.confidence, |EvidenceIds(g.relations, report.activeRelationIds)|,
               CriticalAtRisk(g, report, critical), ActiveProgression(report), MaxEffect(report.cutPoints),
               EvidenceGap(g, report))
  }

  // ----- the plan

  function Allowed(actions: seq<DefenseAction>): CutPoint -> bool {
    (c: CutPoint) => c.action in actions
  }

  function Refused(actions: seq<DefenseAction>): CutPoint -> bool {
    (c: CutPoint) => c.action !in actions
  }

  /** The plan for a report once its assessment is made. */
  function PlanFrom(g: Graph, report: ProgressionReport, assessment: Assessment, critical: set<Id>): ActivePlan {
    var decision := DecideMode(assessment);
    ActivePlan(g.id, assessment, decision, report, Filter(report.cutPoints, Allowed(decision.permitted)),
               Filter(report.cutPoints, Refused(decision.permitted)), critical)
  }

  ghost function BasePlan(g: Graph, critical: set<Id>, focus: set<Id>, digest: ComponentDigest): ActivePlan {
    var report := Analysis(g, if focus != {} then focus else critical, digest);
    PlanFrom(g, report, AssessmentOf(g, report, critical), critical)
  }

  lemma NothingLeft(a: set<Id>, b: set<Id>)
    ensures a - b == {} <==> a <= b
  {
    forall x | a - b == {} && x in a ensures x in b {
      assert x !in a - b;
    }
  }

  /** The name of the assessment, the graph's name with a prefix, fits its field. */
  predicate Plannable(g: Graph) {
    FitsIdField(g.id.length + |"assessment:"|)
  }

  /** `build_active_defense_plan`: critical entities steer the component choice only when nothing is focused. */
  method BuildActiveDefensePlan(g: Graph, critical: set<Id>, focus: set<Id>, digest: ComponentDigest)
    returns (result: Result<ActivePlan, PlanError>)
    requires Valid(g)
    ensures result.Ok? <==> critical <= EntityIds(g) && focus <= EntityIds(g) && Plannable(g)
    ensures result.Ok? ==> result.value == BasePlan(g, critical, focus, digest)
    ensures result.Err? ==>
              result.error == if !(critical <= EntityIds(g)) then UNKNOWN_CRITICAL(critical - EntityIds(g))
                              else if !(focus <= EntityIds(g)) then UNKNOWN_FOCUS(focus - EntityIds(g))
                              else GRAPH_ID_TOO_LONG
  {
    var known := EntityIds(g);
    NothingLeft(critical, known);
    NothingLeft(focus, known);
    var unknownCritical := critical - known;
    if unknownCritical != {} {
      return Err(UNKNOWN_CRITICAL(unknownCritical));
    }
    var unknownFocus := focus - known;
    if unknownFocus != {} {
      return Err(UNKNOWN_FOCUS(unknownFocus));
    }
    var analysis := AnalyzeAttackProgression(g, if focus != {} then focus else critical, digest);
    if analysis.Err? {
      return Err(GRAPH_ID_TOO_LONG);
    }
    var report := analysis.value;
    var count := CorroboratingEvidence(g, report.activeRelationIds);
    var atRisk := ComputeCriticalAtRisk(g, report, critical);
    var assessment := Assessment(report.confidence, count, atRisk, ActiveProgression(report),
                                 MaxEffect(report.cutPoints), EvidenceGap(g, report));
    if !Plannable(g) {
      return Err(GRAPH_ID_TOO_LONG);
    }
    result := Ok(PlanFrom(g, report, assessment, critical));
  }

  // ----- what every plan promises

  lemma {:induction false} SplitMultiset(cuts: seq<CutPoint>, actions: seq<DefenseAction>)
    ensures multiset(Filter(cuts, Allowed(actions))) + multiset(Filter(cuts, Refused(actions))) == multiset(cuts)
  {
    hide Filter;
    FilterFirst(cuts, Allowed(actions));
    FilterFirst(cuts, Refused(actions));
    if cuts != [] {
      var first, rest := cuts[0], cuts[1..];
      SplitMultiset(rest, actions);
      var allowed, refused := Filter(rest, Allowed(actions)), Filter(rest, Refused(actions));
      assert cuts == [first] + rest;
      if first.action in actions {
        assert Filter(cuts, Allowed(actions)) == [first] + allowed && Filter(cuts, Refused(actions)) == refused;
      } else {
        assert Filter(cuts, Allowed(actions)) == allowed && Filter(cuts, Refused(actions)) == [first] + refused;
      }
    }
  }

  lemma FilterFirst<T(!new)>(s: seq<T>, keep: T -> bool)
    ensures s == [] ==> Filter(s, keep) == []
    ensures s != [] ==> Filter(s, keep) == if keep(s[0]) then [s[0]] + Filter(s[1..], keep) else Filter(s[1..], keep)
  {
    if s != [] {
      assert [] + Filter(s[1..], keep) == Filter(s[1..], keep);
    }
  }

  /** Authorized and withheld cut points split a list: each cut point goes to exactly one side. */
  lemma SplitConserves(cuts: seq<CutPoint>, actions: seq<DefenseAction>)
    ensures multiset(Filter(cuts, Allowed(actions))) + multiset(Filter(cuts, Refused(actions))) == multiset(cuts)
    ensures forall c :: c in Filter(cuts, Allowed(actions)) <==> c in cuts && c.action in actions
    ensures forall c :: c in Filter(cuts, Refused(actions)) <==> c in cuts && c.action !in actions
  {
    hide Filter;
    SplitMultiset(cuts, actions);
    FilterKeeps(cuts, Allowed(actions));
    FilterKeeps(cuts, Refused(actions));
  }

  /**
   The cut points of an analysis lie on entities of its primary component; without a component there are none.
   */
  lemma CutsStayInPrimary(g: Graph, focus: set<Id>, digest: ComponentDigest, c: CutPoint)
    requires c in Analysis(g, focus, digest).cutPoints
    ensures var primary := PrimaryComponent(Components(g, digest), focus);
            primary.Some? && c.entityId in primary.value.entityIds
  {
    var components := Components(g, digest);
    var primary := PrimaryComponent(components, focus);
    FilterKeeps(components, Meets(focus));
    assert primary.value in components;
    ComponentsMeaning(g, digest);
    var i :| 0 <= i < |ActiveComponents(g)| && primary.value == ComponentReportOf(g, ActiveComponents(g)[i], digest);
    ComponentCutsInside(g, ActiveComponents(g)[i], c);
  }

  lemma ComponentCutsInside(g: Graph, ids: set<Id>, c: CutPoint)
    requires c in DefensiveCutPoints(ComponentSubgraph(g, ids))
    ensures c.entityId in ids
  {
    var sub := ComponentSubgraph(g, ids);
    CutPointsStayInside(sub, c);
    FilterKeeps(g.entities, EntityInside(ids));
  }

  /** How a plan is put together. */
  lemma BasePlanShape(g: Graph, critical: set<Id>, focus: set<Id>, digest: ComponentDigest)
    ensures var plan := BasePlan(g, critical, focus, digest);
            && plan.graphId == g.id
            && plan.progression == Analysis(g, if focus != {} then focus else critical, digest)
            && plan.decision.permitted == ActionsOf(plan.decision.mode)
            && plan.authorized == Filter(plan.progression.cutPoints, Allowed(plan.decision.permitted))
            && plan.withheld == Filter(plan.progression.cutPoints, Refused(plan.decision.permitted))
  {
    hide Analysis, Filter;
  }

  /**
   A plan splits the cut points of the primary component in two, and an authorized action is one the decided
   mode permits.
   */
  lemma PlanSplitsPrimaryCutPoints(g: Graph, critical: set<Id>, focus: set<Id>, digest: ComponentDigest)
    ensures var plan := BasePlan(g, critical, focus, digest);
            && multiset(plan.authorized) + multiset(plan.withheld) == multiset(plan.progression.cutPoints)
            && (forall c :: c in plan.authorized ==> Permitted(plan.decision.mode, c.action))
            && (forall c :: c in plan.withheld ==> !Permitted(plan.decision.mode, c.action))
            && (forall c :: c in plan.authorized + plan.withheld ==>
                  var primary := PrimaryComponent(Components(g, digest), if focus != {} then focus else critical);
                  primary.Some? && c.entityId in primary.value.entityIds)
  {
    var steer := if focus != {} then focus else critical;
    var plan := BasePlan(g, critical, focus, digest);
    BasePlanShape(g, critical, focus, digest);
    hide BasePlan, DecideMode, Analysis, PrimaryComponent, Filter, ActionsOf;
    SplitConserves(plan.progression.cutPoints, plan.decision.permitted);
    forall c | c in plan.authorized + plan.withheld
      ensures PrimaryComponent(Components(g, digest), steer).Some?
              && c.entityId in PrimaryComponent(Components(g, digest), steer).value.entityIds
    {
      CutsStayInPrimary(g, steer, digest, c);
    }
  }
}
