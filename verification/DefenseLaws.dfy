/** When a plan is allowed to act, said of the graph: what earns a mode, and what the mode then permits. */
module DefenseLaws {
  import opened Ordering
  import opened StateGraph
  import opened AttackComponents
  import opened StageScoring
  import opened CutPoints
  import opened AttackProgression
  import opened AttackRisk
  import opened DefenseAuthority
  import opened DefensePlanner
  import opened DefenseAssurance

  const IMPACT: Stage := 13

  // ----- an attack under way

  /** Some row gives the stage at least half. */
  predicate Believed(rows: seq<StageEvidence>, stage: Stage) {
    exists row :: row in rows && row.stage == stage && row.score >= 0.5
  }

  lemma {:induction false} RowsAscend(rs: seq<Relation>, limit: nat)
    requires limit <= 14
    ensures forall row :: row in StageRows(rs, limit) ==> row.stage < limit
    ensures Pairwise(StageRows(rs, limit), (a: StageEvidence, b: StageEvidence) => a.stage < b.stage)
  {
    if limit > 0 {
      RowsAscend(rs, limit - 1);
    }
  }

  lemma StrongRows(rs: seq<Relation>)
    ensures var rows := StageRows(rs, 14); var strong := Filter(rows, Strong);
            && (forall row :: row in strong <==> row in rows && row.score >= 0.5)
            && (forall i, j :: 0 <= i < j < |strong| ==> strong[i].stage < strong[j].stage)
  {
    var rows := StageRows(rs, 14);
    var before := (a: StageEvidence, b: StageEvidence) => a.stage < b.stage;
    RowsAscend(rs, 14);
    FilterKeeps(rows, Strong);
    FilterKeepsPairwise(rows, Strong, before);
    hide Filter;
  }

  lemma TwoStrong(strong: seq<StageEvidence>, a: StageEvidence, b: StageEvidence)
    requires a in strong && b in strong && a != b
    ensures |strong| >= 2
  {
    var i :| 0 <= i < |strong| && strong[i] == a;
    var j :| 0 <= j < |strong| && strong[j] == b;
  }

  lemma CurrentIsBelieved(rs: seq<Relation>)
    ensures var rows := StageRows(rs, 14);
            && (CurrentStage(rows).Some? ==> Believed(rows, CurrentStage(rows).value))
            && (CurrentStage(rows).None? ==> forall s :: !Believed(rows, s))
  {
    var rows := StageRows(rs, 14);
    FilterKeeps(rows, Credible);
    if Filter(rows, Credible) != [] {
      TopRowIsTop(Filter(rows, Credible));
    }
  }

  lemma SomethingFollows(stage: Stage)
    ensures Successors(stage) != [] <==> stage != IMPACT
    ensures stage !in Successors(stage)
  {
  }

  /** From the only believed stage something is predicted, unless that stage is IMPACT. */
  lemma OnlyStagePredicts(rs: seq<Relation>, stage: Stage)
    requires var rows := StageRows(rs, 14);
             Believed(rows, stage) && forall s: Stage :: Believed(rows, s) ==> s == stage
    ensures var rows := StageRows(rs, 14);
            Predictions(CurrentStage(rows), rows) != [] <==> stage != IMPACT
  {
    var rows := StageRows(rs, 14);
    CurrentIsBelieved(rs);
    SomethingFollows(stage);
    PredictedIff(stage, rows);
    hide StageRows, CurrentStage, Predictions, Successors;
    assert CurrentStage(rows) == Some(stage);
    if stage != IMPACT {
      var next := Successors(stage)[0];
      assert next in Successors(stage) && !Believed(rows, next);
      assert Ahead(stage, rows, next);
    }
  }

  lemma PredictedIff(current: Stage, rows: seq<StageEvidence>)
    ensures Predictions(Some(current), rows) != [] <==> exists s :: Ahead(current, rows, s)
  {
    PredictionsMeaning(current, rows);
    hide Predictions, Ahead;
    var ps := Predictions(Some(current), rows);
    if ps != [] {
      assert ps[0] in ps && Ahead(current, rows, ps[0].to);
    }
  }

  /** Two believed stages, or one with something predicted, is the same as one believed stage before IMPACT. */
  lemma ProgressionIff(rs: seq<Relation>)
    ensures var rows := StageRows(rs, 14); var strong := Filter(rows, Strong);
            |strong| >= 2 || (strong != [] && Predictions(CurrentStage(rows), rows) != [])
            <==> exists s: Stage :: s != IMPACT && Believed(rows, s)
  {
    var rows := StageRows(rs, 14);
    var strong := Filter(rows, Strong);
    StrongRows(rs);
    hide StageRows, CurrentStage, Predictions, Filter;
    if |strong| >= 2 {
      assert strong[0] in strong && strong[1] in strong && strong[0].stage < strong[1].stage;
      assert Believed(rows, strong[0].stage);
    } else if |strong| == 1 {
      assert strong[0] in strong && Believed(rows, strong[0].stage);
      forall s: Stage | Believed(rows, s) ensures s == strong[0].stage {
        var row :| row in rows && row.stage == s && row.score >= 0.5;
        assert row in strong;
      }
      OnlyStagePredicts(rs, strong[0].stage);
    } else {
      forall s: Stage ensures !Believed(rows, s) {
        forall row | row in rows && row.stage == s ensures row.score < 0.5 {
          assert row !in strong;
        }
      }
    }
  }

  /** The graph's primary component for a focus. */
  ghost function PrimaryOf(g: Graph, focus: set<Id>, digest: ComponentDigest): Option<ComponentReport> {
    PrimaryComponent(Components(g, digest), focus)
  }

  lemma PrimaryIsReport(g: Graph, focus: set<Id>, digest: ComponentDigest) returns (k: nat)
    requires PrimaryOf(g, focus, digest).Some?
    ensures k < |ActiveComponents(g)|
    ensures PrimaryOf(g, focus, digest).value == ComponentReportOf(g, ActiveComponents(g)[k], digest)
  {
    hide Components, ActiveComponents, ComponentReportOf;
    var components := Components(g, digest);
    FilterKeeps(components, Meets(focus));
    assert PrimaryOf(g, focus, digest).value in components;
    ComponentsMeaning(g, digest);
    k :| 0 <= k < |ActiveComponents(g)|
         && PrimaryOf(g, focus, digest).value == ComponentReportOf(g, ActiveComponents(g)[k], digest);
  }

  /** An attack is under way when some stage before IMPACT is believed in its primary component. */
  ghost predicate UnderWay(primary: Option<ComponentReport>) {
    primary.Some? && exists s: Stage :: s != IMPACT && Believed(primary.value.stages, s)
  }

  lemma ActiveProgressionMeaning(g: Graph, focus: set<Id>, digest: ComponentDigest)
    ensures ActiveProgression(Analysis(g, focus, digest)) <==> UnderWay(PrimaryOf(g, focus, digest))
  {
    hide Components, ActiveComponents, ComponentSubgraph, StageRows, CurrentStage, Predictions, Believed;
    if PrimaryOf(g, focus, digest).Some? {
      var k := PrimaryIsReport(g, focus, digest);
      ProgressionIff(ComponentSubgraph(g, ActiveComponents(g)[k]).relations);
    }
  }

  // ----- critical entities

  /** An active relation of a component has both ends in it. */
  lemma ActiveInside(g: Graph, ids: set<Id>, r: Relation)
    requires Valid(g) && r in g.relations && r.id in RelationIds(ActiveRelations(ComponentSubgraph(g, ids)))
    ensures r.source in ids && r.target in ids
  {
    var q :| q in ActiveRelations(ComponentSubgraph(g, ids)) && q.id == r.id;
    ActiveInSubgraph(g, ids);
    SameIdSameRelation(g, r, q);
    FilterKeeps(g.relations, RelationInside(ids));
  }

  lemma EntityIsTouched(g: Graph, k: nat, x: Id) returns (r: Relation)
    requires k < |ActiveComponents(g)| && x in ActiveComponents(g)[k]
    ensures r in g.relations && Touches(r, x)
    ensures r.id in RelationIds(ActiveRelations(ComponentSubgraph(g, ActiveComponents(g)[k])))
  {
    hide ActiveComponents, ActiveEntities, ComponentSubgraph, ActiveRelations, ActiveLinks, IsClass;
    var c := ActiveComponents(g)[k];
    ComponentIsClass(g, k);
    ComponentIsSeparated(g, k);
    ActiveLinksMeaning(g);
    ActiveInSubgraph(g, c);
    r :| r in g.relations && Active(r) && Touches(r, x);
    assert r.source in c && r.target in c;
  }

  /** A critical entity is at risk exactly when the primary component holds one. */
  lemma CriticalAtRiskIff(g: Graph, focus: set<Id>, digest: ComponentDigest, critical: set<Id>)
    requires Valid(g)
    ensures CriticalAtRisk(g, Analysis(g, focus, digest), critical) <==>
              PrimaryOf(g, focus, digest).Some? && critical * PrimaryOf(g, focus, digest).value.entityIds != {}
  {
    hide Components, ActiveComponents, ComponentSubgraph, Valid, RelationIds, DefensiveCutPoints, PrimaryComponent;
    var report, primary := Analysis(g, focus, digest), PrimaryOf(g, focus, digest);
    if primary.Some? {
      var k := PrimaryIsReport(g, focus, digest);
      var ids := ActiveComponents(g)[k];
      ReportIs(g, focus, digest, k);
      hide Analysis, ComponentReportOf;
      if r :| r in g.relations && r.id in report.activeRelationIds && TouchesCritical(r, critical) {
        ActiveInside(g, ids, r);
        assert (if r.source in critical then r.source else r.target) in critical * ids;
      }
      if c :| c in report.cutPoints && c.entityId in critical {
        ComponentCutsInside(g, ids, c);
        assert c.entityId in critical * ids;
      }
      if critical * ids != {} {
        var x := SomeElement(critical * ids);
        var r := EntityIsTouched(g, k, x);
        assert TouchesCritical(r, critical);
      }
    }
  }

  lemma ReportIs(g: Graph, focus: set<Id>, digest: ComponentDigest, k: nat)
    requires k < |ActiveComponents(g)| && PrimaryOf(g, focus, digest).Some?
    requires PrimaryOf(g, focus, digest).value == ComponentReportOf(g, ActiveComponents(g)[k], digest)
    ensures var report, sub := Analysis(g, focus, digest), ComponentSubgraph(g, ActiveComponents(g)[k]);
            && report.activeRelationIds == RelationIds(ActiveRelations(sub))
            && report.cutPoints == DefensiveCutPoints(sub)
            && PrimaryOf(g, focus, digest).value.entityIds == ActiveComponents(g)[k]
  {
    hide Components, ActiveComponents, ComponentSubgraph;
  }

  // ----- what earns a mode

  /** At least two different pieces of evidence stand behind the active relations of the component. */
  ghost predicate Corroborated(g: Graph, c: ComponentReport) {
    exists r, e, r', e' ::
      && Backs(g, c, r, e) && Backs(g, c, r', e') && e.evidenceId != e'.evidenceId
  }

  ghost predicate Backs(g: Graph, c: ComponentReport, r: Relation, e: EvidenceRef) {
    && r in g.relations && r.id in c.activeRelationIds && (r.status == OBSERVED || r.status == INFERRED)
    && e in r.evidence
  }

  lemma TwoElements<T(!new)>(s: set<T>)
    ensures |s| >= 2 <==> exists a, b :: a in s && b in s && a != b
  {
    if |s| >= 2 {
      var a := SomeElement(s);
      assert |s - {a}| >= 1;
      var b := SomeElement(s - {a});
    }
    if a, b :| a in s && b in s && a != b {
      SubsetCardinality({a, b}, s);
    }
  }

  lemma CorroboratedIff(g: Graph, c: ComponentReport)
    ensures Corroborated(g, c) <==> |EvidenceIds(g.relations, c.activeRelationIds)| >= 2
  {
    var ids := EvidenceIds(g.relations, c.activeRelationIds);
    TwoElements(ids);
    if |ids| >= 2 {
      var a, b :| a in ids && b in ids && a != b;
      var r, e :| r in g.relations && Counts(c.activeRelationIds, r) && e in r.evidence && e.evidenceId == a;
      var r', e' :| r' in g.relations && Counts(c.activeRelationIds, r') && e' in r'.evidence && e'.evidenceId == b;
      assert Backs(g, c, r, e) && Backs(g, c, r', e');
    }
    if r, e, r', e' :| Backs(g, c, r, e) && Backs(g, c, r', e') && e.evidenceId != e'.evidenceId {
      assert e.evidenceId in ids && e'.evidenceId in ids;
    }
  }

  /**
   The mode of a base plan, read off the primary component: Siege needs confidence 0.95, an attack under way, a critical
   entity inside, a cut point that reaches 0.7 and two pieces of evidence; Combat confidence 0.8, two pieces of evidence
   and an attack under way or a critical entity inside; everything else, and a graph without a component, is Guard.
   */
  lemma ModeMeaning(g: Graph, critical: set<Id>, focus: set<Id>, digest: ComponentDigest, effect: real)
    requires Valid(g)
    requires var primary := PrimaryOf(g, if focus != {} then focus else critical, digest);
             primary.Some? ==> GreatestEffect(primary.value.cutPoints, effect)
    ensures var primary := PrimaryOf(g, if focus != {} then focus else critical, digest);
            var mode := BasePlan(g, critical, focus, digest).decision.mode;
            && (primary.None? ==> mode == GUARD)
            && (primary.Some? ==>
                  var c := primary.value;
                  var inside := critical * c.entityIds != {};
                  && (mode == SIEGE <==>
                        c.confidence >= 0.95 && UnderWay(primary) && inside && effect >= 0.7 && Corroborated(g, c))
                  && (mode != GUARD <==>
                        c.confidence >= 0.8 && (UnderWay(primary) || inside) && Corroborated(g, c)))
  {
    var steer := if focus != {} then focus else critical;
    var primary := PrimaryOf(g, steer, digest);
    ActiveProgressionMeaning(g, steer, digest);
    CriticalAtRiskIff(g, steer, digest, critical);
    hide Components, PrimaryComponent, ActiveProgression, CriticalAtRisk, UnderWay, Corroborated, EvidenceGap, Valid;
    if primary.Some? {
      GreatestEffectIsOne(primary.value.cutPoints, effect);
      CorroboratedIff(g, primary.value);
    }
    hide EvidenceIds, MaxEffect, GreatestEffect;
  }

  /** The evidence has a gap unless some active relation is observed and no more are inferred than observed. */
  lemma EvidenceGapIff(g: Graph, report: ProgressionReport)
    requires NoDuplicates(g.relations)
    ensures var observed := set r | r in g.relations && r.id in report.activeRelationIds && r.status == OBSERVED;
            var inferred := set r | r in g.relations && r.id in report.activeRelationIds && r.status == INFERRED;
            EvidenceGap(g, report) <==> observed == {} || |inferred| > |observed|
  {
    CountOf(g.relations, report.activeRelationIds, IsObserved, OBSERVED);
    CountOf(g.relations, report.activeRelationIds, IsInferred, INFERRED);
    var relevant := Filter(g.relations, HasActiveId(report.activeRelationIds));
    if relevant == [] {
      assert Filter(relevant, IsObserved) == [];
    }
  }

  lemma CountOf(rs: seq<Relation>, ids: set<Id>, keep: Relation -> bool, status: EvidenceStatus)
    requires NoDuplicates(rs) && forall r :: keep(r) <==> r.status == status
    ensures |Filter(Filter(rs, HasActiveId(ids)), keep)| == |set r | r in rs && r.id in ids && r.status == status|
  {
    var relevant := Filter(rs, HasActiveId(ids));
    var kept := Filter(relevant, keep);
    FilterKeeps(rs, HasActiveId(ids));
    FilterKeeps(relevant, keep);
    CardinalityOfElements(kept);
    assert Elements(kept) == set r | r in rs && r.id in ids && r.status == status;
  }

  /** How long a graph's name may be: 256 characters, 246 if it has a component, 245 to be planned for. */
  lemma NameLimits(g: Graph)
    requires Valid(g)
    ensures 3 <= g.id.length <= 256
    ensures Analysable(g) <==> ActiveEntities(g) == {} || g.id.length <= 246
    ensures Plannable(g) <==> g.id.length <= 245
  {
    hide Valid, ActiveEntities, ActiveComponents;
    NoComponentIff(g);
    NameFits(g);
  }

  lemma NameFits(g: Graph)
    requires Valid(g)
    ensures 3 <= g.id.length <= 256
    ensures SubgraphFits(g) <==> g.id.length <= 246
    ensures Plannable(g) <==> g.id.length <= 245
  {
  }

  lemma NoComponentIff(g: Graph)
    ensures ActiveComponents(g) == [] <==> ActiveEntities(g) == {}
  {
  }

  // ----- what a mode permits

  /** Every action of a cut point is allowed in Combat and Siege; in Guard only blocking a network endpoint is. */
  lemma ModeOfAction(kind: EntityType, mode: DefenseMode)
    requires ActionFor(kind).Some?
    ensures Permitted(mode, ActionFor(kind).value) <==> mode != GUARD || kind == NETWORK_ENDPOINT
  {
    match kind
    case IDENTITY =>
    case DEVICE =>
    case PROCESS =>
    case CREDENTIAL =>
    case PIPELINE =>
    case CLOUD_RESOURCE =>
    case WALLET =>
    case TRANSACTION =>
    case PROTOCOL =>
    case NETWORK_ENDPOINT =>
    case _ =>
  }

  /**
   Above Guard a plan, the gate's included, authorizes every cut point; in Guard exactly those on network endpoints.
   */
  lemma WithheldOnlyInGuard(
    g: Graph, critical: set<Id>, focus: set<Id>, registry: Registry, policy: AssurancePolicy, digest: ComponentDigest,
    c: CutPoint)
    requires c in BasePlan(g, critical, focus, digest).progression.cutPoints
    ensures var base := BasePlan(g, critical, focus, digest);
            c in base.authorized <==> base.decision.mode != GUARD || c.kind == NETWORK_ENDPOINT
    ensures var gated := AssuredPlanOf(g, critical, focus, registry, policy, digest).plan;
            c in gated.authorized <==> gated.decision.mode != GUARD || c.kind == NETWORK_ENDPOINT
  {
    var base := BasePlan(g, critical, focus, digest);
    BasePlanShape(g, critical, focus, digest);
    CutHasItsAction(g, if focus != {} then focus else critical, digest, c);
    hide BasePlan, EffectiveMode, ActionFor;
    ModeOfAction(c.kind, base.decision.mode);
    ModeOfAction(c.kind, AssuredPlanOf(g, critical, focus, registry, policy, digest).plan.decision.mode);
    SplitConserves(base.progression.cutPoints, base.decision.permitted);
    SplitConserves(base.progression.cutPoints,
                   AssuredPlanOf(g, critical, focus, registry, policy, digest).plan.decision.permitted);
    hide ActionsOf;
  }

  lemma CutHasItsAction(g: Graph, focus: set<Id>, digest: ComponentDigest, c: CutPoint)
    requires c in Analysis(g, focus, digest).cutPoints
    ensures ActionFor(c.kind) == Some(c.action)
  {
    hide Components, ActiveComponents, ComponentSubgraph, Candidate, DefensiveCutPoints, Candidates;
    var k := PrimaryIsReport(g, focus, digest);
    var sub := ComponentSubgraph(g, ActiveComponents(g)[k]);
    CutPointsDominate(sub);
    CandidatesMeaning(sub, sub.entities, c);
    var e :| e in sub.entities && HasCandidate(ActiveRelations(sub), e) && c == Candidate(sub, e);
    CandidateAction(sub, e);
  }

  lemma CandidateAction(g: Graph, e: Entity)
    requires HasCandidate(ActiveRelations(g), e)
    ensures ActionFor(Candidate(g, e).kind) == Some(Candidate(g, e).action)
  {
  }

  // ----- the gate's receipt

  /** The source supports an active relation of the base plan. */
  ghost predicate Speaks(g: Graph, base: ActivePlan, source: Id) {
    exists r, e :: r in g.relations && r.id in base.progression.activeRelationIds
                   && (r.status == OBSERVED || r.status == INFERRED) && e in r.evidence && e.source == source
  }

  ghost predicate Enrolled(registry: Registry, source: Id) {
    exists n :: n in registry && n.enabled && n.principal == source
  }

  /**
   The receipt divides the sources behind the active relations into the enrolled ones and the unknown ones, counts the
   domains the enrolled ones belong to, and names base mode, effective mode and whether they differ.
   */
  lemma ReceiptMeaning(
    g: Graph, critical: set<Id>, focus: set<Id>, registry: Registry, policy: AssurancePolicy, digest: ComponentDigest)
    ensures var base := BasePlan(g, critical, focus, digest);
            var assured := AssuredPlanOf(g, critical, focus, registry, policy, digest);
            var receipt := assured.receipt;
            && (forall s :: s in receipt.principals <==> Speaks(g, base, s) && Enrolled(registry, s))
            && (forall s :: s in receipt.unknownSources <==> Speaks(g, base, s) && !Enrolled(registry, s))
            && (forall d :: d in receipt.domains <==>
                  exists n :: n in registry && n.enabled && n.domain == d && n.principal in receipt.principals)
            && receipt.domainCount == |receipt.domains|
            && receipt.graphId == g.id && receipt.relationIds == base.progression.activeRelationIds
            && receipt.baseMode == base.decision.mode && receipt.effectiveMode == assured.plan.decision.mode
            && (receipt.downgraded <==> receipt.baseMode != receipt.effectiveMode)
            && (receipt.highImpact <==> receipt.effectiveMode != GUARD)
            && assured.plan.assessment == base.assessment && assured.plan.progression == base.progression
            && assured.plan.graphId == g.id && assured.plan.criticalIds == critical
  {
    var base := BasePlan(g, critical, focus, digest);
    BasePlanShape(g, critical, focus, digest);
    assert base.criticalIds == critical;
    hide BasePlan;
    SourcesSpeak(g, base);
    AdmittedIsEnrolled(registry);
    hide ActiveSources, Admits, Enrolled, Speaks, EffectiveMode;
    DomainsOfPrincipals(ActiveSources(g.relations, base.progression.activeRelationIds), registry);
  }

  lemma DomainsOfPrincipals(sources: set<Id>, registry: Registry)
    ensures forall d :: d in DomainsOf(sources, registry) <==>
              exists n :: n in registry && n.enabled && n.domain == d && n.principal in PrincipalsOf(sources, registry)
  {
    EnrolledPrincipals(registry);
    hide Admits;
  }

  lemma EnrolledPrincipals(registry: Registry)
    ensures forall n :: n in registry && n.enabled ==> Admits(registry, n.principal)
  {
  }

  lemma AdmittedIsEnrolled(registry: Registry)
    ensures forall s :: Admits(registry, s) <==> Enrolled(registry, s)
  {
  }

  lemma SourcesSpeak(g: Graph, base: ActivePlan)
    ensures forall s :: s in ActiveSources(g.relations, base.progression.activeRelationIds) <==> Speaks(g, base, s)
  {
    forall s ensures s in ActiveSources(g.relations, base.progression.activeRelationIds) <==> Speaks(g, base, s) {
      if Speaks(g, base, s) {
        var r, e :| r in g.relations && r.id in base.progression.activeRelationIds
                    && (r.status == OBSERVED || r.status == INFERRED) && e in r.evidence && e.source == s;
        assert Counts(base.progression.activeRelationIds, r);
      }
    }
  }

  /** Siege takes a Siege base and its minimum of domains, Combat a higher base and either minimum. */
  lemma EffectiveModeMeaning(base: DefenseMode, count: nat, policy: AssurancePolicy)
    ensures var mode := EffectiveMode(base, count, policy);
            && (mode == SIEGE <==> base == SIEGE && count >= policy.siegeMinimum)
            && (mode != GUARD <==> base != GUARD && (count >= policy.siegeMinimum || count >= policy.combatMinimum))
  {
  }

  /**
   Under a policy its validator accepts, a single domain never gets past Guard and two never to Siege, and sixteen
   domains hold nothing back.
   */
  lemma FewDomainsHoldBack(base: DefenseMode, count: nat, policy: AssurancePolicy)
    requires policy.Valid()
    ensures count <= 1 ==> EffectiveMode(base, count, policy) == GUARD
    ensures count <= 2 ==> EffectiveMode(base, count, policy) != SIEGE
    ensures count >= 16 ==> EffectiveMode(base, count, policy) == base
  {
  }
}
