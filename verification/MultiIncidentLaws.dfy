/** Incident boundaries hold by construction, and incidents do not influence each other. */
module MultiIncidentLaws {
  import opened Ordering
  import opened StateGraph
  import opened AttackComponents
  import opened AttackProgression
  import opened AttackRisk
  import opened DefenseAuthority
  import opened DefensePlanner
  import opened DefenseAssurance
  import opened MultiIncident

  // ----- the boundary checks

  /** Focusing on the least entity of a component analyses exactly that component. */
  lemma FocusAnalysesComponent(g: Graph, digest: ComponentDigest, i: nat)
    requires Valid(g) && i < |Components(g, digest)|
    ensures var cs := Components(g, digest);
            && cs[i].entityIds != {}
            && Analysis(g, FocusOn(cs[i].entityIds), digest) == ReportWith(g, cs, Some(cs[i]))
            && PrimaryComponent(cs, FocusOn(cs[i].entityIds)) == Some(cs[i])
  {
    hide Components;
    var cs := Components(g, digest);
    ComponentsAreApart(g, digest);
    FocusSelectsComponent(cs, i, MinOf(cs[i].entityIds));
  }

  lemma PlanShape(
    g: Graph, critical: set<Id>, focus: set<Id>, registry: Registry, policy: AssurancePolicy, digest: ComponentDigest)
    ensures focus != {} ==>
              var assured := AssuredPlanOf(g, critical, focus, registry, policy, digest);
              && assured.plan.progression == Analysis(g, focus, digest)
              && (forall c ::
                    c in assured.plan.authorized + assured.plan.withheld ==> c in Analysis(g, focus, digest).cutPoints)
  {
    var base := BasePlan(g, critical, focus, digest);
    var assured := AssuredPlanOf(g, critical, focus, registry, policy, digest);
    assert focus != {} ==> base.progression == Analysis(g, focus, digest);
    hide BasePlan, Analysis;
    SplitConserves(base.progression.cutPoints, assured.plan.decision.permitted);
  }

  lemma BoundaryHolds(
    g: Graph, critical: set<Id>, registry: Registry, policy: AssurancePolicy, digest: ComponentDigest, i: nat)
    requires Valid(g) && i < |Components(g, digest)|
    ensures BoundaryKept(ComponentPlanOf(g, Components(g, digest)[i], critical, registry, policy, digest))
  {
    hide Components, Analysis, AssuredPlanOf, Valid;
    var cs := Components(g, digest);
    var c := cs[i];
    FocusAnalysesComponent(g, digest, i);
    PlanShape(g, critical * c.entityIds, FocusOn(c.entityIds), registry, policy, digest);
    var assured := AssuredPlanOf(g, critical * c.entityIds, FocusOn(c.entityIds), registry, policy, digest);
    forall cut | cut in assured.plan.authorized + assured.plan.withheld ensures cut.entityId in c.entityIds {
      CutsStayInPrimary(g, FocusOn(c.entityIds), digest, cut);
    }
  }

  /**
   Whatever the identifiers are, the builder cannot trip its checks on a component: every focus resolves to its
   component, and no cut point or critical entity leaves it.
   */
  lemma BoundaryErrorsAreUnreachable(
    g: Graph, critical: set<Id>, registry: Registry, policy: AssurancePolicy, digest: ComponentDigest)
    requires Valid(g)
    ensures AllSound(g, Components(g, digest), critical, registry, policy, digest)
  {
    hide Components, ComponentPlanOf, BoundaryKept, Valid;
    forall i | 0 <= i < |Components(g, digest)|
      ensures BoundaryKept(ComponentPlanOf(g, Components(g, digest)[i], critical, registry, policy, digest))
    {
      BoundaryHolds(g, critical, registry, policy, digest, i);
    }
  }

  lemma PlanKeepsIds(g: Graph, c: ComponentReport, critical: set<Id>, registry: Registry, policy: AssurancePolicy,
                     digest: ComponentDigest)
    ensures var p := ComponentPlanOf(g, c, critical, registry, policy, digest);
            && p.componentId == c.componentId && p.entityIds == c.entityIds
            && p.criticalIds == critical * c.entityIds && p.risk == c.risk
  {
  }

  /** The builder finds no duplicate exactly when the components of the graph have different identifiers. */
  lemma NoDuplicateIff(
    g: Graph, critical: set<Id>, registry: Registry, policy: AssurancePolicy, digest: ComponentDigest)
    ensures IdsUnique(MultiPlanOf(g, critical, registry, policy, digest).plans) <==> DistinctIds(Components(g, digest))
  {
    hide Components, ComponentPlanOf, IdsUnique;
    var cs := Components(g, digest);
    var plans := PlansOf(g, cs, critical, registry, policy, digest);
    forall i | 0 <= i < |cs| ensures plans[i].componentId == cs[i].componentId {
      PlanKeepsIds(g, cs[i], critical, registry, policy, digest);
    }
    SortPermutes(plans, PriorityOrder);
    SamePlansSameIds(plans, Sort(plans, PriorityOrder));
    UniqueIff(plans, cs);
  }

  lemma UniqueIff(plans: seq<ComponentPlan>, cs: seq<ComponentReport>)
    requires |plans| == |cs| && forall i :: 0 <= i < |cs| ==> plans[i].componentId == cs[i].componentId
    ensures IdsUnique(plans) <==> DistinctIds(cs)
  {
    var ids := ComponentIds(plans);
    if IdsUnique(plans) {
      DistinctByCardinality(ids);
      forall i, j | 0 <= i < |cs| && 0 <= j < |cs| && i != j ensures Different(cs[i], cs[j]) {
        assert ids[i] != ids[j];
      }
    }
    if DistinctIds(cs) {
      forall i, j | 0 <= i < j < |ids| ensures ids[i] != ids[j] {
        assert Different(cs[i], cs[j]);
      }
      CardinalityOfElements(ids);
    }
  }

  lemma SamePlansSameIds(a: seq<ComponentPlan>, b: seq<ComponentPlan>)
    requires |a| == |b| && forall p :: p in a <==> p in b
    ensures IdsUnique(a) <==> IdsUnique(b)
  {
    forall id ensures id in Elements(ComponentIds(a)) <==> id in Elements(ComponentIds(b)) {
      IdsArePlanIds(a, id);
      IdsArePlanIds(b, id);
    }
    assert Elements(ComponentIds(a)) == Elements(ComponentIds(b));
  }

  lemma IdsArePlanIds(plans: seq<ComponentPlan>, id: Id)
    ensures id in Elements(ComponentIds(plans)) <==> exists p :: p in plans && p.componentId == id
  {
    var ids := ComponentIds(plans);
    if id in ids {
      var i :| 0 <= i < |ids| && ids[i] == id;
      assert plans[i] in plans;
    }
    if p :| p in plans && p.componentId == id {
      var i :| 0 <= i < |plans| && plans[i] == p;
      assert ids[i] == id;
    }
  }

  // ----- completeness and order

  lemma PriorityOrderIsTotal()
    ensures TotalPreorder(PriorityOrder)
  {
  }

  /** Every active component is planned once, and the plans come in priority order. */
  lemma EveryComponentPlannedInOrder(
    g: Graph, critical: set<Id>, registry: Registry, policy: AssurancePolicy, digest: ComponentDigest)
    ensures var m := MultiPlanOf(g, critical, registry, policy, digest);
            && multiset(m.plans) == multiset(PlansOf(g, Components(g, digest), critical, registry, policy, digest))
            && m.activeComponents == |m.plans| == |ActiveComponents(g)|
            && SortedBy(m.plans, PriorityOrder)
  {
    hide Components, ComponentPlanOf, PriorityOrder, ActiveComponents;
    var plans := PlansOf(g, Components(g, digest), critical, registry, policy, digest);
    PriorityOrderIsTotal();
    SortPermutes(plans, PriorityOrder);
    SortSorts(plans, PriorityOrder);
    ComponentsMeaning(g, digest);
  }

  /** The most pressing incident comes first: by falling priority, then by falling mode, then by identifier. */
  lemma PlansByUrgency(
    g: Graph, critical: set<Id>, registry: Registry, policy: AssurancePolicy, digest: ComponentDigest, i: nat, j: nat)
    requires i < j < |MultiPlanOf(g, critical, registry, policy, digest).plans|
    ensures var plans := MultiPlanOf(g, critical, registry, policy, digest).plans;
            var mode, mode' := plans[i].assured.receipt.effectiveMode, plans[j].assured.receipt.effectiveMode;
            && plans[i].priority >= plans[j].priority
            && (plans[i].priority == plans[j].priority ==> Rank(mode) >= Rank(mode'))
            && (plans[i].priority == plans[j].priority && mode == mode' ==>
                  plans[i].componentId <= plans[j].componentId)
  {
    EveryComponentPlannedInOrder(g, critical, registry, policy, digest);
    hide MultiPlanOf;
    var plans := MultiPlanOf(g, critical, registry, policy, digest).plans;
    assert PriorityOrder(plans[i], plans[j]);
  }

  /** What a plan says of its component, with the mode its gate allows it. */
  lemma ComponentPlanMeaning(
    g: Graph, critical: set<Id>, registry: Registry, policy: AssurancePolicy, digest: ComponentDigest,
    p: ComponentPlan)
    requires p in MultiPlanOf(g, critical, registry, policy, digest).plans
    ensures exists c :: c in Components(g, digest)
                        && p.componentId == c.componentId && p.entityIds == c.entityIds && p.risk == c.risk
                        && p.criticalIds == critical * c.entityIds
                        && p.assured == AssuredPlanOf(g, critical * c.entityIds, FocusOn(c.entityIds), registry, policy,
                                                      digest)
  {
    EveryComponentPlannedInOrder(g, critical, registry, policy, digest);
    hide MultiPlanOf, Components, AssuredPlanOf, Priority;
    var cs := Components(g, digest);
    var plans := PlansOf(g, cs, critical, registry, policy, digest);
    SameMultiset(MultiPlanOf(g, critical, registry, policy, digest).plans, plans);
    var i :| 0 <= i < |plans| && plans[i] == p;
    assert cs[i] in cs;
  }

  ghost function WithCritical(plans: seq<ComponentPlan>): set<ComponentPlan> {
    set p | p in plans && p.criticalIds != {}
  }

  ghost function AboveGuard(plans: seq<ComponentPlan>): set<ComponentPlan> {
    set p | p in plans && p.assured.receipt.effectiveMode != GUARD
  }

  /** The summary counts the components with a critical entity and those above Guard, and names the greatest mode. */
  lemma SummaryMeaning(
    g: Graph, critical: set<Id>, registry: Registry, policy: AssurancePolicy, digest: ComponentDigest)
    requires Valid(g)
    ensures var m := MultiPlanOf(g, critical, registry, policy, digest);
            && m.graphId == g.id
            && m.criticalComponents == |WithCritical(m.plans)| && m.highImpactComponents == |AboveGuard(m.plans)|
            && (forall p :: p in m.plans ==> Rank(p.assured.receipt.effectiveMode) <= Rank(m.highestMode))
            && if m.plans == [] then m.highestMode == GUARD
               else exists p :: p in m.plans && p.assured.receipt.effectiveMode == m.highestMode
  {
    var plans := MultiPlanOf(g, critical, registry, policy, digest).plans;
    PlansAreDistinct(g, critical, registry, policy, digest);
    ImpactIsMode(g, critical, registry, policy, digest);
    SummaryCounts(g, critical, registry, policy, digest);
    hide MultiPlanOf, WithCritical, AboveGuard, IsHighImpact, Filter;
    CountWhere(plans, HasCritical, WithCritical(plans)) by {
      SetsAre(plans);
    }
    CountWhere(plans, IsHighImpact, AboveGuard(plans)) by {
      SetsAre(plans);
    }
    if plans != [] {
      TopPlanIsTop(plans);
    }
  }

  lemma SetsAre(plans: seq<ComponentPlan>)
    ensures forall p :: p in WithCritical(plans) <==> p in plans && HasCritical(p)
    ensures forall p :: p in AboveGuard(plans) <==> p in plans && p.assured.receipt.effectiveMode != GUARD
  {
  }

  lemma SummaryCounts(
    g: Graph, critical: set<Id>, registry: Registry, policy: AssurancePolicy, digest: ComponentDigest)
    ensures var m := MultiPlanOf(g, critical, registry, policy, digest);
            && m.graphId == g.id && m.criticalComponents == |Filter(m.plans, HasCritical)|
            && m.highImpactComponents == |Filter(m.plans, IsHighImpact)|
            && m.highestMode == if m.plans == [] then GUARD else ModeOf(TopPlan(m.plans))
  {
    hide Components, PlansOf, Filter;
  }

  lemma CountWhere(plans: seq<ComponentPlan>, keep: ComponentPlan -> bool, kept: set<ComponentPlan>)
    requires NoDuplicates(plans) && forall p :: p in kept <==> p in plans && keep(p)
    ensures |Filter(plans, keep)| == |kept|
  {
    FilterKeeps(plans, keep);
    CardinalityOfElements(Filter(plans, keep));
    assert Elements(Filter(plans, keep)) == kept;
  }

  lemma ImpactIsMode(
    g: Graph, critical: set<Id>, registry: Registry, policy: AssurancePolicy, digest: ComponentDigest)
    ensures forall p :: p in MultiPlanOf(g, critical, registry, policy, digest).plans ==>
              (IsHighImpact(p) <==> p.assured.receipt.effectiveMode != GUARD)
  {
    hide MultiPlanOf, Components;
    forall p | p in MultiPlanOf(g, critical, registry, policy, digest).plans
      ensures IsHighImpact(p) <==> p.assured.receipt.effectiveMode != GUARD
    {
      ComponentPlanMeaning(g, critical, registry, policy, digest, p);
    }
  }

  lemma PlansAreDistinct(
    g: Graph, critical: set<Id>, registry: Registry, policy: AssurancePolicy, digest: ComponentDigest)
    requires Valid(g)
    ensures NoDuplicates(MultiPlanOf(g, critical, registry, policy, digest).plans)
  {
    var cs := Components(g, digest);
    var plans := PlansOf(g, cs, critical, registry, policy, digest);
    ComponentsAreApart(g, digest);
    hide Components, AssuredPlanOf, Priority;
    forall i, j | 0 <= i < j < |plans| ensures plans[i] != plans[j] {
      assert Disjoint(cs[i], cs[j]) && cs[i].entityIds != {};
    }
    SortKeepsDistinct(plans, PriorityOrder);
  }

  lemma {:induction false} TopPlanIsTop(plans: seq<ComponentPlan>)
    requires plans != []
    ensures forall p :: p in plans ==> Rank(ModeOf(p)) <= Rank(ModeOf(TopPlan(plans)))
  {
    hide Rank, ModeOf;
    if |plans| > 1 {
      TopPlanIsTop(plans[..|plans| - 1]);
      assert plans == plans[..|plans| - 1] + [plans[|plans| - 1]];
    }
  }

  /** The reported highest mode is the greatest effective mode of any plan, and Guard when there is none. */
  lemma HighestModeMeaning(plans: seq<ComponentPlan>)
    ensures forall p :: p in plans ==> Rank(ModeOf(p)) <= Rank(HighestMode(plans))
    ensures HighestMode(plans) == GUARD || exists p :: p in plans && ModeOf(p) == HighestMode(plans)
  {
    if plans != [] {
      TopPlanIsTop(plans);
    }
  }

  // ----- critical entities

  /**
   The critical entities are divided: each plan's share is what its component holds, the shares are disjoint,
   and the inactive ones are exactly the critical entities no active relation touches.
   */
  lemma CriticalEntitiesArePartitioned(
    g: Graph, critical: set<Id>, registry: Registry, policy: AssurancePolicy, digest: ComponentDigest)
    requires Valid(g)
    ensures var cs := Components(g, digest); var m := MultiPlanOf(g, critical, registry, policy, digest);
            && m.inactiveCriticalIds == critical - ActiveEntities(g)
            && m.inactiveCriticalIds + ActiveCritical(cs, critical) == critical
            && m.inactiveCriticalIds !! ActiveCritical(cs, critical)
            && (forall i, j :: 0 <= i < j < |cs| ==> (critical * cs[i].entityIds) !! (critical * cs[j].entityIds))
            && (forall i :: 0 <= i < |cs| ==>
                  ComponentPlanOf(g, cs[i], critical, registry, policy, digest).criticalIds
                  == critical * cs[i].entityIds)
  {
    hide Components, Valid, ActiveEntities, AssuredPlanOf;
    var cs := Components(g, digest);
    ComponentsAreApart(g, digest);
    forall i, j | 0 <= i < j < |cs| ensures (critical * cs[i].entityIds) !! (critical * cs[j].entityIds) {
      assert Disjoint(cs[i], cs[j]);
    }
    forall x ensures x in ActiveCritical(cs, critical) <==> x in critical && x in ActiveEntities(g) {
      InSomeComponentIff(g, digest, x);
      if x in critical && x in ActiveEntities(g) {
        var i :| 0 <= i < |cs| && x in cs[i].entityIds;
        assert x in critical * cs[i].entityIds;
      }
    }
  }

  // ----- priorities

  /** The cap at 2.0 never acts: a priority is the risk plus its two bonuses, at most 1.7. */
  lemma PriorityCapIsNoOp(
    g: Graph, critical: set<Id>, registry: Registry, policy: AssurancePolicy, digest: ComponentDigest,
    c: ComponentReport)
    requires Valid(g) && c in Components(g, digest)
    ensures var p := ComponentPlanOf(g, c, critical, registry, policy, digest);
            && p.priority == c.risk + (if critical * c.entityIds != {} then 0.5 else 0.0)
                             + 0.1 * (Rank(p.assured.receipt.effectiveMode) as real)
            && 0.0 <= p.priority <= 1.7
  {
    hide Components, Valid, ComponentReportOf, AssuredPlanOf;
    ComponentsMeaning(g, digest);
    var i :| 0 <= i < |ActiveComponents(g)| && c == ComponentReportOf(g, ActiveComponents(g)[i], digest);
    MaxEffectIsGreatest(c.cutPoints);
    RiskMeaning(g, ActiveComponents(g)[i], digest, MaxEffect(c.cutPoints));
  }

  // ----- independence of incidents

  lemma {:induction false} FilterOfFilter<T(!new)>(s: seq<T>, outer: T -> bool, inner: T -> bool)
    requires forall x :: x in s && inner(x) ==> outer(x)
    ensures Filter(Filter(s, outer), inner) == Filter(s, inner)
  {
    if s != [] {
      var rest := Filter(s[1..], outer);
      assert s == [s[0]] + s[1..];
      assert ([s[0]] + rest)[1..] == rest;
      assert [] + rest == rest;
      FilterOfFilter(s[1..], outer, inner);
    }
  }

  /** The subgraph of a component, reduced again, is itself. */
  lemma SubgraphIsStable(g: Graph, ids: set<Id>)
    ensures ComponentSubgraph(ComponentSubgraph(g, ids), ids) == ComponentSubgraph(g, ids)
  {
    FilterOfFilter(g.entities, EntityInside(ids), EntityInside(ids));
    FilterOfFilter(g.relations, RelationInside(ids), RelationInside(ids));
  }

  lemma SubgraphComponents(g: Graph, digest: ComponentDigest, k: nat)
    requires k < |ActiveComponents(g)|
    ensures var ids := ActiveComponents(g)[k];
            Components(ComponentSubgraph(g, ids), digest) == [ComponentReportOf(g, ids, digest)]
  {
    hide ActiveComponents, ComponentSubgraph, ReportFrom;
    var ids := ActiveComponents(g)[k];
    var sub := ComponentSubgraph(g, ids);
    ComponentDiscoveryIsIdempotent(g, k);
    SubgraphIsStable(g, ids);
    assert ReportsOf(sub, ActiveComponents(sub), digest) == [ComponentReportOf(sub, ids, digest)];
    SortOne(ComponentReportOf(sub, ids, digest));
  }

  lemma SortOne(c: ComponentReport)
    ensures Sort([c], RiskOrder) == [c]
  {
    var one := [c];
    assert one[1..] == [] && one[0] == c;
    var none: seq<ComponentReport> := [];
    assert Sort(one[1..], RiskOrder) == none;
    assert Insert(c, none, RiskOrder) == [c] + none == one;
  }

  /** The relations with a component's active identifiers are those of its subgraph. */
  lemma ActiveIdsInSubgraph(g: Graph, ids: set<Id>, r: Relation)
    requires Valid(g) && r in g.relations
             && r.id in StageScoring.RelationIds(ActiveRelations(ComponentSubgraph(g, ids)))
    ensures r in ComponentSubgraph(g, ids).relations && RelationInside(ids)(r)
  {
    var q :| q in ActiveRelations(ComponentSubgraph(g, ids)) && q.id == r.id;
    ActiveInSubgraph(g, ids);
    SameIdSameRelation(g, r, q);
    FilterKeeps(g.relations, RelationInside(ids));
  }

  lemma SubgraphRelations(g: Graph, ids: set<Id>)
    ensures ComponentSubgraph(g, ids).relations == Filter(g.relations, RelationInside(ids))
    ensures ComponentSubgraph(g, ids).id == g.id
  {
  }

  /** What is read through active identifiers depends only on the relations that have them. */
  lemma SameRelations(g: Graph, sub: Graph, report: ProgressionReport, critical: set<Id>)
    requires forall r: Relation :: r.id in report.activeRelationIds ==> (r in g.relations <==> r in sub.relations)
    ensures EvidenceIds(sub.relations, report.activeRelationIds) == EvidenceIds(g.relations, report.activeRelationIds)
    ensures ActiveSources(sub.relations, report.activeRelationIds)
            == ActiveSources(g.relations, report.activeRelationIds)
    ensures CriticalAtRisk(sub, report, critical) == CriticalAtRisk(g, report, critical)
  {
    var active := report.activeRelationIds;
    assert forall r: Relation :: Counts(active, r) ==> (r in g.relations <==> r in sub.relations);
  }

  /** Everything the assessment and the gate read from the graph, they read from the component's subgraph. */
  lemma SameReadings(g: Graph, ids: set<Id>, report: ProgressionReport, critical: set<Id>)
    requires Valid(g)
    requires report.activeRelationIds == StageScoring.RelationIds(ActiveRelations(ComponentSubgraph(g, ids)))
    ensures var sub := ComponentSubgraph(g, ids); var active := report.activeRelationIds;
            && EvidenceIds(sub.relations, active) == EvidenceIds(g.relations, active)
            && ActiveSources(sub.relations, active) == ActiveSources(g.relations, active)
            && CriticalAtRisk(sub, report, critical) == CriticalAtRisk(g, report, critical)
            && EvidenceGap(sub, report) == EvidenceGap(g, report)
  {
    hide ComponentSubgraph, Valid, StageScoring.RelationIds, ActiveRelations;
    hide EvidenceIds, ActiveSources, CriticalAtRisk;
    var sub, active := ComponentSubgraph(g, ids), report.activeRelationIds;
    SubgraphRelations(g, ids);
    FilterKeeps(g.relations, RelationInside(ids));
    forall r | r in g.relations && r.id in active ensures r in sub.relations && RelationInside(ids)(r) {
      ActiveIdsInSubgraph(g, ids, r);
    }
    SameRelations(g, sub, report, critical);
    FilterOfFilter(g.relations, RelationInside(ids), HasActiveId(active));
  }

  /** The analysis focused on a component, up to the list of all components. */
  lemma SameAnalysis(g: Graph, digest: ComponentDigest, i: nat)
    requires Valid(g) && i < |Components(g, digest)|
    ensures var c := Components(g, digest)[i];
            var sub, focus := ComponentSubgraph(g, c.entityIds), FocusOn(c.entityIds);
            && focus != {}
            && Analysis(g, focus, digest).(components := [c]) == Analysis(sub, focus, digest)
            && c.activeRelationIds == StageScoring.RelationIds(ActiveRelations(sub))
            && Analysis(g, focus, digest) == ReportWith(g, Components(g, digest), Some(c))
  {
    var c := Components(g, digest)[i];
    ComponentsMeaning(g, digest);
    assert c in Components(g, digest);
    var k :| 0 <= k < |ActiveComponents(g)| && c == ComponentReportOf(g, ActiveComponents(g)[k], digest);
    hide Components, ActiveComponents, Valid, ComponentSubgraph;
    var sub := ComponentSubgraph(g, c.entityIds);
    FocusAnalysesComponent(g, digest, i);
    SubgraphComponents(g, digest, k);
    SubgraphRelations(g, c.entityIds);
    FocusOnOnly(c);
  }

  lemma FocusOnOnly(c: ComponentReport)
    requires c.entityIds != {}
    ensures PrimaryComponent([c], FocusOn(c.entityIds)) == Some(c)
  {
    var one, meets := [c], Meets(FocusOn(c.entityIds));
    assert MinOf(c.entityIds) in FocusOn(c.entityIds) * c.entityIds;
    assert one[1..] == [] && Filter(one[1..], meets) == [];
    assert Filter(one, meets) == one;
    assert Best(one) == c;
  }

  /**
   Incidents are independent: the plan a component gets inside the whole graph is the plan it would get if its
   own subgraph were the whole graph. Nothing in other components, and no relation that leaves this one, can
   change its mode, its domains or its cut points.
   */
  lemma IncidentsAreIndependent(
    g: Graph, critical: set<Id>, registry: Registry, policy: AssurancePolicy, digest: ComponentDigest, i: nat)
    requires Valid(g) && i < |Components(g, digest)|
    ensures var c := Components(g, digest)[i];
            var sub := ComponentSubgraph(g, c.entityIds);
            var whole := AssuredPlanOf(g, critical * c.entityIds, FocusOn(c.entityIds), registry, policy, digest);
            var alone := AssuredPlanOf(sub, critical * c.entityIds, FocusOn(c.entityIds), registry, policy, digest);
            && whole.receipt == alone.receipt
            && whole.plan.assessment == alone.plan.assessment && whole.plan.decision == alone.plan.decision
            && whole.plan.authorized == alone.plan.authorized && whole.plan.withheld == alone.plan.withheld
            && whole.plan.progression.(components := [c]) == alone.plan.progression
  {
    var c := Components(g, digest)[i];
    var sub, focus, own := ComponentSubgraph(g, c.entityIds), FocusOn(c.entityIds), critical * c.entityIds;
    SameAnalysis(g, digest, i);
    var report, reduced := Analysis(g, focus, digest), Analysis(sub, focus, digest);
    SubgraphRelations(g, c.entityIds);
    hide Analysis, Components, ComponentSubgraph, Valid;
    SameReadings(g, c.entityIds, report, own);
    ReadingsIgnoreComponents(sub, report, [c], own);
  }

  lemma ReadingsIgnoreComponents(g: Graph, report: ProgressionReport, cs: seq<ComponentReport>, critical: set<Id>)
    ensures AssessmentOf(g, report, critical) == AssessmentOf(g, report.(components := cs), critical)
  {
  }
}
