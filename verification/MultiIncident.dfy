/** One assured plan for every active component (assured_multi_incident_defense.py). */
module MultiIncident {
  import opened Ordering
  import opened StateGraph
  import opened AttackComponents
  import opened AttackProgression
  import opened DefenseAuthority
  import opened DefensePlanner
  import opened DefenseAssurance

  datatype ComponentPlan = ComponentPlan(
    componentId: Id, entityIds: set<Id>, criticalIds: set<Id>, risk: real, priority: real, assured: AssuredPlan)

  datatype MultiPlan = MultiPlan(
    graphId: GraphId, activeComponents: nat, criticalComponents: nat, highImpactComponents: nat,
    highestMode: DefenseMode, plans: seq<ComponentPlan>, inactiveCriticalIds: set<Id>)

  datatype MultiError =
    | CRITICAL_UNKNOWN(ids: set<Id>) | ASSURANCE_REFUSED(error: AssuranceError)
    | FOCUS_MISRESOLVED | BOUNDARY_CROSSED | DUPLICATE_COMPONENTS | ANALYSIS_REFUSED

  /** `_priority`. */
  function Priority(risk: real, critical: bool, mode: DefenseMode): real {
    var raised := risk + (if critical then 0.5 else 0.0) + 0.1 * (Rank(mode) as real);
    if raised < 2.0 then raised else 2.0
  }

  /** The sort key `(-priority_score, -rank, component_id)`. */
  predicate PriorityOrder(a: ComponentPlan, b: ComponentPlan) {
    a.priority > b.priority || (a.priority == b.priority && (
      Rank(a.assured.receipt.effectiveMode) > Rank(b.assured.receipt.effectiveMode) ||
      (Rank(a.assured.receipt.effectiveMode) == Rank(b.assured.receipt.effectiveMode)
       && a.componentId <= b.componentId)))
  }

  predicate Resolved(c: ComponentReport, assured: AssuredPlan) {
    assured.plan.progression.primaryComponentId == Some(c.componentId)
  }

  /** `component_boundary_is_preserved`. */
  predicate BoundaryKept(p: ComponentPlan) {
    && p.assured.plan.progression.primaryComponentId == Some(p.componentId)
    && p.criticalIds <= p.entityIds
    && forall c :: c in p.assured.plan.authorized + p.assured.plan.withheld ==> c.entityId in p.entityIds
  }

  function ComponentIds(plans: seq<ComponentPlan>): seq<Id> {
    seq(|plans|, i requires 0 <= i < |plans| => plans[i].componentId)
  }

  /** `components_are_unique`. */
  predicate IdsUnique(plans: seq<ComponentPlan>) {
    |Elements(ComponentIds(plans))| == |plans|
  }

  function MakeComponentPlan(c: ComponentReport, critical: set<Id>, assured: AssuredPlan): ComponentPlan {
    var own := critical * c.entityIds;
    ComponentPlan(c.componentId, c.entityIds, own, c.risk, Priority(c.risk, own != {}, assured.receipt.effectiveMode),
                  assured)
  }

  /** `[min(component.entity_ids)]`; a component is never empty. */
  function FocusOn(ids: set<Id>): set<Id> {
    if ids == {} then {} else {MinOf(ids)}
  }

  /** The plan of one component: focused on its least entity, with the critical entities it holds. */
  ghost function ComponentPlanOf(
    g: Graph, c: ComponentReport, critical: set<Id>, registry: Registry, policy: AssurancePolicy,
    digest: ComponentDigest): ComponentPlan
  {
    MakeComponentPlan(c, critical,
                      AssuredPlanOf(g, critical * c.entityIds, FocusOn(c.entityIds), registry, policy, digest))
  }

  ghost function PlansOf(
    g: Graph, cs: seq<ComponentReport>, critical: set<Id>, registry: Registry, policy: AssurancePolicy,
    digest: ComponentDigest)
    : seq<ComponentPlan>
  {
    seq(|cs|, i requires 0 <= i < |cs| => ComponentPlanOf(g, cs[i], critical, registry, policy, digest))
  }

  function HasCritical(p: ComponentPlan): bool { p.criticalIds != {} }

  function IsHighImpact(p: ComponentPlan): bool { p.assured.receipt.highImpact }

  function ModeOf(p: ComponentPlan): DefenseMode {
    p.assured.receipt.effectiveMode
  }

  function TopPlan(plans: seq<ComponentPlan>): (top: ComponentPlan)
    requires plans != []
    ensures top in plans
  {
    var last := plans[|plans| - 1];
    if |plans| == 1 then last else
    var top := TopPlan(plans[..|plans| - 1]);
    if Rank(ModeOf(last)) > Rank(ModeOf(top)) then last else top
  }

  /** `max(modes, key=rank, default=GUARD)`. */
  function HighestMode(plans: seq<ComponentPlan>): DefenseMode {
    if plans == [] then GUARD else ModeOf(TopPlan(plans))
  }

  /** The critical entities that lie in some listed component. */
  ghost function ActiveCritical(cs: seq<ComponentReport>, critical: set<Id>): set<Id> {
    set i, x | 0 <= i < |cs| && x in critical * cs[i].entityIds :: x
  }

  function Assemble(g: Graph, plans: seq<ComponentPlan>, inactive: set<Id>): MultiPlan {
    var sorted := Sort(plans, PriorityOrder);
    MultiPlan(g.id, |plans|, |Filter(sorted, HasCritical)|, |Filter(sorted, IsHighImpact)|, HighestMode(sorted), sorted,
              inactive)
  }

  ghost function MultiPlanOf(
    g: Graph, critical: set<Id>, registry: Registry, policy: AssurancePolicy, digest: ComponentDigest): MultiPlan
  {
    var components := Components(g, digest);
    Assemble(g, PlansOf(g, components, critical, registry, policy, digest),
             critical - ActiveCritical(components, critical))
  }

  /** No runtime check on a component plan fires. */
  ghost predicate AllSound(
    g: Graph, cs: seq<ComponentReport>, critical: set<Id>, registry: Registry, policy: AssurancePolicy,
    digest: ComponentDigest)
  {
    forall i :: 0 <= i < |cs| ==> BoundaryKept(ComponentPlanOf(g, cs[i], critical, registry, policy, digest))
  }

  lemma PlansStep(
    g: Graph, cs: seq<ComponentReport>, i: nat, critical: set<Id>, registry: Registry, policy: AssurancePolicy,
    digest: ComponentDigest)
    requires i < |cs|
    ensures PlansOf(g, cs[..i + 1], critical, registry, policy, digest)
            == PlansOf(g, cs[..i], critical, registry, policy, digest)
               + [ComponentPlanOf(g, cs[i], critical, registry, policy, digest)]
    ensures ActiveCritical(cs[..i + 1], critical) == ActiveCritical(cs[..i], critical) + critical * cs[i].entityIds
  {
    hide ComponentPlanOf;
    forall x ensures x in ActiveCritical(cs[..i + 1], critical)
                     <==> x in ActiveCritical(cs[..i], critical) + critical * cs[i].entityIds
    {
      if x in ActiveCritical(cs[..i + 1], critical) {
        var k :| 0 <= k < i + 1 && x in critical * cs[..i + 1][k].entityIds;
        if k < i {
          assert x in critical * cs[..i][k].entityIds;
        }
      }
      if x in ActiveCritical(cs[..i], critical) {
        var k :| 0 <= k < i && x in critical * cs[..i][k].entityIds;
        assert x in critical * cs[..i + 1][k].entityIds;
      }
      if x in critical * cs[i].entityIds {
        assert x in critical * cs[..i + 1][i].entityIds;
      }
    }
  }

  /** The iteration for one component. */
  method PlanComponent(
    g: Graph, bound: bool, c: ComponentReport, registry: Registry, critical: set<Id>, policy: AssurancePolicy,
    digest: ComponentDigest)
    returns (result: Result<ComponentPlan, MultiError>)
    requires Valid(g) && ValidRegistry(registry) && c.entityIds <= EntityIds(g)
    ensures result.Ok? <==>
              bound && Plannable(g) && BoundaryKept(ComponentPlanOf(g, c, critical, registry, policy, digest))
    ensures result.Ok? ==> result.value == ComponentPlanOf(g, c, critical, registry, policy, digest)
    ensures !bound ==> result == Err(ASSURANCE_REFUSED(BINDING_REFUSED))
    ensures result.Err? ==> !result.error.CRITICAL_UNKNOWN? && !result.error.DUPLICATE_COMPONENTS?
  {
    hide AssuredPlanOf;
    var assured := BuildAssuredActiveDefensePlan(g, bound, registry, critical * c.entityIds, FocusOn(c.entityIds),
                                                 policy, digest);
    if assured.Err? {
      return Err(ASSURANCE_REFUSED(assured.error));
    }
    if !Resolved(c, assured.value) {
      return Err(FOCUS_MISRESOLVED);
    }
    var plan := MakeComponentPlan(c, critical, assured.value);
    if !BoundaryKept(plan) {
      return Err(BOUNDARY_CROSSED);
    }
    result := Ok(plan);
  }

  /**
   `build_assured_multi_incident_defense_plan`. The receipts are only checked while planning a component, so
   without an active component they are never looked at.
   */
  method BuildMultiIncidentPlan(
    g: Graph, bound: bool, registry: Registry, critical: set<Id>, policy: AssurancePolicy, digest: ComponentDigest)
    returns (result: Result<MultiPlan, MultiError>)
    requires Valid(g) && ValidRegistry(registry)
    ensures result.Ok? <==>
              && critical <= EntityIds(g) && (Components(g, digest) == [] || (bound && Plannable(g)))
              && AllSound(g, Components(g, digest), critical, registry, policy, digest)
              && IdsUnique(MultiPlanOf(g, critical, registry, policy, digest).plans)
    ensures result.Ok? ==> result.value == MultiPlanOf(g, critical, registry, policy, digest)
    ensures result == Err(DUPLICATE_COMPONENTS) <==>
              && critical <= EntityIds(g) && (Components(g, digest) == [] || (bound && Plannable(g)))
              && AllSound(g, Components(g, digest), critical, registry, policy, digest)
              && !IdsUnique(MultiPlanOf(g, critical, registry, policy, digest).plans)
    ensures result.Err? && result.error.CRITICAL_UNKNOWN? ==> result.error.ids == critical - EntityIds(g) != {}
    ensures !(critical <= EntityIds(g)) ==> result.Err? && result.error.CRITICAL_UNKNOWN?
  {
    hide *;
    Shape(g, critical, registry, policy, digest);
    NothingLeft(critical, EntityIds(g));
    var unknown := critical - EntityIds(g);
    if unknown != {} {
      return Err(CRITICAL_UNKNOWN(unknown));
    }
    var analysis := AnalyzeAttackProgression(g, {}, digest);
    RefusedIsUnplannable(g, digest);
    if analysis.Err? {
      return Err(ANALYSIS_REFUSED);
    }
    AnalysisListsComponents(g, {}, digest);
    var components := analysis.value.components;
    var plans: seq<ComponentPlan>, activeCritical: set<Id> := [], {};
    NoPlansYet(g, critical, registry, policy, digest);
    assert components[..0] == [];
    var i := 0;
    while i < |components|
      invariant 0 <= i <= |components|
      invariant i > 0 ==> bound && Plannable(g)
      invariant plans == PlansOf(g, components[..i], critical, registry, policy, digest)
      invariant activeCritical == ActiveCritical(components[..i], critical)
      invariant AllSound(g, components[..i], critical, registry, policy, digest)
    {
      PlansStep(g, components, i, critical, registry, policy, digest);
      SoundStep(g, components, i, critical, registry, policy, digest);
      activeCritical := activeCritical + critical * components[i].entityIds;
      var planned := PlanComponent(g, bound, components[i], registry, critical, policy, digest);
      if planned.Err? {
        return Err(planned.error);
      }
      plans := plans + [planned.value];
      i := i + 1;
    }
    assert components[..i] == components;
    var assembled := Assemble(g, plans, critical - activeCritical);
    if !IdsUnique(assembled.plans) {
      return Err(DUPLICATE_COMPONENTS);
    }
    result := Ok(assembled);
  }

  lemma RefusedIsUnplannable(g: Graph, digest: ComponentDigest)
    requires Valid(g)
    ensures !Analysable(g) ==> Components(g, digest) != [] && !Plannable(g)
  {
    hide Components, ActiveComponents;
    ComponentsMeaning(g, digest);
  }

  /** Every component is a non-empty set of entities of the graph. */
  lemma ComponentIsKnown(g: Graph, digest: ComponentDigest, c: ComponentReport)
    requires Valid(g) && c in Components(g, digest)
    ensures c.entityIds != {} && c.entityIds <= EntityIds(g)
  {
    hide Components, ActiveComponents, ActiveEntities, Valid;
    ComponentsMeaning(g, digest);
    var i :| 0 <= i < |ActiveComponents(g)| && c == ComponentReportOf(g, ActiveComponents(g)[i], digest);
    ComponentIsClass(g, i);
    ActiveEntitiesAreKnown(g);
  }

  lemma ActiveEntitiesAreKnown(g: Graph)
    requires Valid(g)
    ensures ActiveEntities(g) <= EntityIds(g)
  {
    ActiveLinksMeaning(g);
    forall x | x in ActiveEntities(g) ensures x in EntityIds(g) {
      var r :| r in g.relations && Active(r) && Touches(r, x);
    }
  }

  lemma NoPlansYet(g: Graph, critical: set<Id>, registry: Registry, policy: AssurancePolicy, digest: ComponentDigest)
    ensures PlansOf(g, [], critical, registry, policy, digest) == [] && ActiveCritical([], critical) == {}
    ensures AllSound(g, [], critical, registry, policy, digest)
  {
  }

  lemma SoundStep(
    g: Graph, cs: seq<ComponentReport>, i: nat, critical: set<Id>, registry: Registry, policy: AssurancePolicy,
    digest: ComponentDigest)
    requires i < |cs|
    ensures AllSound(g, cs[..i + 1], critical, registry, policy, digest)
            <==> AllSound(g, cs[..i], critical, registry, policy, digest)
                 && BoundaryKept(ComponentPlanOf(g, cs[i], critical, registry, policy, digest))
    ensures AllSound(g, cs, critical, registry, policy, digest)
            ==> AllSound(g, cs[..i + 1], critical, registry, policy, digest)
  {
    hide ComponentPlanOf, BoundaryKept;
    assert forall k :: 0 <= k < i ==> cs[..i][k] == cs[..i + 1][k];
    assert cs[..i + 1][i] == cs[i];
  }

  lemma Shape(g: Graph, critical: set<Id>, registry: Registry, policy: AssurancePolicy, digest: ComponentDigest)
    requires Valid(g)
    ensures var cs := Components(g, digest);
            && MultiPlanOf(g, critical, registry, policy, digest)
               == Assemble(g, PlansOf(g, cs, critical, registry, policy, digest),
                           critical - ActiveCritical(cs, critical))
            && (forall i :: 0 <= i < |cs| ==> cs[i].entityIds != {} && cs[i].entityIds <= EntityIds(g))
  {
    hide ComponentPlanOf, Components;
    forall i | 0 <= i < |Components(g, digest)|
      ensures Components(g, digest)[i].entityIds != {} && Components(g, digest)[i].entityIds <= EntityIds(g)
    {
      ComponentIsKnown(g, digest, Components(g, digest)[i]);
    }
  }

}
