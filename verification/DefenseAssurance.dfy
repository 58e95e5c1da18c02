/** The assurance gate over a base plan (assured_active_defense.py). */
module DefenseAssurance {
  import opened Ordering
  import opened StateGraph
  import opened CutPoints
  import opened AttackProgression
  import opened DefenseAuthority
  import opened DefensePlanner

  /** `principal` is the joined text of source type and instance; a registry has each one once. */
  datatype Enrollment = Enrollment(principal: Id, domain: Id, enabled: bool)

  type Registry = seq<Enrollment>

  predicate ValidRegistry(registry: Registry) {
    forall i, j :: 0 <= i < j < |registry| ==> registry[i].principal != registry[j].principal
  }

  datatype AssurancePolicy = AssurancePolicy(combatMinimum: nat, siegeMinimum: nat)
  {
    predicate Valid() {
      2 <= combatMinimum <= 16 && 3 <= siegeMinimum <= 16
    }
  }

  datatype AssuranceReceipt = AssuranceReceipt(
    graphId: GraphId, baseMode: DefenseMode, effectiveMode: DefenseMode, relationIds: set<Id>, principals: set<Id>,
    domains: set<Id>, domainCount: nat, unknownSources: set<Id>, downgraded: bool, highImpact: bool)

  datatype AssuredPlan = AssuredPlan(plan: ActivePlan, receipt: AssuranceReceipt, policy: AssurancePolicy)

  // ----- independence domains of the active evidence

  predicate Admits(registry: Registry, source: Id) {
    exists e :: e in registry && e.enabled && e.principal == source
  }

  /** The sources of the corroborating evidence on the given relations. */
  ghost function ActiveSources(rs: seq<Relation>, activeIds: set<Id>): set<Id> {
    set r, e | r in rs && Counts(activeIds, r) && e in r.evidence :: e.source
  }

  ghost function PrincipalsOf(sources: set<Id>, registry: Registry): set<Id> {
    set s | s in sources && Admits(registry, s)
  }

  ghost function UnknownOf(sources: set<Id>, registry: Registry): set<Id> {
    set s | s in sources && !Admits(registry, s)
  }

  /** The independence domains of the admitted sources. */
  ghost function DomainsOf(sources: set<Id>, registry: Registry): set<Id> {
    set e | e in registry && e.enabled && e.principal in sources :: e.domain
  }

  /** `enrollment_by_principal`: the enabled enrollments, by principal. */
  function EnrollmentMap(registry: Registry): map<Id, Id> {
    if registry == [] then map[] else
    var last := registry[|registry| - 1];
    var earlier := EnrollmentMap(registry[..|registry| - 1]);
    if last.enabled then earlier[last.principal := last.domain] else earlier
  }

  lemma {:induction false} EnrolledIffAdmitted(registry: Registry, source: Id)
    ensures source in EnrollmentMap(registry) <==> Admits(registry, source)
  {
    if registry != [] {
      var init, last := registry[..|registry| - 1], registry[|registry| - 1];
      EnrolledIffAdmitted(init, source);
      assert registry == init + [last];
      assert Admits(registry, source) <==> Admits(init, source) || (last.enabled && last.principal == source);
    }
  }

  lemma {:induction false} EnrolledDomain(registry: Registry, i: nat)
    requires ValidRegistry(registry) && i < |registry| && registry[i].enabled
    ensures registry[i].principal in EnrollmentMap(registry)
    ensures EnrollmentMap(registry)[registry[i].principal] == registry[i].domain
  {
    var n := |registry| - 1;
    if i < n {
      EnrolledDomain(registry[..n], i);
      assert registry[i].principal != registry[n].principal;
    }
  }

  lemma EnrollmentMapMeaning(registry: Registry)
    requires ValidRegistry(registry)
    ensures forall s :: s in EnrollmentMap(registry) <==> Admits(registry, s)
    ensures forall e :: e in registry && e.enabled ==>
              e.principal in EnrollmentMap(registry) && EnrollmentMap(registry)[e.principal] == e.domain
  {
    hide EnrollmentMap, ValidRegistry, Admits;
    forall s ensures s in EnrollmentMap(registry) <==> Admits(registry, s) {
      EnrolledIffAdmitted(registry, s);
    }
    forall e | e in registry && e.enabled
      ensures e.principal in EnrollmentMap(registry) && EnrollmentMap(registry)[e.principal] == e.domain
    {
      var i :| 0 <= i < |registry| && registry[i] == e;
      EnrolledDomain(registry, i);
    }
  }

  /** The sets after the evidence items of some sources have been seen. */
  ghost predicate Sorted(sources: set<Id>, registry: Registry, principals: set<Id>, domains: set<Id>,
                         unknown: set<Id>) {
    && principals == PrincipalsOf(sources, registry)
    && domains == DomainsOf(sources, registry)
    && unknown == UnknownOf(sources, registry)
  }

  lemma NewSource(sources: set<Id>, registry: Registry, source: Id)
    requires ValidRegistry(registry)
    ensures PrincipalsOf(sources + {source}, registry)
            == PrincipalsOf(sources, registry) + (if source in EnrollmentMap(registry) then {source} else {})
    ensures DomainsOf(sources + {source}, registry)
            == DomainsOf(sources, registry)
               + (if source in EnrollmentMap(registry) then {EnrollmentMap(registry)[source]} else {})
    ensures UnknownOf(sources + {source}, registry)
            == UnknownOf(sources, registry) + (if source in EnrollmentMap(registry) then {} else {source})
  {
    EnrollmentMapMeaning(registry);
    var byPrincipal := EnrollmentMap(registry);
    var before, after := DomainsOf(sources, registry), DomainsOf(sources + {source}, registry);
    if source in byPrincipal {
      var e :| e in registry && e.enabled && e.principal == source;
      assert byPrincipal[source] == e.domain && e.domain in after;
      forall d | d in after ensures d in before + {e.domain} {
        var f :| f in registry && f.enabled && f.principal in sources + {source} && f.domain == d;
        assert byPrincipal[f.principal] == f.domain;
      }
    } else {
      forall d | d in after ensures d in before {
        var f :| f in registry && f.enabled && f.principal in sources + {source} && f.domain == d;
        assert f.principal in byPrincipal;
      }
    }
  }

  function SourcesOf(evidence: seq<EvidenceRef>): set<Id> {
    set e | e in evidence :: e.source
  }

  /** The inner loop over one relation's evidence. */
  method AdmitEvidence(evidence: seq<EvidenceRef>, registry: Registry, byPrincipal: map<Id, Id>, ghost sources: set<Id>,
                       principals0: set<Id>, domains0: set<Id>, unknown0: set<Id>)
    returns (principals: set<Id>, domains: set<Id>, unknown: set<Id>)
    requires ValidRegistry(registry) && byPrincipal == EnrollmentMap(registry)
    requires Sorted(sources, registry, principals0, domains0, unknown0)
    ensures Sorted(sources + SourcesOf(evidence), registry, principals, domains, unknown)
  {
    hide PrincipalsOf, DomainsOf, UnknownOf, EnrollmentMap, ValidRegistry;
    principals, domains, unknown := principals0, domains0, unknown0;
    assert sources + SourcesOf(evidence[..0]) == sources;
    var i := 0;
    while i < |evidence|
      invariant 0 <= i <= |evidence|
      invariant Sorted(sources + SourcesOf(evidence[..i]), registry, principals, domains, unknown)
    {
      var source := evidence[i].source;
      NewSource(sources + SourcesOf(evidence[..i]), registry, source);
      if source !in byPrincipal {
        unknown := unknown + {source};
      } else {
        principals := principals + {source};
        domains := domains + {byPrincipal[source]};
      }
      SourcesStep(evidence, i, sources);
      i := i + 1;
    }
    assert evidence[..i] == evidence;
  }

  lemma SourcesStep(evidence: seq<EvidenceRef>, i: nat, sources: set<Id>)
    requires i < |evidence|
    ensures sources + SourcesOf(evidence[..i + 1]) == sources + SourcesOf(evidence[..i]) + {evidence[i].source}
  {
    assert evidence[..i + 1] == evidence[..i] + [evidence[i]];
    forall x ensures x in SourcesOf(evidence[..i + 1]) <==> x in SourcesOf(evidence[..i]) || x == evidence[i].source {
      if x in SourcesOf(evidence[..i + 1]) {
        var e :| e in evidence[..i + 1] && e.source == x;
      }
      if x in SourcesOf(evidence[..i]) {
        var e :| e in evidence[..i] && e.source == x;
        assert e in evidence[..i + 1];
      }
      if x == evidence[i].source {
        assert evidence[i] in evidence[..i + 1];
      }
    }
  }

  lemma ActiveSourcesStep(rs: seq<Relation>, r: Relation, activeIds: set<Id>)
    ensures ActiveSources(rs + [r], activeIds)
            == ActiveSources(rs, activeIds) + (if Counts(activeIds, r) then SourcesOf(r.evidence) else {})
  {
    var all := ActiveSources(rs + [r], activeIds);
    var parts := ActiveSources(rs, activeIds) + (if Counts(activeIds, r) then SourcesOf(r.evidence) else {});
    forall x | x in all ensures x in parts {
      var q, e :| q in rs + [r] && Counts(activeIds, q) && e in q.evidence && e.source == x;
      if q != r {
        assert q in rs;
      }
    }
    forall x | x in parts ensures x in all {
      if x in ActiveSources(rs, activeIds) {
        var q, e :| q in rs && Counts(activeIds, q) && e in q.evidence && e.source == x;
        assert q in rs + [r];
      } else {
        var e :| e in r.evidence && e.source == x;
        assert r in rs + [r];
      }
    }
  }

  /** `_active_evidence_domains`. */
  method ActiveEvidenceDomains(g: Graph, activeIds: set<Id>, registry: Registry)
    returns (principals: set<Id>, domains: set<Id>, unknown: set<Id>)
    requires ValidRegistry(registry)
    ensures Sorted(ActiveSources(g.relations, activeIds), registry, principals, domains, unknown)
  {
    principals, domains, unknown := {}, {}, {};
    var byPrincipal := EnrollmentMap(registry);
    assert Sorted({}, registry, {}, {}, {});
    assert ActiveSources(g.relations[..0], activeIds) == {};
    hide Sorted, ActiveSources, EnrollmentMap, ValidRegistry;
    var i := 0;
    while i < |g.relations|
      invariant 0 <= i <= |g.relations|
      invariant Sorted(ActiveSources(g.relations[..i], activeIds), registry, principals, domains, unknown)
    {
      var r := g.relations[i];
      ActiveSourcesStep(g.relations[..i], r, activeIds);
      assert g.relations[..i + 1] == g.relations[..i] + [r];
      if Counts(activeIds, r) {
        principals, domains, unknown :=
          AdmitEvidence(r.evidence, registry, byPrincipal, ActiveSources(g.relations[..i], activeIds), principals,
                        domains, unknown);
      }
      i := i + 1;
    }
    assert g.relations[..i] == g.relations;
  }

  // ----- the gate

  /** `_maximum_mode_for_domains`. */
  function MaximumMode(count: nat, policy: AssurancePolicy): DefenseMode {
    if count >= policy.siegeMinimum then SIEGE else if count >= policy.combatMinimum then COMBAT else GUARD
  }

  /** `min((base, maximum), key=rank)`. */
  function EffectiveMode(base: DefenseMode, count: nat, policy: AssurancePolicy): DefenseMode {
    var maximum := MaximumMode(count, policy);
    if Rank(maximum) < Rank(base) then maximum else base
  }

  function AssuredFrom(base: ActivePlan, principals: set<Id>, domains: set<Id>, unknown: set<Id>,
                       policy: AssurancePolicy): AssuredPlan {
    var effective := EffectiveMode(base.decision.mode, |domains|, policy);
    var permitted := ActionsOf(effective);
    var adjusted := base.(
      decision := Decision(effective, permitted),
      authorized := Filter(base.progression.cutPoints, Allowed(permitted)),
      withheld := Filter(base.progression.cutPoints, Refused(permitted)));
    AssuredPlan(
      adjusted,
      AssuranceReceipt(base.graphId, base.decision.mode, effective, base.progression.activeRelationIds, principals,
                       domains, |domains|, unknown, effective != base.decision.mode, effective != GUARD),
      policy)
  }

  ghost function AssuredPlanOf(
    g: Graph, critical: set<Id>, focus: set<Id>, registry: Registry, policy: AssurancePolicy,
    digest: ComponentDigest): AssuredPlan
  {
    var base := BasePlan(g, critical, focus, digest);
    var sources := ActiveSources(g.relations, base.progression.activeRelationIds);
    AssuredFrom(base, PrincipalsOf(sources, registry), DomainsOf(sources, registry), UnknownOf(sources, registry),
                policy)
  }

  datatype AssuranceError = BINDING_REFUSED | PLAN_REFUSED(error: PlanError)

  /**
   `build_assured_active_defense_plan`. `bound` is the outcome of checking the perception receipts against
   the graph and the registry.
   */
  method BuildAssuredActiveDefensePlan(
    g: Graph, bound: bool, registry: Registry, critical: set<Id>, focus: set<Id>, policy: AssurancePolicy,
    digest: ComponentDigest)
    returns (result: Result<AssuredPlan, AssuranceError>)
    requires Valid(g) && ValidRegistry(registry)
    ensures result.Ok? <==> bound && critical <= EntityIds(g) && focus <= EntityIds(g) && Plannable(g)
    ensures result.Ok? ==> result.value == AssuredPlanOf(g, critical, focus, registry, policy, digest)
    ensures result == Err(BINDING_REFUSED) <==> !bound
  {
    if !bound {
      return Err(BINDING_REFUSED);
    }
    var planned := BuildActiveDefensePlan(g, critical, focus, digest);
    if planned.Err? {
      return Err(PLAN_REFUSED(planned.error));
    }
    var base := planned.value;
    var principals, domains, unknown := ActiveEvidenceDomains(g, base.progression.activeRelationIds, registry);
    result := Ok(AssuredFrom(base, principals, domains, unknown, policy));
  }

  // ----- what the gate promises

  /** The effective mode is the highest one that neither the base decision nor the domain count forbids. */
  lemma EffectiveIsGreatestAllowed(base: DefenseMode, count: nat, policy: AssurancePolicy, mode: DefenseMode)
    ensures Rank(EffectiveMode(base, count, policy)) <= Rank(base)
    ensures Rank(EffectiveMode(base, count, policy)) <= Rank(MaximumMode(count, policy))
    ensures Rank(mode) <= Rank(base) && Rank(mode) <= Rank(MaximumMode(count, policy))
            ==> Rank(mode) <= Rank(EffectiveMode(base, count, policy))
  {
  }

  /**
   The gate keeps the base plan's cut points and only ever withholds more of them: the two lists split the
   primary component's cut points, what is authorized was authorized before, and a downgrade is recorded exactly
   when the mode changed.
   */
  lemma GateOnlyWithholds(
    g: Graph, critical: set<Id>, focus: set<Id>, registry: Registry, policy: AssurancePolicy, digest: ComponentDigest)
    ensures var base := BasePlan(g, critical, focus, digest);
            var assured := AssuredPlanOf(g, critical, focus, registry, policy, digest);
            && multiset(assured.plan.authorized) + multiset(assured.plan.withheld)
               == multiset(base.progression.cutPoints)
            && assured.plan.progression == base.progression
            && (forall c :: c in assured.plan.authorized ==> c in base.authorized)
            && (forall c :: c in base.withheld ==> c in assured.plan.withheld)
            && (assured.receipt.downgraded <==> Rank(assured.plan.decision.mode) < Rank(base.decision.mode))
            && (!assured.receipt.downgraded ==> assured.plan.authorized == base.authorized)
  {
    var base := BasePlan(g, critical, focus, digest);
    var assured := AssuredPlanOf(g, critical, focus, registry, policy, digest);
    hide BasePlan;
    BasePlanShape(g, critical, focus, digest);
    var cuts, effective := base.progression.cutPoints, assured.plan.decision.mode;
    SplitConserves(cuts, ActionsOf(effective));
    SplitConserves(cuts, base.decision.permitted);
    EffectiveIsGreatestAllowed(base.decision.mode, assured.receipt.domainCount, policy, GUARD);
    forall c: CutPoint | Permitted(effective, c.action) ensures Permitted(base.decision.mode, c.action) {
      PermissionsGrow(effective, base.decision.mode, c.action);
    }
  }

  /** Every enrollment in force is still in force. */
  ghost predicate Extends(wider: Registry, registry: Registry) {
    forall e :: e in registry && e.enabled ==> e in wider
  }

  lemma DomainsGrow(sources: set<Id>, registry: Registry, wider: Registry)
    requires Extends(wider, registry)
    ensures DomainsOf(sources, registry) <= DomainsOf(sources, wider)
    ensures |DomainsOf(sources, registry)| <= |DomainsOf(sources, wider)|
  {
    var a, b := DomainsOf(sources, registry), DomainsOf(sources, wider);
    forall d | d in a ensures d in b {
      var e :| e in registry && e.enabled && e.principal in sources && e.domain == d;
      assert e in wider;
    }
    SubsetCardinality(a, b);
  }

  /** Enrolling more sources never lowers the mode and never withdraws an authorized cut point. */
  lemma MoreEnrollmentsNeverWithdraw(
    g: Graph, critical: set<Id>, focus: set<Id>, registry: Registry, wider: Registry, policy: AssurancePolicy,
    digest: ComponentDigest, c: CutPoint)
    requires Extends(wider, registry)
    ensures var narrow := AssuredPlanOf(g, critical, focus, registry, policy, digest);
            var wide := AssuredPlanOf(g, critical, focus, wider, policy, digest);
            && Rank(narrow.plan.decision.mode) <= Rank(wide.plan.decision.mode)
            && (c in narrow.plan.authorized ==> c in wide.plan.authorized)
  {
    var base := BasePlan(g, critical, focus, digest);
    var sources := ActiveSources(g.relations, base.progression.activeRelationIds);
    var narrow := AssuredPlanOf(g, critical, focus, registry, policy, digest);
    var wide := AssuredPlanOf(g, critical, focus, wider, policy, digest);
    hide BasePlan;
    DomainsGrow(sources, registry, wider);
    SplitConserves(base.progression.cutPoints, narrow.plan.decision.permitted);
    SplitConserves(base.progression.cutPoints, wide.plan.decision.permitted);
    if c in narrow.plan.authorized {
      PermissionsGrow(narrow.plan.decision.mode, wide.plan.decision.mode, c.action);
    }
  }

  /**
   An independence domain counts only on evidence: each one is vouched for by an enabled enrollment whose
   source supports a corroborating relation of the primary component.
   */
  lemma DomainsAreWitnessed(
    g: Graph, critical: set<Id>, focus: set<Id>, registry: Registry, policy: AssurancePolicy, digest: ComponentDigest,
    domain: Id)
    requires domain in AssuredPlanOf(g, critical, focus, registry, policy, digest).receipt.domains
    ensures var active := BasePlan(g, critical, focus, digest).progression.activeRelationIds;
            exists r, e, n :: r in g.relations && r.id in active && Corroborates(r) && e in r.evidence
                              && n in registry && n.enabled && n.principal == e.source && n.domain == domain
  {
    hide BasePlan;
    var active := BasePlan(g, critical, focus, digest).progression.activeRelationIds;
    var n :| n in registry && n.enabled && n.principal in ActiveSources(g.relations, active) && n.domain == domain;
    var r, e :| r in g.relations && Counts(active, r) && e in r.evidence && e.source == n.principal;
  }
}
