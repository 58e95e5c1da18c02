/** Production envelopes for connector commands (assured_defense_connector.py, defense_connector_contract.py). */
module DefenseConnector {
  import opened Ordering
  import opened StateGraph
  import opened CutPoints
  import opened AttackProgression
  import opened DefenseAuthority
  import opened DefensePlanner
  import opened DefenseAssurance

  datatype ProtectedScope = ProtectedScope(id: Id, entityIds: set<Id>, actions: set<DefenseAction>)

  datatype Step = Step(id: Id, idLength: nat, action: DefenseAction, target: Id)

  datatype InterceptionPlan = InterceptionPlan(graphId: GraphId, mode: DefenseMode, steps: seq<Step>)

  datatype Command = Command(
    graphId: GraphId, stepId: Id, mode: DefenseMode, action: DefenseAction, target: Id, scopeId: Id,
    evidenceIds: seq<Id>, dryRun: bool)

  /** The two digests an envelope carries are those of the documents it carries. */
  datatype Envelope = Envelope(command: Command, receipt: AssuranceReceipt, policy: AssurancePolicy,
                               interception: InterceptionPlan)

  datatype Request = Request(
    scope: ProtectedScope, interception: InterceptionPlan, stepId: Id, evidenceIds: seq<Id>, dryRun: bool)

  datatype ConnectorError =
    | GRAPH_DIFFERS | MODE_DIFFERS | NO_SUCH_STEP | NOT_AUTHORIZED | NOT_PERMITTED
    | OUT_OF_SCOPE | SCOPE_FORBIDS | MODE_FORBIDS | NO_EVIDENCE | COMMAND_INVALID | ENVELOPE_INVALID

  const MAX_EVIDENCE_IDS := 256

  /** `next(row for row in steps if row.step_id == id)`. */
  function FindStep(steps: seq<Step>, id: Id): Option<Step> {
    if steps == [] then None else if steps[0].id == id then Some(steps[0]) else FindStep(steps[1..], id)
  }

  /** `dict.fromkeys`: first occurrences, in order. */
  function Deduplicated(ids: seq<Id>): seq<Id> {
    if ids == [] then [] else
    var earlier := Deduplicated(ids[..|ids| - 1]);
    if ids[|ids| - 1] in earlier then earlier else earlier + [ids[|ids| - 1]]
  }

  /** The field limits of a command. */
  predicate CommandFits(request: Request, graphId: GraphId, step: Step) {
    && FitsIdField(graphId.length) && FitsIdField(step.idLength)
    && |Deduplicated(request.evidenceIds)| <= MAX_EVIDENCE_IDS
  }

  /** `build_connector_command`. */
  function BuildCommand(
    request: Request, graphId: GraphId, mode: DefenseMode, step: Step): Result<Command, ConnectorError>
  {
    if step.target !in request.scope.entityIds then Err(OUT_OF_SCOPE)
    else if step.action !in request.scope.actions then Err(SCOPE_FORBIDS)
    else if !Permitted(mode, step.action) then Err(MODE_FORBIDS)
    else if request.evidenceIds == [] then Err(NO_EVIDENCE)
    else if !CommandFits(request, graphId, step) then Err(COMMAND_INVALID)
    else Ok(Command(graphId, step.id, mode, step.action, step.target, request.scope.id,
                    Deduplicated(request.evidenceIds), request.dryRun))
  }

  /** The domain-count part of the envelope validator. */
  predicate EnoughDomains(mode: DefenseMode, count: nat, policy: AssurancePolicy) {
    match mode
    case SIEGE => count >= policy.siegeMinimum
    case COMBAT => count >= policy.combatMinimum
    case GUARD => true
  }

  /** `production_binding_is_valid`. */
  predicate BindingIsValid(e: Envelope) {
    && e.command.graphId == e.receipt.graphId
    && e.interception.graphId == e.command.graphId
    && e.command.mode == e.receipt.effectiveMode
    && Permitted(e.command.mode, e.command.action)
    && e.interception.mode == e.command.mode
    && FindStep(e.interception.steps, e.command.stepId).Some?
    && FindStep(e.interception.steps, e.command.stepId).value.action == e.command.action
    && FindStep(e.interception.steps, e.command.stepId).value.target == e.command.target
    && EnoughDomains(e.command.mode, e.receipt.domainCount, e.policy)
  }

  predicate IsAuthorizedPair(plan: ActivePlan, action: DefenseAction, target: Id) {
    exists c :: c in plan.authorized && c.action == action && c.entityId == target
  }

  /** `build_assured_connector_envelope`. */
  function BuildEnvelope(assured: AssuredPlan, request: Request): Result<Envelope, ConnectorError> {
    var active := assured.plan;
    if request.interception.graphId != active.graphId then Err(GRAPH_DIFFERS)
    else if request.interception.mode != active.decision.mode then Err(MODE_DIFFERS)
    else
      var found := FindStep(request.interception.steps, request.stepId);
      if found.None? then Err(NO_SUCH_STEP)
      else if !IsAuthorizedPair(active, found.value.action, found.value.target) then Err(NOT_AUTHORIZED)
      else if found.value.action !in active.decision.permitted then Err(NOT_PERMITTED)
      else
        var command := BuildCommand(request, active.graphId, active.decision.mode, found.value);
        if command.Err? then Err(command.error)
        else
          var envelope := Envelope(command.value, assured.receipt, assured.policy, request.interception);
          if BindingIsValid(envelope) then Ok(envelope) else Err(ENVELOPE_INVALID)
  }

  /** What a request must get right for an assured plan. */
  ghost predicate WellAimed(plan: ActivePlan, request: Request) {
    && request.interception.graphId == plan.graphId
    && request.interception.mode == plan.decision.mode
    && FindStep(request.interception.steps, request.stepId).Some?
    && var step := FindStep(request.interception.steps, request.stepId).value;
    && IsAuthorizedPair(plan, step.action, step.target)
    && step.target in request.scope.entityIds
    && step.action in request.scope.actions
    && request.evidenceIds != [] && |Elements(request.evidenceIds)| <= MAX_EVIDENCE_IDS
    && FitsIdField(step.idLength)
  }

  /** Deduplication keeps each identifier once. */
  lemma {:induction false} DeduplicatedMeaning(ids: seq<Id>)
    ensures NoDuplicates(Deduplicated(ids)) && Elements(Deduplicated(ids)) == Elements(ids)
    ensures |Deduplicated(ids)| == |Elements(ids)|
  {
    if ids != [] {
      var init, last := ids[..|ids| - 1], ids[|ids| - 1];
      DeduplicatedMeaning(init);
      assert ids == init + [last];
      assert last in Deduplicated(init) <==> last in Elements(init);
      assert Elements(Deduplicated(init) + [last]) == Elements(init) + {last};
    }
    CardinalityOfElements(Deduplicated(ids));
  }

  lemma {:induction false} FoundStepHasId(steps: seq<Step>, id: Id)
    ensures FindStep(steps, id).Some? ==> FindStep(steps, id).value in steps && FindStep(steps, id).value.id == id
    ensures FindStep(steps, id).None? <==> forall s :: s in steps ==> s.id != id
  {
    if steps != [] {
      FoundStepHasId(steps[1..], id);
      assert steps == [steps[0]] + steps[1..];
    }
  }

  /**
   The gate's mode fails the connector's own domain count in one family of cases only: the base mode is
   Combat and the count reaches the Siege minimum but not a larger Combat minimum.
   */
  lemma DomainCheckFailsIff(base: DefenseMode, count: nat, policy: AssurancePolicy)
    ensures !EnoughDomains(EffectiveMode(base, count, policy), count, policy)
            <==> base == COMBAT && policy.siegeMinimum <= count < policy.combatMinimum
  {
  }

  /**
   The check passes for every base mode and every count exactly when the Combat minimum is at most the Siege
   minimum.
   */
  lemma DomainCheckAlwaysPassesIff(policy: AssurancePolicy)
    ensures (forall base, count: nat :: EnoughDomains(EffectiveMode(base, count, policy), count, policy))
            <==> policy.combatMinimum <= policy.siegeMinimum
  {
    forall base, count: nat ensures !EnoughDomains(EffectiveMode(base, count, policy), count, policy)
                               <==> base == COMBAT && policy.siegeMinimum <= count < policy.combatMinimum
    {
      DomainCheckFailsIff(base, count, policy);
    }
    if policy.combatMinimum > policy.siegeMinimum {
      assert !EnoughDomains(EffectiveMode(COMBAT, policy.siegeMinimum, policy), policy.siegeMinimum, policy);
    }
  }

  /** A policy its own validator accepts, and a plan for three domains the connector then refuses. */
  lemma ValidPolicyRefusedByConnector()
    ensures var policy := AssurancePolicy(10, 3);
            policy.Valid() && EffectiveMode(COMBAT, 3, policy) == COMBAT && !EnoughDomains(COMBAT, 3, policy)
  {
  }

  /**
   For a plan from the gate, an envelope is built exactly when the request is well aimed and the domain count
   suffices. None of the other checks of the builder, the command or the envelope validator can fail.
   */
  lemma EnvelopeBuiltIff(
    g: Graph, critical: set<Id>, focus: set<Id>, registry: Registry, policy: AssurancePolicy, digest: ComponentDigest,
    request: Request)
    requires Valid(g)
    ensures var assured := AssuredPlanOf(g, critical, focus, registry, policy, digest);
            && (BuildEnvelope(assured, request).Ok? <==>
                  WellAimed(assured.plan, request)
                  && EnoughDomains(assured.receipt.effectiveMode, assured.receipt.domainCount, policy))
            && (policy.combatMinimum <= policy.siegeMinimum ==>
                  (BuildEnvelope(assured, request).Ok? <==> WellAimed(assured.plan, request)))
  {
    var assured := AssuredPlanOf(g, critical, focus, registry, policy, digest);
    AssuredShape(g, critical, focus, registry, policy, digest);
    hide AssuredPlanOf, EnoughDomains, EffectiveMode, ActionsOf;
    DomainCheckFailsIff(assured.receipt.baseMode, assured.receipt.domainCount, policy);
    var found := FindStep(request.interception.steps, request.stepId);
    DeduplicatedMeaning(request.evidenceIds);
    FoundStepHasId(request.interception.steps, request.stepId);
    if found.Some? && IsAuthorizedPair(assured.plan, found.value.action, found.value.target) {
      var c :| c in assured.plan.authorized && c.action == found.value.action && c.entityId == found.value.target;
      assert c.action in assured.plan.decision.permitted;
    }
  }

  lemma AssuredShape(g: Graph, critical: set<Id>, focus: set<Id>, registry: Registry, policy: AssurancePolicy,
                     digest: ComponentDigest)
    ensures var assured := AssuredPlanOf(g, critical, focus, registry, policy, digest);
            && assured.policy == policy
            && assured.receipt.graphId == assured.plan.graphId == g.id
            && assured.receipt.effectiveMode == assured.plan.decision.mode
            && assured.receipt.effectiveMode == EffectiveMode(assured.receipt.baseMode, assured.receipt.domainCount,
                                                              policy)
            && assured.plan.decision.permitted == ActionsOf(assured.plan.decision.mode)
            && assured.receipt.domainCount == |assured.receipt.domains|
            && (forall c :: c in assured.plan.authorized <==>
                  c in assured.plan.progression.cutPoints && c.action in assured.plan.decision.permitted)
  {
    var base := BasePlan(g, critical, focus, digest);
    var assured := AssuredPlanOf(g, critical, focus, registry, policy, digest);
    assert base.graphId == g.id;
    hide BasePlan;
    SplitConserves(base.progression.cutPoints, assured.plan.decision.permitted);
  }

  /**
   A production command is warranted: its target is a cut point inside the primary attack component, its
   action is within the mode, and Combat or Siege rests on that mode's number of independence domains.
   */
  lemma EnvelopeIsWarranted(
    g: Graph, critical: set<Id>, focus: set<Id>, registry: Registry, policy: AssurancePolicy, digest: ComponentDigest,
    request: Request)
    requires BuildEnvelope(AssuredPlanOf(g, critical, focus, registry, policy, digest), request).Ok?
    ensures var assured := AssuredPlanOf(g, critical, focus, registry, policy, digest);
            var command := BuildEnvelope(assured, request).value.command;
            var primary := PrimaryComponent(Components(g, digest), if focus != {} then focus else critical);
            && primary.Some? && command.target in primary.value.entityIds
            && Permitted(command.mode, command.action)
            && command.mode == assured.receipt.effectiveMode
            && (command.mode == SIEGE ==> |assured.receipt.domains| >= policy.siegeMinimum)
            && (command.mode == COMBAT ==> |assured.receipt.domains| >= policy.combatMinimum)
            && command.target in request.scope.entityIds && command.action in request.scope.actions
  {
    var assured := AssuredPlanOf(g, critical, focus, registry, policy, digest);
    AssuredShape(g, critical, focus, registry, policy, digest);
    AssuredProgression(g, critical, focus, registry, policy, digest);
    hide AssuredPlanOf, Analysis, PrimaryComponent, Components;
    var step := FindStep(request.interception.steps, request.stepId).value;
    var c :| c in assured.plan.authorized && c.action == step.action && c.entityId == step.target;
    CutsStayInPrimary(g, if focus != {} then focus else critical, digest, c);
  }

  /** Each identifier comes where it first occurs. */
  lemma {:induction false} DeduplicatedInOrder(ids: seq<Id>)
    ensures var kept := Deduplicated(ids);
            forall i, j :: 0 <= i < j < |kept| ==> FirstAt(ids, kept[i]) < FirstAt(ids, kept[j])
  {
    if ids != [] {
      var init, last := ids[..|ids| - 1], ids[|ids| - 1];
      assert ids == init + [last];
      DeduplicatedInOrder(init);
      DeduplicatedMeaning(init);
      forall x | x in Deduplicated(init) ensures FirstAt(ids, x) == FirstAt(init, x) < |init| {
        assert x in Elements(init);
        FirstAtPrefix(init, last, x);
      }
      if last !in Deduplicated(init) {
        assert last !in Elements(init);
        FirstAtPrefix(init, last, last);
      }
    }
  }

  /** Where an identifier first occurs; the length of the list if it does not. */
  function FirstAt(ids: seq<Id>, x: Id): nat {
    if ids == [] || ids[0] == x then 0 else 1 + FirstAt(ids[1..], x)
  }

  lemma {:induction false} FirstAtPrefix(init: seq<Id>, last: Id, x: Id)
    ensures x in init ==> FirstAt(init + [last], x) == FirstAt(init, x) < |init|
    ensures x !in init ==> FirstAt(init + [last], x) == if x == last then |init| else |init| + 1
  {
    if init != [] {
      FirstAtPrefix(init[1..], last, x);
      assert (init + [last])[1..] == init[1..] + [last];
    }
  }

  /**
   A command does what was asked: the step's action and target under the plan's graph and mode and the request's scope,
   a dry run exactly when one was requested, and each evidence identifier once, in the order given.
   */
  lemma CommandCarriesRequest(assured: AssuredPlan, request: Request)
    requires BuildEnvelope(assured, request).Ok?
    ensures var envelope := BuildEnvelope(assured, request).value; var command := envelope.command;
            && (command.dryRun <==> request.dryRun)
            && command.scopeId == request.scope.id && command.stepId == request.stepId
            && (exists s :: s in request.interception.steps && s.id == request.stepId
                            && s.action == command.action && s.target == command.target)
            && command.graphId == assured.plan.graphId == assured.receipt.graphId
            && command.mode == assured.plan.decision.mode == assured.receipt.effectiveMode
            && NoDuplicates(command.evidenceIds)
            && (forall x :: x in command.evidenceIds <==> x in request.evidenceIds)
            && (forall i, j :: 0 <= i < j < |command.evidenceIds| ==>
                  FirstAt(request.evidenceIds, command.evidenceIds[i]) < FirstAt(request.evidenceIds,
                                                                                 command.evidenceIds[j]))
            && envelope.receipt == assured.receipt && envelope.policy == assured.policy
            && envelope.interception == request.interception
  {
    DeduplicatedMeaning(request.evidenceIds);
    DeduplicatedInOrder(request.evidenceIds);
    FoundStepHasId(request.interception.steps, request.stepId);
    hide FirstAt, FindStep, EnoughDomains, Deduplicated;
    assert forall x :: x in Deduplicated(request.evidenceIds) <==> x in Elements(Deduplicated(request.evidenceIds));
    assert forall x :: x in request.evidenceIds <==> x in Elements(request.evidenceIds);
  }

  lemma AssuredProgression(g: Graph, critical: set<Id>, focus: set<Id>, registry: Registry, policy: AssurancePolicy,
                           digest: ComponentDigest)
    ensures AssuredPlanOf(g, critical, focus, registry, policy, digest).plan.progression
            == Analysis(g, if focus != {} then focus else critical, digest)
  {
  }
}
