/** `build_attack_world_line_timeline` over any list of snapshots, and what holds of every timeline. */
module WorldLines {
  import opened Ordering
  import opened StateGraph
  import opened AttackProgression
  import opened WorldLineGroups
  import opened WorldLineTick
  import opened WorldLineAdvance
  import opened WorldLineTurns

  // ----- protected anchors

  /** A relation that is neither disproved nor below confidence 0.5. */
  predicate Credits(r: Relation) {
    !r.status.DISPROVED? && r.confidence >= 0.5
  }

  function AnchorsThrough(rs: seq<Relation>, entities: set<Id>, anchors: set<Id>): set<Id> {
    if rs == [] then entities * anchors else
    var r := rs[|rs| - 1];
    AnchorsThrough(rs[..|rs| - 1], entities, anchors)
    + (if Credits(r) && r.source in entities && r.target in anchors then {r.target} else {})
    + (if Credits(r) && r.target in entities && r.source in anchors then {r.source} else {})
  }

  function ProtectedAnchors(g: Graph, c: ComponentReport, anchors: set<Id>): set<Id> {
    if anchors == {} then {} else AnchorsThrough(g.relations, c.entityIds, anchors)
  }

  /** `_component_protected_anchors`. */
  method ComputeProtectedAnchors(g: Graph, c: ComponentReport, anchors: set<Id>) returns (found: set<Id>)
    ensures found == ProtectedAnchors(g, c, anchors)
  {
    if anchors == {} {
      return {};
    }
    found := c.entityIds * anchors;
    var i := 0;
    while i < |g.relations|
      invariant 0 <= i <= |g.relations|
      invariant found == AnchorsThrough(g.relations[..i], c.entityIds, anchors)
    {
      var r := g.relations[i];
      assert g.relations[..i + 1][..i] == g.relations[..i];
      if Credits(r) {
        if r.source in c.entityIds && r.target in anchors {
          found := found + {r.target};
        }
        if r.target in c.entityIds && r.source in anchors {
          found := found + {r.source};
        }
      }
      i := i + 1;
    }
    assert g.relations[..i] == g.relations;
  }

  function AnchorMap(g: Graph, components: seq<ComponentReport>, anchors: set<Id>): map<Id, set<Id>> {
    if components == [] then map[] else
    var c := components[|components| - 1];
    AnchorMap(g, components[..|components| - 1], anchors)[c.componentId := ProtectedAnchors(g, c, anchors)]
  }

  // ----- snapshots as ticks

  datatype Tick = Tick(components: seq<ComponentReport>, anchors: map<Id, set<Id>>)

  ghost function TickOf(g: Graph, anchors: set<Id>, digest: ComponentDigest): Tick {
    Tick(Components(g, digest), AnchorMap(g, Components(g, digest), anchors))
  }

  /** The components of a snapshot and the anchors of each, unless the analysis refuses the snapshot. */
  method ComputeTick(g: Graph, anchors: set<Id>, digest: ComponentDigest) returns (result: Result<Tick, AnalysisError>)
    requires StateGraph.Valid(g)
    ensures result.Ok? <==> Analysable(g)
    ensures result.Ok? ==> result.value == TickOf(g, anchors, digest)
  {
    hide Analysis, Components, ProtectedAnchors, TickOf, AnchorMap, StateGraph.Valid, Analysable;
    var report := AnalyzeAttackProgression(g, {}, digest);
    if report.Err? {
      return Err(report.error);
    }
    var components := report.value.components;
    AnalysisListsComponents(g, {}, digest);
    NoAnchorsYet(g, anchors);
    assert components[..0] == [];
    var found: map<Id, set<Id>> := map[];
    var i := 0;
    while i < |components|
      invariant 0 <= i <= |components|
      invariant found == AnchorMap(g, components[..i], anchors)
    {
      var own := ComputeProtectedAnchors(g, components[i], anchors);
      AnchorMapStep(g, components, i, anchors);
      found := found[components[i].componentId := own];
      i := i + 1;
    }
    assert components[..i] == components;
    TickIs(g, anchors, digest, Tick(components, found));
    result := Ok(Tick(components, found));
  }

  lemma NoAnchorsYet(g: Graph, anchors: set<Id>)
    ensures AnchorMap(g, [], anchors) == map[]
  {
  }

  lemma AnchorMapStep(g: Graph, components: seq<ComponentReport>, i: nat, anchors: set<Id>)
    requires i < |components|
    ensures AnchorMap(g, components[..i + 1], anchors)
            == AnchorMap(g, components[..i], anchors)[
                 components[i].componentId := ProtectedAnchors(g, components[i], anchors)]
  {
    assert components[..i + 1][..i] == components[..i];
  }

  lemma TickIs(g: Graph, anchors: set<Id>, digest: ComponentDigest, tick: Tick)
    requires tick == Tick(Components(g, digest), AnchorMap(g, Components(g, digest), anchors))
    ensures tick == TickOf(g, anchors, digest)
  {
  }

  // ----- the timeline as a function of the ticks

  predicate Names(lineByComponent: map<Id, Id>, components: seq<ComponentReport>) {
    forall i :: 0 <= i < |components| ==> components[i].componentId in lineByComponent
  }

  /** `[line_by_component[c.component_id] for c in components]`. */
  function Lookup(lineByComponent: map<Id, Id>, components: seq<ComponentReport>): seq<Id>
    requires Names(lineByComponent, components)
  {
    seq(|components|, i requires 0 <= i < |components| => lineByComponent[components[i].componentId])
  }

  /** `current_line_by_component` at the end of a tick. */
  ghost function LinesKept(x: TickContext): (lineByComponent: map<Id, Id>)
    requires x.Valid()
    ensures Names(lineByComponent, x.step.current)
  {
    EveryLineIsKept(x);
    Remembered(x, map[], Order(x))
  }

  lemma EveryLineIsKept(x: TickContext)
    requires x.Valid()
    ensures CurrInRange(x, Order(x))
    ensures Names(Remembered(x, map[], Order(x)), x.step.current)
  {
    hide Order, x.Valid;
    OrderInRange(x);
    OrderHoldsEach(x);
    forall c: nat | c < |x.step.current| ensures x.step.current[c].componentId in Remembered(x, map[], Order(x)) {
      RememberedIsLast(x, map[], Order(x), c);
    }
  }

  ghost function TickObserved(x: TickContext): seq<Observation>
    requires x.Valid()
  {
    OrderInRange(x);
    ObservationsOf(x, Order(x))
  }

  ghost function TickRecorded(x: TickContext): seq<Transition>
    requires x.Valid()
  {
    TurnsAreNodes(x);
    TransitionsOf(x, Turns(x))
  }

  /** A run: the ticks of all snapshots and what the timeline is built with. */
  datatype Run = Run(ticks: seq<Tick>, policy: Policy, stream: Id, digest: LineDigest)
  {
    /** What holds of every list of snapshots. */
    ghost predicate Valid() {
      && ValidPolicy(policy)
      && forall t :: 0 <= t < |ticks| ==> AllDisjoint(ticks[t].components) && Substantial(ticks[t].components)
    }

    /** Below tick n components of a tick have different identifiers, and minted lines tell them and ticks apart. */
    ghost predicate IdentifiedTo(n: nat)
      requires n <= |ticks|
    {
      && TicksDiffer(digest)
      && forall t :: 0 <= t < n ==> DistinctIds(ticks[t].components) && TellsApart(digest, ticks[t].components)
    }

    ghost predicate Identified() {
      IdentifiedTo(|ticks|)
    }

    function StepAt(t: nat): Step
      requires t < |ticks|
    {
      var before := if t == 0 then Tick([], map[]) else ticks[t - 1];
      Step(before.components, ticks[t].components, before.anchors, ticks[t].anchors, policy)
    }

    /** The line each component of tick t is remembered under. */
    ghost function KeptAt(t: nat): (lines: seq<Id>)
      requires Valid() && t < |ticks|
      ensures |lines| == |ticks[t].components|
      decreases t, 1
    {
      Lookup(LinesKept(ContextAt(t)), ticks[t].components)
    }

    ghost function ContextAt(t: nat): (x: TickContext)
      requires Valid() && t < |ticks|
      ensures x.Valid() && x.tick == t && x.step == StepAt(t)
      decreases t, 0
    {
      TickContext(StepAt(t), t, stream, digest, if t == 0 then [] else KeptAt(t - 1))
    }

    /** The line each component of tick t is observed with. */
    ghost function LinesAt(t: nat): (lines: seq<Id>)
      requires Valid() && t < |ticks|
      ensures |lines| == |ticks[t].components|
    {
      ContextAt(t).NextLines()
    }

    /** The observations of the ticks before t. */
    ghost function ObservationsBefore(t: nat): seq<Observation>
      requires Valid() && t <= |ticks|
    {
      if t == 0 then [] else ObservationsBefore(t - 1) + TickObserved(ContextAt(t - 1))
    }

    ghost function TransitionsBefore(t: nat): seq<Transition>
      requires Valid() && t <= |ticks|
    {
      if t == 0 then [] else TransitionsBefore(t - 1) + TickRecorded(ContextAt(t - 1))
    }
  }

  /** The key `(tick, world_line_id, component_id)`. */
  predicate ObservationOrder(a: Observation, b: Observation) {
    a.tick < b.tick || (a.tick == b.tick && (a.line < b.line || (a.line == b.line && a.componentId <= b.componentId)))
  }

  predicate LexLe(a: seq<Id>, b: seq<Id>) {
    a == [] || (b != [] && (a[0] < b[0] || (a[0] == b[0] && LexLe(a[1..], b[1..]))))
  }

  /** The alphabetic order of the transition names. */
  function NameRank(kind: TransitionKind): nat {
    match kind
    case CONTINUED => 0
    case ENDED => 1
    case MERGED => 2
    case NEW => 3
    case RECONFIGURED => 4
    case REROUTED => 5
    case SPLIT => 6
  }

  /** The key `(to_tick, name, predecessor lines, successor lines)`. */
  predicate TransitionOrder(a: Transition, b: Transition) {
    a.toTick < b.toTick || (a.toTick == b.toTick && (
      NameRank(a.kind) < NameRank(b.kind) || (a.kind == b.kind && (
        (a.predecessorLines != b.predecessorLines && LexLe(a.predecessorLines, b.predecessorLines))
        || (a.predecessorLines == b.predecessorLines && LexLe(a.successorLines, b.successorLines))))))
  }

  datatype Timeline = Timeline(observations: seq<Observation>, transitions: seq<Transition>)

  datatype TimelineError = NoSnapshots | NoPositiveWeights | SnapshotRefused | BadStreamId

  /** The timeline of a run: what its ticks observe and record, in key order. */
  ghost function TimelineOf(run: Run): Timeline
    requires run.Valid()
  {
    Timeline(Sort(run.ObservationsBefore(|run.ticks|), ObservationOrder),
             Sort(run.TransitionsBefore(|run.ticks|), TransitionOrder))
  }

  ghost function RunOf(
    graphs: seq<Graph>, anchors: set<Id>, policy: Policy, stream: Id, componentDigest: ComponentDigest,
    digest: LineDigest): Run
  {
    Run(seq(|graphs|, i requires 0 <= i < |graphs| => TickOf(graphs[i], anchors, componentDigest)), policy, stream,
        digest)
  }

  /** The components of one graph have different identifiers. */
  ghost predicate DistinctIn(g: Graph, digest: ComponentDigest) {
    DistinctIds(Components(g, digest))
  }

  /**
   Valid snapshots give a run of ticks whose components are apart, whatever the identifiers are; the run is
   identified exactly when in each snapshot different components have different identifiers.
   */
  lemma RunOfSnapshotsIsValid(
    graphs: seq<Graph>, anchors: set<Id>, policy: Policy, stream: Id, componentDigest: ComponentDigest,
    digest: LineDigest)
    requires forall i :: 0 <= i < |graphs| ==> StateGraph.Valid(graphs[i])
    requires ValidPolicy(policy)
    ensures var run := RunOf(graphs, anchors, policy, stream, componentDigest, digest);
            && run.Valid()
            && (run.Identified() <==>
                  TicksDiffer(digest) && forall i :: 0 <= i < |graphs| ==>
                    && DistinctIn(graphs[i], componentDigest)
                    && TellsApart(digest, Components(graphs[i], componentDigest)))
  {
    hide Components, StateGraph.Valid, AnchorMap, AllDisjoint, Substantial, DistinctIds, TicksDiffer, TellsApart;
    var run := RunOf(graphs, anchors, policy, stream, componentDigest, digest);
    forall i | 0 <= i < |graphs|
      ensures AllDisjoint(run.ticks[i].components) && Substantial(run.ticks[i].components)
      ensures DistinctIds(run.ticks[i].components) <==> DistinctIn(graphs[i], componentDigest)
    {
      ComponentsAreApart(graphs[i], componentDigest);
    }
  }

  // ----- the builder

  ghost predicate AllAnalysable(graphs: seq<Graph>) {
    forall i :: 0 <= i < |graphs| ==> Analysable(graphs[i])
  }

  method ComputeTicks(graphs: seq<Graph>, anchors: set<Id>, digest: ComponentDigest)
    returns (result: Result<seq<Tick>, AnalysisError>)
    requires forall i :: 0 <= i < |graphs| ==> StateGraph.Valid(graphs[i])
    ensures result.Ok? <==> AllAnalysable(graphs)
    ensures result.Ok? ==> |result.value| == |graphs|
    ensures result.Ok? ==> forall i :: 0 <= i < |graphs| ==> result.value[i] == TickOf(graphs[i], anchors, digest)
  {
    hide TickOf, Analysable, StateGraph.Valid;
    var ticks: seq<Tick> := [];
    var i := 0;
    while i < |graphs|
      invariant 0 <= i <= |graphs| && |ticks| == i
      invariant forall k :: 0 <= k < i ==> Analysable(graphs[k]) && ticks[k] == TickOf(graphs[k], anchors, digest)
    {
      var tick := ComputeTick(graphs[i], anchors, digest);
      if tick.Err? {
        return Err(tick.error);
      }
      ticks := ticks + [tick.value];
      i := i + 1;
    }
    result := Ok(ticks);
  }

  /** The dictionary carries the lines that tick t left in it. */
  ghost predicate Carries(run: Run, lineByComponent: map<Id, Id>, t: nat)
    requires run.Valid() && t < |run.ticks|
  {
    lineByComponent == LinesKept(run.ContextAt(t))
  }

  method AdvanceRun(run: Run, t: nat, lineByComponent0: map<Id, Id>)
    returns (lineByComponent: map<Id, Id>, observations: seq<Observation>, transitions: seq<Transition>)
    requires run.Valid() && t < |run.ticks|
    requires t > 0 ==> Carries(run, lineByComponent0, t - 1)
    ensures Carries(run, lineByComponent, t)
    ensures observations == TickObserved(run.ContextAt(t)) && transitions == TickRecorded(run.ContextAt(t))
  {
    hide LinesKept, run.Valid, Order, Turns, Remembered, ObservationsOf, TransitionsOf;
    KnownBefore(run, t, lineByComponent0);
    var lines := if t == 0 then [] else Lookup(lineByComponent0, run.ticks[t - 1].components);
    var x := TickContext(run.StepAt(t), t, run.stream, run.digest, lines);
    ContextIs(run, t, lineByComponent0, x);
    lineByComponent, observations, transitions := AdvanceTick(x);
    KeptIs(x);
  }

  lemma KnownBefore(run: Run, t: nat, lineByComponent: map<Id, Id>)
    requires run.Valid() && t < |run.ticks| && (t > 0 ==> Carries(run, lineByComponent, t - 1))
    ensures t > 0 ==> Names(lineByComponent, run.ticks[t - 1].components)
  {
    hide LinesKept, run.Valid;
  }

  lemma ContextIs(run: Run, t: nat, lineByComponent: map<Id, Id>, x: TickContext)
    requires run.Valid() && t < |run.ticks| && (t > 0 ==> Carries(run, lineByComponent, t - 1))
    requires t > 0 ==> Names(lineByComponent, run.ticks[t - 1].components)
    requires x == TickContext(run.StepAt(t), t, run.stream, run.digest,
                              if t == 0 then [] else Lookup(lineByComponent, run.ticks[t - 1].components))
    ensures x == run.ContextAt(t)
  {
    hide LinesKept, run.Valid;
  }

  lemma KeptIs(x: TickContext)
    requires x.Valid() && CurrInRange(x, Order(x)) && AreNodes(x, Turns(x))
    ensures LinesKept(x) == Remembered(x, map[], Order(x))
    ensures TickObserved(x) == ObservationsOf(x, Order(x)) && TickRecorded(x) == TransitionsOf(x, Turns(x))
  {
    hide Order, Turns, Remembered, ObservationsOf, TransitionsOf;
  }

  /** The loop over the ticks. */
  method BuildLists(run: Run) returns (observations: seq<Observation>, transitions: seq<Transition>)
    requires run.Valid()
    ensures observations == run.ObservationsBefore(|run.ticks|)
    ensures transitions == run.TransitionsBefore(|run.ticks|)
  {
    hide run.ContextAt, run.Valid, TickObserved, TickRecorded, LinesKept;
    observations, transitions := [], [];
    var lineByComponent: map<Id, Id> := map[];
    var t := 0;
    while t < |run.ticks|
      invariant 0 <= t <= |run.ticks|
      invariant t > 0 ==> Carries(run, lineByComponent, t - 1)
      invariant observations == run.ObservationsBefore(t) && transitions == run.TransitionsBefore(t)
    {
      var os, ts;
      lineByComponent, os, ts := AdvanceRun(run, t, lineByComponent);
      observations, transitions := observations + os, transitions + ts;
      t := t + 1;
    }
  }

  /**
   `build_attack_world_line_timeline`. `streamLength` is the length of the stream's name, which is only checked
   when the timeline is assembled.
   */
  method BuildTimeline(
    graphs: seq<Graph>, anchors: set<Id>, policy: Policy, stream: Id, streamLength: nat,
    componentDigest: ComponentDigest, digest: LineDigest)
    returns (result: Result<Timeline, TimelineError>)
    requires forall i :: 0 <= i < |graphs| ==> StateGraph.Valid(graphs[i])
    requires 0.0 <= policy.minOverlap <= 1.0 && 0.0 <= policy.entityWeight <= 1.0
    requires 0.0 <= policy.relationWeight <= 1.0 && 0.0 <= policy.anchorBonus <= 1.0
    ensures result.Err? ==>
              result.error == if graphs == [] then NoSnapshots
                              else if policy.entityWeight + policy.relationWeight <= 0.0 then NoPositiveWeights
                              else if !AllAnalysable(graphs) then SnapshotRefused
                              else BadStreamId
    ensures result.Ok? <==>
              && graphs != [] && policy.entityWeight + policy.relationWeight > 0.0 && AllAnalysable(graphs)
              && FitsIdField(streamLength)
    ensures result.Ok? ==>
              var run := RunOf(graphs, anchors, policy, stream, componentDigest, digest);
              run.Valid() && result.value == TimelineOf(run)
  {
    hide AllAnalysable, StateGraph.Valid, TickOf, Run.Valid;
    if graphs == [] {
      return Err(NoSnapshots);
    }
    if policy.entityWeight + policy.relationWeight <= 0.0 {
      return Err(NoPositiveWeights);
    }
    var ticks := ComputeTicks(graphs, anchors, componentDigest);
    if ticks.Err? {
      return Err(SnapshotRefused);
    }
    var run := Run(ticks.value, policy, stream, digest);
    RunOfSnapshotsIsValid(graphs, anchors, policy, stream, componentDigest, digest);
    assert run == RunOf(graphs, anchors, policy, stream, componentDigest, digest);
    var observations, transitions := BuildLists(run);
    if !FitsIdField(streamLength) {
      return Err(BadStreamId);
    }
    result := Ok(Timeline(Sort(observations, ObservationOrder), Sort(transitions, TransitionOrder)));
  }

  // ----- key orders

  lemma {:induction false} LexLeTotal(a: seq<Id>, b: seq<Id>)
    ensures LexLe(a, b) || LexLe(b, a)
  {
    if a != [] && b != [] {
      LexLeTotal(a[1..], b[1..]);
    }
  }

  lemma {:induction false} LexLeTransitive(a: seq<Id>, b: seq<Id>, c: seq<Id>)
    requires LexLe(a, b) && LexLe(b, c)
    ensures LexLe(a, c)
  {
    if a != [] && b != [] && c != [] && a[0] == b[0] == c[0] {
      LexLeTransitive(a[1..], b[1..], c[1..]);
    }
  }

  lemma {:induction false} LexLeAntisymmetric(a: seq<Id>, b: seq<Id>)
    requires LexLe(a, b) && LexLe(b, a)
    ensures a == b
  {
    if a != [] && b != [] {
      LexLeAntisymmetric(a[1..], b[1..]);
      assert a == [a[0]] + a[1..] && b == [b[0]] + b[1..];
    }
  }

  lemma ObservationOrderIsTotal()
    ensures TotalPreorder(ObservationOrder)
  {
  }

  lemma TransitionOrderCompares(a: Transition, b: Transition)
    ensures TransitionOrder(a, b) || TransitionOrder(b, a)
  {
    LexLeTotal(a.predecessorLines, b.predecessorLines);
    LexLeTotal(a.successorLines, b.successorLines);
  }

  lemma TransitionOrderChains(a: Transition, b: Transition, c: Transition)
    requires TransitionOrder(a, b) && TransitionOrder(b, c)
    ensures TransitionOrder(a, c)
  {
    if a.toTick == b.toTick == c.toTick && a.kind == b.kind == c.kind {
      if a.predecessorLines == b.predecessorLines == c.predecessorLines {
        LexLeTransitive(a.successorLines, b.successorLines, c.successorLines);
      } else {
        if LexLe(a.predecessorLines, b.predecessorLines) && LexLe(b.predecessorLines, c.predecessorLines) {
          LexLeTransitive(a.predecessorLines, b.predecessorLines, c.predecessorLines);
          if a.predecessorLines == c.predecessorLines {
            LexLeAntisymmetric(a.predecessorLines, b.predecessorLines);
          }
        }
      }
    }
  }

  lemma TransitionOrderIsTotal()
    ensures TotalPreorder(TransitionOrder)
  {
    forall a, b ensures TransitionOrder(a, b) || TransitionOrder(b, a) {
      TransitionOrderCompares(a, b);
    }
    forall a, b, c | TransitionOrder(a, b) && TransitionOrder(b, c) ensures TransitionOrder(a, c) {
      TransitionOrderChains(a, b, c);
    }
  }
}
