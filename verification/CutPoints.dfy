/** Downstream reach and defensive cut points of one graph (attack_progression.py). */
module CutPoints {
  import opened Ordering
  import opened StateGraph
  import opened Reachability
  import opened AttackComponents
  import opened StageScoring

  datatype DefenseAction =
    | OBSERVE | COLLECT_EVIDENCE | BLOCK_IOC | REVOKE_CREDENTIAL | TERMINATE_SESSION | KILL_PROCESS
    | ISOLATE_ENDPOINT | QUARANTINE_WORKLOAD | PAUSE_PIPELINE | FREEZE_SIGNER | HOLD_TRANSACTION
    | ISOLATE_MICROSEGMENT | BGP_BLACKHOLE_ROUTE | DIVERT_FLOWSPEC_SCRUBBING | PAUSE_PROTOCOL_CONTRACT
    | LOCK_HSM_PARTITION | TRIGGER_AIRGAP_ISOLATION | ENABLE_EMERGENCY_POLICY

  datatype CutPoint = CutPoint(
    entityId: Id, kind: EntityType, action: DefenseAction, effect: real, downstream: nat, supporting: seq<Id>)

  function ActionFor(kind: EntityType): Option<DefenseAction> {
    match kind
    case IDENTITY => Some(TERMINATE_SESSION)
    case CREDENTIAL => Some(REVOKE_CREDENTIAL)
    case PROTOCOL => Some(PAUSE_PROTOCOL_CONTRACT)
    case DEVICE => Some(ISOLATE_ENDPOINT)
    case PROCESS => Some(KILL_PROCESS)
    case PIPELINE => Some(PAUSE_PIPELINE)
    case CLOUD_RESOURCE => Some(QUARANTINE_WORKLOAD)
    case WALLET => Some(FREEZE_SIGNER)
    case TRANSACTION => Some(HOLD_TRANSACTION)
    case NETWORK_ENDPOINT => Some(BLOCK_IOC)
    case _ => None
  }

  // ----- downstream reach

  function ActiveArrows(g: Graph): map<Id, set<Id>> {
    DirectedLinks(ActiveRelations(g))
  }

  /** The other entities that active relations lead to from x, followed in their own direction. */
  ghost function Downstream(g: Graph, x: Id): set<Id> {
    set y | y in EntityIds(g) && y != x && Reaches(ActiveArrows(g), x, y)
  }

  lemma ArrowsStayInGraph(g: Graph)
    requires Valid(g)
    ensures Closed(ActiveArrows(g), EntityIds(g))
  {
    FilterKeeps(g.relations, Active);
    DirectedLinksMeaning(ActiveRelations(g));
  }

  /** `_reachable_count`: exactly the number of other entities downstream. */
  method ReachableCount(g: Graph, start: Id) returns (count: nat)
    requires Valid(g) && start in EntityIds(g)
    ensures count == |Downstream(g, start)|
  {
    ArrowsStayInGraph(g);
    var seen := BreadthFirst(ActiveArrows(g), start, EntityIds(g));
    ReachesItself(ActiveArrows(g), start);
    assert seen - {start} == Downstream(g, start);
    assert |seen| == |seen - {start}| + 1;
    count := if |seen| > 1 then |seen| - 1 else 0;
  }

  lemma DistinctEntityCount(g: Graph)
    requires Valid(g)
    ensures |EntityIds(g)| == |g.entities|
  {
    var ids := seq(|g.entities|, i requires 0 <= i < |g.entities| => g.entities[i].id);
    CardinalityOfElements(ids);
    forall x ensures x in Elements(ids) <==> x in EntityIds(g) {
      if x in EntityIds(g) {
        var e :| e in g.entities && e.id == x;
        var i :| 0 <= i < |g.entities| && g.entities[i] == e;
        assert ids[i] == x;
      }
    }
    assert Elements(ids) == EntityIds(g);
  }

  /** Downstream reach is at most the number of the other entities. */
  lemma DownstreamIsBounded(g: Graph, x: Id)
    requires Valid(g) && x in EntityIds(g)
    ensures |Downstream(g, x)| <= |g.entities| - 1
  {
    DistinctEntityCount(g);
    SubsetCardinality(Downstream(g, x), EntityIds(g) - {x});
  }

  // ----- candidates

  /** `relations_by_entity[x]`: a self-loop is listed twice, as in the source. */
  function Touching(rs: seq<Relation>, x: Id): seq<Relation> {
    if rs == [] then [] else
    var last := rs[|rs| - 1];
    Touching(rs[..|rs| - 1], x) + (if last.source == x then [last] else []) + (if last.target == x then [last] else [])
  }

  function MaxConfidence(rs: seq<Relation>): real
    requires rs != []
  {
    if |rs| == 1 then rs[0].confidence else Max(rs[0].confidence, MaxConfidence(rs[1..]))
  }

  predicate IdOrder(a: Id, b: Id) {
    a <= b
  }

  function ListIds(rs: seq<Relation>): seq<Id> {
    if rs == [] then [] else [rs[0].id] + ListIds(rs[1..])
  }

  function SupportingIds(rs: seq<Relation>): seq<Id> {
    Sort<Id>(ListIds(rs), IdOrder)
  }

  function Centrality(downstream: nat, entities: nat): real {
    var total := if entities >= 2 then entities - 1 else 1;
    Min(1.0, (downstream as real) / (total as real))
  }

  function Effect(centrality: real, touching: seq<Relation>): real
    requires touching != []
  {
    var bonus := if Filter(touching, IsObserved) != [] then 0.15 else 0.0;
    Min(1.0, 0.5 * centrality + 0.35 * MaxConfidence(touching) + bonus)
  }

  predicate HasCandidate(active: seq<Relation>, e: Entity) {
    ActionFor(e.kind).Some? && Touching(active, e.id) != []
  }

  function CandidateWith(active: seq<Relation>, entities: nat, e: Entity, downstream: nat): CutPoint
    requires HasCandidate(active, e)
  {
    var touching := Touching(active, e.id);
    CutPoint(e.id, e.kind, ActionFor(e.kind).value,
             Effect(Centrality(downstream, entities), touching), downstream, SupportingIds(touching))
  }

  ghost function Candidate(g: Graph, e: Entity): CutPoint
    requires HasCandidate(ActiveRelations(g), e)
  {
    CandidateWith(ActiveRelations(g), |g.entities|, e, |Downstream(g, e.id)|)
  }

  ghost function Candidates(g: Graph, es: seq<Entity>): seq<CutPoint> {
    if es == [] then [] else
    var last := es[|es| - 1];
    Candidates(g, es[..|es| - 1]) + (if HasCandidate(ActiveRelations(g), last) then [Candidate(g, last)] else [])
  }

  /** The key `(-effect_score, entity_id)`. */
  predicate CutOrder(a: CutPoint, b: CutPoint) {
    a.effect > b.effect || (a.effect == b.effect && a.entityId <= b.entityId)
  }

  function FirstEight(s: seq<CutPoint>): seq<CutPoint> {
    if |s| <= 8 then s else s[..8]
  }

  ghost function DefensiveCutPoints(g: Graph): seq<CutPoint> {
    FirstEight(Sort(Candidates(g, g.entities), CutOrder))
  }

  /** `relations_by_entity.get(x, [])`. */
  function Listed(byEntity: map<Id, seq<Relation>>, x: Id): seq<Relation> {
    if x in byEntity then byEntity[x] else []
  }

  method IndexRelations(active: seq<Relation>) returns (byEntity: map<Id, seq<Relation>>)
    ensures forall x :: Listed(byEntity, x) == Touching(active, x)
  {
    byEntity := map[];
    var i := 0;
    while i < |active|
      invariant 0 <= i <= |active|
      invariant forall x :: Listed(byEntity, x) == Touching(active[..i], x)
    {
      var r := active[i];
      ghost var before := byEntity;
      byEntity := byEntity[r.source := Listed(byEntity, r.source) + [r]];
      byEntity := byEntity[r.target := Listed(byEntity, r.target) + [r]];
      forall x ensures Listed(byEntity, x) == Touching(active[..i + 1], x) {
        TouchingStep(active, i, x);
        assert Listed(before, x) == Touching(active[..i], x);
      }
      i := i + 1;
    }
    assert active[..i] == active;
  }

  lemma TouchingStep(rs: seq<Relation>, i: nat, x: Id)
    requires i < |rs|
    ensures Touching(rs[..i + 1], x) == Touching(rs[..i], x)
                                        + (if rs[i].source == x then [rs[i]] else [])
                                        + (if rs[i].target == x then [rs[i]] else [])
  {
    assert rs[..i + 1][..i] == rs[..i];
  }

  /** `_cut_points`. */
  method ComputeCutPoints(g: Graph) returns (cuts: seq<CutPoint>)
    requires Valid(g)
    ensures cuts == DefensiveCutPoints(g)
  {
    var active := ActiveRelations(g);
    var byEntity := IndexRelations(active);
    var candidates := [];
    var i := 0;
    while i < |g.entities|
      invariant 0 <= i <= |g.entities|
      invariant candidates == Candidates(g, g.entities[..i])
    {
      var e := g.entities[i];
      assert g.entities[..i + 1][..i] == g.entities[..i];
      var touching := Listed(byEntity, e.id);
      if ActionFor(e.kind).Some? && touching != [] {
        assert e.id in EntityIds(g);
        var downstream := ReachableCount(g, e.id);
        candidates := candidates + [CandidateWith(active, |g.entities|, e, downstream)];
      }
      i := i + 1;
    }
    assert g.entities[..i] == g.entities;
    cuts := FirstEight(Sort(candidates, CutOrder));
  }

  // ----- what the cut points promise

  lemma {:induction false} CandidatesMeaning(g: Graph, es: seq<Entity>, c: CutPoint)
    ensures c in Candidates(g, es) <==>
              exists e :: e in es && HasCandidate(ActiveRelations(g), e) && c == Candidate(g, e)
  {
    if es != [] {
      var init, last := es[..|es| - 1], es[|es| - 1];
      assert es == init + [last];
      CandidatesMeaning(g, init, c);
      if exists e :: e in init && HasCandidate(ActiveRelations(g), e) && c == Candidate(g, e) {
        var e :| e in init && HasCandidate(ActiveRelations(g), e) && c == Candidate(g, e);
        assert e in es;
      }
    }
  }

  lemma {:induction false} TouchingMeaning(rs: seq<Relation>, x: Id)
    ensures forall r :: r in Touching(rs, x) <==> r in rs && Touches(r, x)
  {
    if rs != [] {
      TouchingMeaning(rs[..|rs| - 1], x);
      assert rs == rs[..|rs| - 1] + [rs[|rs| - 1]];
    }
  }

  lemma {:induction false} MaxConfidenceInRange(rs: seq<Relation>)
    requires rs != [] && InRange(rs)
    ensures 0.0 <= MaxConfidence(rs) <= 1.0
  {
    assert rs[0] in rs;
    if |rs| > 1 {
      MaxConfidenceInRange(rs[1..]);
    }
  }

  /** Both clamps are no-ops: centrality and effect stay within [0, 1] without them. */
  lemma ClampsAreNoOps(g: Graph, e: Entity)
    requires Valid(g) && e in g.entities && HasCandidate(ActiveRelations(g), e)
    ensures var touching := Touching(ActiveRelations(g), e.id);
            var total := if |g.entities| >= 2 then |g.entities| - 1 else 1;
            Candidate(g, e).effect == UnclampedEffect((|Downstream(g, e.id)| as real) / (total as real), touching)
    ensures 0.0 <= Candidate(g, e).effect <= 1.0
  {
    assert e.id in EntityIds(g);
    DownstreamIsBounded(g, e.id);
    var total := if |g.entities| >= 2 then |g.entities| - 1 else 1;
    RatioInUnit(|Downstream(g, e.id)|, total);
    var active := ActiveRelations(g);
    TouchingMeaning(active, e.id);
    FilterKeeps(g.relations, Active);
    EffectIsUnclamped((|Downstream(g, e.id)| as real) / (total as real), Touching(active, e.id));
  }

  ghost function UnclampedEffect(centrality: real, touching: seq<Relation>): real
    requires touching != []
  {
    0.5 * centrality + 0.35 * MaxConfidence(touching)
    + (if exists r :: r in touching && r.status.OBSERVED? then 0.15 else 0.0)
  }

  lemma EffectIsUnclamped(centrality: real, touching: seq<Relation>)
    requires touching != [] && 0.0 <= centrality <= 1.0 && InRange(touching)
    ensures Effect(centrality, touching) == UnclampedEffect(centrality, touching)
    ensures 0.0 <= Effect(centrality, touching) <= 1.0
  {
    MaxConfidenceInRange(touching);
    FilterKeeps(touching, IsObserved);
    var observed := Filter(touching, IsObserved);
    if observed != [] {
      assert observed[0] in observed;
    }
  }

  lemma RatioInUnit(a: nat, b: nat)
    requires 0 < b && a <= b
    ensures 0.0 <= (a as real) / (b as real) <= 1.0
  {
  }

  lemma CutOrderIsTotal()
    ensures TotalPreorder(CutOrder)
  {
  }

  /** At most eight cut points come back, best first, and none of them is beaten by an omitted candidate. */
  lemma CutPointsDominate(g: Graph)
    ensures |DefensiveCutPoints(g)| == (if |Candidates(g, g.entities)| <= 8 then |Candidates(g, g.entities)| else 8)
    ensures SortedBy(DefensiveCutPoints(g), CutOrder)
    ensures forall r :: r in DefensiveCutPoints(g) ==> r in Candidates(g, g.entities)
    ensures forall c, r :: c in Candidates(g, g.entities) && c !in DefensiveCutPoints(g) && r in DefensiveCutPoints(g)
                           ==> CutOrder(r, c)
  {
    var candidates := Candidates(g, g.entities);
    var sorted := Sort(candidates, CutOrder);
    CutOrderIsTotal();
    SortSorts(candidates, CutOrder);
    SortPermutes(candidates, CutOrder);
    var cuts := FirstEight(sorted);
    forall c, r | c in candidates && c !in cuts && r in cuts ensures CutOrder(r, c) {
      assert c in sorted;
      var i :| 0 <= i < |sorted| && sorted[i] == c;
      var j :| 0 <= j < |cuts| && cuts[j] == r;
      assert forall k :: 0 <= k < |cuts| ==> sorted[k] in cuts;
      assert sorted[j] == r && j < i;
    }
  }

  /** Every cut point sits on an entity of the graph that an active relation touches. */
  lemma CutPointsStayInside(g: Graph, c: CutPoint)
    requires c in DefensiveCutPoints(g)
    ensures c.entityId in EntityIds(g)
    ensures exists r :: r in g.relations && Active(r) && Touches(r, c.entityId)
  {
    CutPointsDominate(g);
    CandidatesMeaning(g, g.entities, c);
    var e :| e in g.entities && HasCandidate(ActiveRelations(g), e) && c == Candidate(g, e);
    TouchingMeaning(ActiveRelations(g), e.id);
    FilterKeeps(g.relations, Active);
    var r := Touching(ActiveRelations(g), e.id)[0];
    assert r in Touching(ActiveRelations(g), e.id);
  }
}
