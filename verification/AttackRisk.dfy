/** What the numbers of a component report mean: its scores, predictions and risk (attack_progression.py). */
module AttackRisk {
  import opened Ordering
  import opened StateGraph
  import opened AttackComponents
  import opened StageScoring
  import opened CutPoints
  import opened AttackProgression

  // ----- stages

  /** The relations of a graph that speak for a stage. */
  ghost function SpeakFor(rs: seq<Relation>, stage: Stage): set<Relation> {
    set r | r in rs && r.status != DISPROVED && r.kind.stage == Some(stage)
  }

  /** An observed relation weighs its confidence, an inferred one 0.65 of it and a predicted one 0.25 of it. */
  function Belief(r: Relation): real {
    match r.status
    case OBSERVED => r.confidence
    case INFERRED => 0.65 * r.confidence
    case PREDICTED => 0.25 * r.confidence
    case DISPROVED => 0.0
  }

  /** Each record of evidence adds 0.03, five at most, and nothing weighs more than 1. */
  lemma WeightMeaning(r: Relation)
    requires ValidRelation(r)
    ensures var records := if |r.evidence| <= 5 then |r.evidence| else 5;
            var plain := Belief(r) + 0.03 * (records as real);
            RelationWeight(r) == if r.status == DISPROVED then 0.0 else if plain <= 1.0 then plain else 1.0
  {
  }

  /** Weight grows with confidence and evidence, and observing a relation weighs at least as much as inferring it. */
  lemma WeightGrows(a: Relation, b: Relation)
    requires ValidRelation(a) && ValidRelation(b)
    requires a.confidence <= b.confidence && |a.evidence| <= |b.evidence|
    requires a.status == b.status || b.status == OBSERVED || a.status == DISPROVED
             || (a.status == PREDICTED && b.status == INFERRED)
    ensures RelationWeight(a) <= RelationWeight(b)
  {
    WeightInRange(b);
  }

  /** An observed relation comes with evidence, so it weighs more than its confidence unless it weighs 1. */
  lemma ObservedIsBacked(r: Relation)
    requires ValidRelation(r) && r.status == OBSERVED
    ensures RelationWeight(r) == 1.0 || RelationWeight(r) >= r.confidence + 0.03
  {
    assert |r.evidence| >= 1;
  }

  lemma SpeakersAreCounted(rs: seq<Relation>, stage: Stage)
    requires NoDuplicates(rs)
    ensures forall r :: r in AtStage(rs, stage) <==> r in SpeakFor(rs, stage)
    ensures |AtStage(rs, stage)| == |SpeakFor(rs, stage)|
    ensures RelationIds(AtStage(rs, stage)) == SpeakerIds(rs, stage)
  {
    var counted := AtStage(rs, stage);
    FilterKeeps(rs, CountsFor(stage));
    CardinalityOfElements(counted);
    assert Elements(counted) == SpeakFor(rs, stage);
  }

  /**
   The score of a stage: none without relations that speak for it; otherwise the weight of the heaviest, and 0.04 more
   for every further one, five at most, capped at 1.
   */
  lemma StageScoreMeaning(rs: seq<Relation>, stage: Stage, heaviest: Relation)
    requires NoDuplicates(rs)
    ensures SpeakFor(rs, stage) == {} ==> StageScore(rs, stage) == 0.0
    ensures heaviest in SpeakFor(rs, stage)
            && (forall r :: r in SpeakFor(rs, stage) ==> RelationWeight(r) <= RelationWeight(heaviest))
            ==> var more := if |SpeakFor(rs, stage)| <= 6 then |SpeakFor(rs, stage)| - 1 else 5;
                var plain := RelationWeight(heaviest) + 0.04 * (more as real);
                StageScore(rs, stage) == if plain <= 1.0 then plain else 1.0
  {
    hide RelationWeight, SpeakFor, AtStage;
    var counted := AtStage(rs, stage);
    SpeakersAreCounted(rs, stage);
    SomeoneSpeaks(rs, stage);
    if counted != [] {
      StrongestIsMaximum(counted);
    }
  }

  ghost function SpeakAs(rs: seq<Relation>, stage: Stage, status: EvidenceStatus): set<Relation> {
    set r | r in SpeakFor(rs, stage) && r.status == status
  }

  ghost function SpeakerIds(rs: seq<Relation>, stage: Stage): set<Id> {
    set r | r in SpeakFor(rs, stage) :: r.id
  }

  lemma CountAs(rs: seq<Relation>, stage: Stage, keep: Relation -> bool, status: EvidenceStatus)
    requires NoDuplicates(rs) && forall r :: keep(r) <==> r.status == status
    ensures |Filter(AtStage(rs, stage), keep)| == |SpeakAs(rs, stage, status)|
  {
    var counted := AtStage(rs, stage);
    SpeakersAreCounted(rs, stage);
    FilterKeeps(rs, CountsFor(stage));
    FilterKeeps(counted, keep);
    CardinalityOfElements(Filter(counted, keep));
    assert Elements(Filter(counted, keep)) == SpeakAs(rs, stage, status);
  }

  /** A stage has one row iff a relation speaks for it; the row lists these and counts the observed and the inferred. */
  lemma StageRowMeaning(rs: seq<Relation>, row: StageEvidence)
    requires NoDuplicates(rs)
    ensures row in StageRows(rs, 14) <==>
              && SpeakFor(rs, row.stage) != {}
              && row.relationIds == SpeakerIds(rs, row.stage)
              && row.score == StageScore(rs, row.stage)
              && row.observed == |SpeakAs(rs, row.stage, OBSERVED)|
              && row.inferred == |SpeakAs(rs, row.stage, INFERRED)|
  {
    hide StageRows, SpeakFor, SpeakAs, AtStage, StageScore, StageRow;
    var stage := row.stage;
    RowsMeaning(rs, 14, row);
    SpeakersAreCounted(rs, stage);
    CountAs(rs, stage, IsObserved, OBSERVED);
    CountAs(rs, stage, IsInferred, INFERRED);
    StageRowShape(rs, stage);
    SomeoneSpeaks(rs, stage);
  }

  lemma StageRowShape(rs: seq<Relation>, stage: Stage)
    ensures StageRow(rs, stage) ==
            StageEvidence(stage, RelationIds(AtStage(rs, stage)), StageScore(rs, stage),
                          |Filter(AtStage(rs, stage), IsObserved)|, |Filter(AtStage(rs, stage), IsInferred)|)
  {
  }

  lemma SomeoneSpeaks(rs: seq<Relation>, stage: Stage)
    ensures AtStage(rs, stage) == [] <==> SpeakFor(rs, stage) == {}
  {
    var counted := AtStage(rs, stage);
    FilterKeeps(rs, CountsFor(stage));
    if counted != [] {
      assert counted[0] in counted && counted[0] in SpeakFor(rs, stage);
    }
    if SpeakFor(rs, stage) != {} {
      var r := SomeElement(SpeakFor(rs, stage));
      assert r in counted;
    }
  }

  // ----- predictions

  /** A successor of the stage that no credible row covers. */
  predicate Ahead(current: Stage, rows: seq<StageEvidence>, stage: Stage) {
    stage in Successors(current) && forall row :: row in rows && row.stage == stage ==> row.score < 0.5
  }

  /** a comes before b in the list. */
  ghost predicate Earlier(stages: seq<Stage>, a: Stage, b: Stage) {
    exists i, j :: 0 <= i < j < |stages| && stages[i] == a && stages[j] == b
  }

  lemma {:induction false} FilterIsShorter<T(!new)>(s: seq<T>, keep: T -> bool)
    ensures |Filter(s, keep)| <= |s|
  {
    if s != [] {
      FilterIsShorter(s[1..], keep);
    }
  }

  lemma FilterKeepsOrder(s: seq<Stage>, keep: Stage -> bool)
    ensures forall i, j :: 0 <= i < j < |Filter(s, keep)| ==> Earlier(s, Filter(s, keep)[i], Filter(s, keep)[j])
  {
    hide Filter;
    var earlier := (a: Stage, b: Stage) => Earlier(s, a, b);
    assert Pairwise(s, earlier);
    FilterKeepsPairwise(s, keep, earlier);
  }

  lemma UncoveredMeaning(current: Stage, rows: seq<StageEvidence>)
    ensures var next := Uncovered(current, rows);
            && |next| <= 3
            && (forall s :: s in next <==> Ahead(current, rows, s))
            && (forall i, j :: 0 <= i < j < |next| ==> Earlier(Successors(current), next[i], next[j]))
  {
    var present := set row | row in rows && Credible(row) :: row.stage;
    var keep := (s: Stage) => s !in present;
    assert Uncovered(current, rows) == Filter(Successors(current), keep);
    FilterKeeps(Successors(current), keep);
    FilterIsShorter(Successors(current), keep);
    FilterKeepsOrder(Successors(current), keep);
    FewSuccessors(current);
    hide Successors, Filter, Earlier;
    forall s ensures s in Uncovered(current, rows) <==> Ahead(current, rows, s) {
    }
  }

  lemma FewSuccessors(current: Stage)
    ensures |Successors(current)| <= 3
  {
  }

  /**
   What is predicted from the current stage: every successor that no credible row covers, in the order of the table,
   the first with probability 0.72 if it is the only one and 0.58 otherwise, each further one 0.08 less. Neither the
   limit of three nor the floor of 0.25 ever acts.
   */
  lemma PredictionsMeaning(current: Stage, rows: seq<StageEvidence>)
    ensures var ps := Predictions(Some(current), rows);
            && (forall s :: Ahead(current, rows, s) <==> exists p :: p in ps && p.to == s)
            && (forall i, j :: 0 <= i < j < |ps| ==> Earlier(Successors(current), ps[i].to, ps[j].to))
            && (forall i :: 0 <= i < |ps| ==>
                  && ps[i].from == current
                  && ps[i].probability == (if |ps| == 1 then 0.72 else 0.58) - 0.08 * (i as real))
            && (forall i, j :: 0 <= i < j < |ps| ==> 0.25 < ps[j].probability < ps[i].probability)
  {
    hide Uncovered, Ahead, Earlier, Successors;
    UncoveredMeaning(current, rows);
    var next, ps := Uncovered(current, rows), Predictions(Some(current), rows);
    assert |ps| == |next| && forall i :: 0 <= i < |ps| ==> ps[i].to == next[i];
    forall s ensures s in next <==> exists p :: p in ps && p.to == s {
      if s in next {
        var i :| 0 <= i < |next| && next[i] == s;
        assert ps[i] in ps;
      }
    }
  }

  // ----- risk

  /** x is the greatest score of the rows, 0 if there are none. */
  ghost predicate GreatestScore(rows: seq<StageEvidence>, x: real) {
    && (forall row :: row in rows ==> row.score <= x)
    && if rows == [] then x == 0.0 else exists row :: row in rows && row.score == x
  }

  /** x is the greatest effect of the cut points, 0 if there are none. */
  ghost predicate GreatestEffect(cuts: seq<CutPoint>, x: real) {
    && (forall c :: c in cuts ==> c.effect <= x)
    && if cuts == [] then x == 0.0 else exists c :: c in cuts && c.effect == x
  }

  lemma {:induction false} ConfidenceIsGreatest(rows: seq<StageEvidence>)
    ensures GreatestScore(rows, Confidence(rows))
  {
    if rows != [] {
      var init, last := rows[..|rows| - 1], rows[|rows| - 1];
      assert rows == init + [last];
      ConfidenceIsGreatest(init);
      GreatestStep(init, last, Confidence(init));
    }
  }

  lemma GreatestStep(init: seq<StageEvidence>, last: StageEvidence, x: real)
    requires GreatestScore(init, x)
    ensures GreatestScore(init + [last], if init == [] || x <= last.score then last.score else x)
  {
    var rows := init + [last];
    assert last in rows && forall row :: row in init ==> row in rows;
  }

  lemma {:induction false} MaxEffectIsGreatest(cuts: seq<CutPoint>)
    ensures GreatestEffect(cuts, MaxEffect(cuts))
  {
    if cuts != [] {
      var first, rest := cuts[0], cuts[1..];
      assert cuts == [first] + rest;
      MaxEffectIsGreatest(rest);
      GreatestEffectStep(first, rest, MaxEffect(rest));
    }
  }

  lemma GreatestEffectStep(first: CutPoint, rest: seq<CutPoint>, x: real)
    requires GreatestEffect(rest, x)
    ensures GreatestEffect([first] + rest, if rest == [] || x <= first.effect then first.effect else x)
  {
    var cuts := [first] + rest;
    assert first in cuts && forall c :: c in rest ==> c in cuts;
  }

  lemma GreatestEffectIsOne(cuts: seq<CutPoint>, x: real)
    requires GreatestEffect(cuts, x)
    ensures x == MaxEffect(cuts)
  {
    MaxEffectIsGreatest(cuts);
  }

  /** How far an attack has come; the first stage counts for as little as none. */
  function Progress(current: Option<Stage>): nat {
    match current
    case None => 0
    case Some(stage) => stage
  }

  lemma ScoresAreUnit(g: Graph, ids: set<Id>, digest: ComponentDigest)
    requires Valid(g)
    ensures 0.0 <= ComponentReportOf(g, ids, digest).confidence <= 1.0
    ensures 0.0 <= MaxEffect(ComponentReportOf(g, ids, digest).cutPoints) <= 1.0
  {
    var sub := ComponentSubgraph(g, ids);
    SubgraphIsValid(g, ids);
    RowsAreUnit(sub.relations);
    CutsAreUnit(sub);
    hide ComponentSubgraph, Valid;
  }

  lemma RowsAreUnit(rs: seq<Relation>)
    requires InRange(rs)
    ensures 0.0 <= Confidence(StageRows(rs, 14)) <= 1.0
  {
    var rows := StageRows(rs, 14);
    ConfidenceIsGreatest(rows);
    if rows != [] {
      var row :| row in rows && row.score == Confidence(rows);
      RowsMeaning(rs, 14, row);
      StageScoreInRange(rs, row.stage);
    }
  }

  lemma CutsAreUnit(g: Graph)
    requires Valid(g)
    ensures 0.0 <= MaxEffect(DefensiveCutPoints(g)) <= 1.0
  {
    hide Valid, Candidates, DefensiveCutPoints, Candidate;
    var cuts := DefensiveCutPoints(g);
    MaxEffectIsGreatest(cuts);
    if cuts != [] {
      var c :| c in cuts && c.effect == MaxEffect(cuts);
      CutPointsDominate(g);
      CandidatesMeaning(g, g.entities, c);
      var e :| e in g.entities && HasCandidate(ActiveRelations(g), e) && c == Candidate(g, e);
      ClampsAreNoOps(g, e);
    }
  }

  /**
   A component's confidence is the greatest score of its stages. Its risk weighs the stage it has come to, out of the
   last one, with 0.45, its confidence with 0.35, the greatest effect of a cut point with 0.15 and its size, out of
   eight entities, with 0.05; the cap at 1 never acts.
   */
  lemma RiskMeaning(g: Graph, ids: set<Id>, digest: ComponentDigest, effect: real)
    requires Valid(g) && GreatestEffect(ComponentReportOf(g, ids, digest).cutPoints, effect)
    ensures var c := ComponentReportOf(g, ids, digest);
            && GreatestScore(c.stages, c.confidence)
            && c.risk == 0.45 * ((Progress(c.currentStage) as real) / 13.0) + 0.35 * c.confidence + 0.15 * effect
                         + 0.05 * (if |ids| <= 8 then (|ids| as real) / 8.0 else 1.0)
            && 0.0 <= c.risk <= 1.0
  {
    var c := ComponentReportOf(g, ids, digest);
    ScoresAreUnit(g, ids, digest);
    GreatestEffectIsOne(c.cutPoints, effect);
    ConfidenceIsGreatest(c.stages);
    hide ComponentSubgraph, DefensiveCutPoints, StageRows, CurrentStage, Confidence, MaxEffect, GreatestScore;
  }

  /** A report on some entities of some valid graph. */
  ghost predicate IsReport(c: ComponentReport) {
    exists g, ids, digest :: Valid(g) && c == ComponentReportOf(g, ids, digest)
  }

  /** Risk never falls when stage, confidence, best effect and size grow, and rises strictly with the stage. */
  lemma RiskGrows(a: ComponentReport, b: ComponentReport, effect: real, effect': real)
    requires IsReport(a) && IsReport(b)
    requires GreatestEffect(a.cutPoints, effect) && GreatestEffect(b.cutPoints, effect')
    requires Progress(a.currentStage) <= Progress(b.currentStage) && a.confidence <= b.confidence
             && effect <= effect' && |a.entityIds| <= |b.entityIds|
    ensures a.risk <= b.risk
    ensures Progress(a.currentStage) < Progress(b.currentStage) ==> a.risk < b.risk
  {
    hide ComponentReportOf, Valid, GreatestEffect;
    RiskOfReport(a, effect);
    RiskOfReport(b, effect');
  }

  lemma RiskOfReport(c: ComponentReport, effect: real)
    requires IsReport(c) && GreatestEffect(c.cutPoints, effect)
    ensures c.risk == 0.45 * ((Progress(c.currentStage) as real) / 13.0) + 0.35 * c.confidence + 0.15 * effect
                      + 0.05 * (if |c.entityIds| <= 8 then (|c.entityIds| as real) / 8.0 else 1.0)
  {
    var g, ids, digest :| Valid(g) && c == ComponentReportOf(g, ids, digest);
    RiskMeaning(g, ids, digest, effect);
    assert c.entityIds == ids;
  }

  lemma ComponentsAreReports(g: Graph, digest: ComponentDigest)
    requires Valid(g)
    ensures forall c :: c in Components(g, digest) ==> IsReport(c)
  {
    hide Components, ActiveComponents, ComponentReportOf, Valid;
    ComponentsMeaning(g, digest);
  }

  // ----- the primary component

  /** The components the focus leaves to choose from: those it touches, or all when it touches none. */
  ghost predicate Eligible(components: seq<ComponentReport>, focus: set<Id>, c: ComponentReport) {
    c in components && (focus * c.entityIds != {} || forall d :: d in components ==> focus * d.entityIds == {})
  }

  /** Greater risk, or as much at a later stage, or at the same one with more confidence. */
  predicate MoreUrgent(a: ComponentReport, b: ComponentReport) {
    || a.risk > b.risk
    || (a.risk == b.risk && Rank(a.currentStage) > Rank(b.currentStage))
    || (a.risk == b.risk && a.currentStage == b.currentStage && a.confidence > b.confidence)
  }

  /** The primary component is eligible, none is more urgent, and of its equals it has the greatest identifier. */
  lemma PrimaryIsMostUrgent(components: seq<ComponentReport>, focus: set<Id>)
    ensures var primary := PrimaryComponent(components, focus);
            && (primary.None? <==> components == [])
            && (primary.Some? ==> Eligible(components, focus, primary.value))
            && (forall c :: Eligible(components, focus, c) ==>
                  && primary.Some? && !MoreUrgent(c, primary.value)
                  && (MoreUrgent(primary.value, c) || c.componentId <= primary.value.componentId))
  {
    if components != [] {
      var focused := Filter(components, Meets(focus));
      FilterKeeps(components, Meets(focus));
      var candidates := if focused != [] then focused else components;
      BestIsNotOutranked(candidates);
      if focused != [] {
        assert focused[0] in focused;
      }
      forall c ensures c in candidates <==> Eligible(components, focus, c) {
        if focused == [] {
          assert forall d :: d in components ==> d !in focused;
        }
      }
    }
  }

  /** Of eligible components alike in confidence, best effect and size, the primary one is the furthest along. */
  lemma FurthestIsPrimary(g: Graph, focus: set<Id>, digest: ComponentDigest, c: ComponentReport, effect: real)
    requires Valid(g) && Eligible(Components(g, digest), focus, c)
    requires var primary := PrimaryComponent(Components(g, digest), focus);
             && primary.Some? && c.confidence == primary.value.confidence
             && |c.entityIds| == |primary.value.entityIds|
             && GreatestEffect(c.cutPoints, effect) && GreatestEffect(primary.value.cutPoints, effect)
    ensures Rank(c.currentStage) <= Rank(PrimaryComponent(Components(g, digest), focus).value.currentStage)
  {
    var components := Components(g, digest);
    var primary := PrimaryComponent(components, focus).value;
    ComponentsAreReports(g, digest);
    PrimaryIsMostUrgent(components, focus);
    hide Components, PrimaryComponent, IsReport, GreatestEffect, Valid;
    if Progress(primary.currentStage) < Progress(c.currentStage) {
      RiskGrows(primary, c, effect, effect);
    } else if Progress(primary.currentStage) == Progress(c.currentStage) {
      RiskGrows(primary, c, effect, effect);
      RiskGrows(c, primary, effect, effect);
    }
  }

  /** The listed components come by falling risk, and components of the same risk by their identifiers. */
  lemma ComponentsByRisk(g: Graph, digest: ComponentDigest, i: nat, j: nat)
    requires i < j < |Components(g, digest)|
    ensures var cs := Components(g, digest);
            cs[i].risk > cs[j].risk || (cs[i].risk == cs[j].risk && cs[i].componentId <= cs[j].componentId)
  {
    SortSorts(ReportsOf(g, ActiveComponents(g), digest), RiskOrder);
  }

  /** At top level an analysis repeats its primary component; without a component it only lists what is disproved. */
  lemma AnalysisRepeatsPrimary(g: Graph, focus: set<Id>, digest: ComponentDigest)
    ensures var report := Analysis(g, focus, digest);
            var primary := PrimaryComponent(Components(g, digest), focus);
            && report.graphId == g.id && report.components == Components(g, digest)
            && (primary.Some? ==>
                  && report.primaryComponentId == Some(primary.value.componentId)
                  && report.stages == primary.value.stages && report.currentStage == primary.value.currentStage
                  && report.confidence == primary.value.confidence && report.predicted == primary.value.predicted
                  && report.cutPoints == primary.value.cutPoints
                  && report.activeRelationIds == primary.value.activeRelationIds
                  && report.disprovedRelationIds == primary.value.disprovedRelationIds)
            && (ActiveEntities(g) == {} ==>
                  && report.primaryComponentId == None && report.components == []
                  && report.stages == [] && report.currentStage == None && report.confidence == 0.0
                  && report.predicted == [] && report.cutPoints == [] && report.activeRelationIds == {}
                  && report.disprovedRelationIds == set r | r in g.relations && r.status == DISPROVED :: r.id)
  {
    ComponentsMeaning(g, digest);
    DisprovedIds(g.relations);
    hide Components;
  }

  lemma DisprovedIds(rs: seq<Relation>)
    ensures RelationIds(Filter(rs, IsDisproved)) == set r | r in rs && r.status == DISPROVED :: r.id
  {
    FilterKeeps(rs, IsDisproved);
  }

  predicate Within(r: Relation, ids: set<Id>) {
    r.source in ids && r.target in ids
  }

  /** Which relations a component's report names: those of the graph with both ends in it, by their status. */
  lemma ReportNamesRelations(g: Graph, ids: set<Id>, digest: ComponentDigest)
    ensures var c := ComponentReportOf(g, ids, digest);
            && c.entityIds == ids && c.componentId == digest(ids, c.activeRelationIds)
            && c.relationIds == (set r | r in g.relations && Within(r, ids) :: r.id)
            && c.activeRelationIds ==
               (set r | r in g.relations && Within(r, ids) && (r.status == OBSERVED || r.status == INFERRED)
                        && r.confidence >= 0.5 :: r.id)
            && c.disprovedRelationIds == (set r | r in g.relations && Within(r, ids) && r.status == DISPROVED :: r.id)
  {
    NamedRelations(g, ids);
    NamedActive(g, ids);
    NamedDisproved(g, ids);
    hide ComponentSubgraph, ActiveRelations, RelationIds, Within, StageRows, DefensiveCutPoints;
  }

  lemma NamedRelations(g: Graph, ids: set<Id>)
    ensures RelationIds(ComponentSubgraph(g, ids).relations) == set r | r in g.relations && Within(r, ids) :: r.id
  {
    FilterKeeps(g.relations, RelationInside(ids));
    hide Filter;
  }

  lemma NamedActive(g: Graph, ids: set<Id>)
    ensures RelationIds(ActiveRelations(ComponentSubgraph(g, ids))) ==
            set r | r in g.relations && Within(r, ids) && (r.status == OBSERVED || r.status == INFERRED)
                    && r.confidence >= 0.5 :: r.id
  {
    var sub := ComponentSubgraph(g, ids);
    FilterKeeps(g.relations, RelationInside(ids));
    FilterKeeps(sub.relations, Active);
    hide Filter;
  }

  lemma NamedDisproved(g: Graph, ids: set<Id>)
    ensures RelationIds(Filter(ComponentSubgraph(g, ids).relations, IsDisproved)) ==
            set r | r in g.relations && Within(r, ids) && r.status == DISPROVED :: r.id
  {
    FilterKeeps(g.relations, RelationInside(ids));
    FilterKeeps(ComponentSubgraph(g, ids).relations, IsDisproved);
    hide Filter;
  }
}
