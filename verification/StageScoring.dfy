/** Stage evidence, the current stage and stage predictions of one graph (attack_progression.py). */
module StageScoring {
  import opened Ordering
  import opened StateGraph

  datatype StageEvidence = StageEvidence(stage: Stage, relationIds: set<Id>, score: real, observed: nat, inferred: nat)

  datatype Prediction = Prediction(from: Stage, to: Stage, probability: real)

  function Min(a: real, b: real): real {
    if a <= b then a else b
  }

  function Max(a: real, b: real): real {
    if a >= b then a else b
  }

  function RelationWeight(r: Relation): real {
    if r.status.DISPROVED? then 0.0 else
    var statusWeight := if r.status.OBSERVED? then 1.0 else if r.status.INFERRED? then 0.65 else 0.25;
    Min(1.0, r.confidence * statusWeight + Min(0.15, 0.03 * (|r.evidence| as real)))
  }

  function CountsFor(stage: Stage): Relation -> bool {
    (r: Relation) => !r.status.DISPROVED? && r.kind.stage == Some(stage)
  }

  /** `grouped[stage]`. */
  function AtStage(rs: seq<Relation>, stage: Stage): seq<Relation> {
    Filter(rs, CountsFor(stage))
  }

  function Strongest(rs: seq<Relation>): real
    requires rs != []
  {
    if |rs| == 1 then RelationWeight(rs[0]) else Max(RelationWeight(rs[0]), Strongest(rs[1..]))
  }

  function Corroboration(count: nat): real {
    Min(0.2, 0.04 * (if count == 0 then 0.0 else (count - 1) as real))
  }

  /** The score of the relations counted for one stage; 0 when there are none (the source then has no row). */
  function ScoreOf(counted: seq<Relation>): real {
    if counted == [] then 0.0 else Min(1.0, Strongest(counted) + Corroboration(|counted|))
  }

  function StageScore(rs: seq<Relation>, stage: Stage): real {
    ScoreOf(AtStage(rs, stage))
  }

  function IsObserved(r: Relation): bool { r.status.OBSERVED? }

  function IsInferred(r: Relation): bool { r.status.INFERRED? }

  function RelationIds(rs: seq<Relation>): set<Id> {
    set r | r in rs :: r.id
  }

  function RowOf(stage: Stage, counted: seq<Relation>): StageEvidence {
    StageEvidence(stage, RelationIds(counted), ScoreOf(counted),
                  |Filter(counted, IsObserved)|, |Filter(counted, IsInferred)|)
  }

  function StageRow(rs: seq<Relation>, stage: Stage): StageEvidence {
    RowOf(stage, AtStage(rs, stage))
  }

  /** The rows of the stages below `limit`, in stage order. */
  function StageRows(rs: seq<Relation>, limit: nat): seq<StageEvidence>
    requires limit <= 14
  {
    if limit == 0 then [] else
    StageRows(rs, limit - 1) + (if AtStage(rs, limit - 1) == [] then [] else [StageRow(rs, limit - 1)])
  }

  function Group(grouped: map<Stage, seq<Relation>>, stage: Stage): seq<Relation> {
    if stage in grouped then grouped[stage] else []
  }

  /** The grouping loop of `_stage_evidence`. */
  method GroupByStage(rs: seq<Relation>) returns (grouped: map<Stage, seq<Relation>>)
    ensures forall s: Stage :: Group(grouped, s) == AtStage(rs, s)
  {
    grouped := map[];
    var i := 0;
    while i < |rs|
      invariant 0 <= i <= |rs|
      invariant forall s: Stage :: Group(grouped, s) == AtStage(rs[..i], s)
    {
      var r := rs[i];
      assert rs[..i + 1] == rs[..i] + [r];
      forall s: Stage
        ensures AtStage(rs[..i + 1], s) == AtStage(rs[..i], s) + (if CountsFor(s)(r) then [r] else [])
      {
        FilterAppend(rs[..i], r, CountsFor(s));
      }
      if !r.status.DISPROVED? && r.kind.stage.Some? {
        grouped := grouped[r.kind.stage.value := Group(grouped, r.kind.stage.value) + [r]];
      }
      i := i + 1;
    }
    assert rs[..i] == rs;
  }

  /** `_stage_evidence`. */
  method ComputeStageEvidence(g: Graph) returns (output: seq<StageEvidence>)
    ensures output == StageRows(g.relations, 14)
  {
    var grouped := GroupByStage(g.relations);
    output := [];
    var stage := 0;
    while stage < 14
      invariant 0 <= stage <= 14
      invariant output == StageRows(g.relations, stage)
    {
      var relations := Group(grouped, stage);
      if relations != [] {
        output := output + [RowOf(stage, relations)];
      }
      stage := stage + 1;
    }
  }

  // ----- current stage and predictions

  predicate Credible(row: StageEvidence) {
    row.score >= 0.5
  }

  /** `max(rows, key=(rank, score))`. */
  function TopRow(rows: seq<StageEvidence>): StageEvidence
    requires rows != []
  {
    var last := rows[|rows| - 1];
    if |rows| == 1 then last else
    var best := TopRow(rows[..|rows| - 1]);
    if best.stage < last.stage || (best.stage == last.stage && best.score < last.score) then last else best
  }

  function CurrentStage(rows: seq<StageEvidence>): Option<Stage> {
    var credible := Filter(rows, Credible);
    if credible == [] then None else Some(TopRow(credible).stage)
  }

  function Rank(stage: Option<Stage>): int {
    if stage.None? then -1 else stage.value
  }

  /** `_STAGE_SUCCESSORS`. */
  function Successors(stage: Stage): seq<Stage> {
    match stage
    case 0 => [1]
    case 1 => [2, 5]
    case 2 => [3, 6]
    case 3 => [4, 5]
    case 4 => [5, 7]
    case 5 => [6, 7]
    case 6 => [7, 8]
    case 7 => [8, 10, 11]
    case 8 => [12, 13]
    case 9 => [7, 13]
    case 10 => [11, 13]
    case 11 => [13]
    case 12 => [13]
    case _ => []
  }

  /** The successors of a stage that no credible row covers. */
  function Uncovered(current: Stage, rows: seq<StageEvidence>): seq<Stage> {
    var present := set row | row in rows && Credible(row) :: row.stage;
    Filter(Successors(current), (s: Stage) => s !in present)
  }

  function Predictions(current: Option<Stage>, rows: seq<StageEvidence>): seq<Prediction> {
    if current.None? then [] else
    var next := Uncovered(current.value, rows);
    var base := if |next| == 1 then 0.72 else 0.58;
    seq(if |next| <= 3 then |next| else 3,
        i requires 0 <= i < |next| => Prediction(current.value, next[i], Max(0.25, base - 0.08 * (i as real))))
  }

  function Confidence(rows: seq<StageEvidence>): real {
    if rows == [] then 0.0 else
    var init := Confidence(rows[..|rows| - 1]);
    if |rows| == 1 then rows[0].score else Max(init, rows[|rows| - 1].score)
  }

  // ----- scores stay in range and never fall as relations are added

  ghost predicate InRange(rs: seq<Relation>) {
    forall r :: r in rs ==> ValidRelation(r)
  }

  lemma {:induction false} StrongestIsMaximum(rs: seq<Relation>)
    requires rs != []
    ensures forall r :: r in rs ==> RelationWeight(r) <= Strongest(rs)
    ensures exists r :: r in rs && RelationWeight(r) == Strongest(rs)
  {
    if |rs| == 1 {
      assert rs[0] in rs;
    } else {
      StrongestIsMaximum(rs[1..]);
      assert rs == [rs[0]] + rs[1..];
      var w :| w in rs[1..] && RelationWeight(w) == Strongest(rs[1..]);
      assert w in rs && rs[0] in rs;
    }
  }

  lemma WeightInRange(r: Relation)
    requires ValidRelation(r)
    ensures 0.0 <= RelationWeight(r) <= 1.0
  {
    assert r.confidence * 0.65 >= 0.0 && r.confidence * 0.25 >= 0.0 && r.confidence * 1.0 >= 0.0;
  }

  lemma StageScoreInRange(rs: seq<Relation>, stage: Stage)
    requires InRange(rs)
    ensures 0.0 <= StageScore(rs, stage) <= 1.0
  {
    var counted := AtStage(rs, stage);
    FilterKeeps(rs, CountsFor(stage));
    if counted != [] {
      StrongestIsMaximum(counted);
      var r :| r in counted && RelationWeight(r) == Strongest(counted);
      WeightInRange(r);
    }
  }

  lemma CorroborationGrows(a: nat, b: nat)
    requires a <= b
    ensures Corroboration(a) <= Corroboration(b)
  {
  }

  /** More relations, whatever their status, never lower the score of a stage. */
  lemma StageScoreGrows(rs: seq<Relation>, more: seq<Relation>, stage: Stage)
    requires InRange(more) && NoDuplicates(rs) && NoDuplicates(more) && Elements(rs) <= Elements(more)
    ensures StageScore(rs, stage) <= StageScore(more, stage)
  {
    var a, b := AtStage(rs, stage), AtStage(more, stage);
    FilterKeeps(rs, CountsFor(stage));
    FilterKeeps(more, CountsFor(stage));
    forall r | r in a ensures r in b {
      assert r in Elements(rs);
      assert r in Elements(more);
    }
    StageScoreInRange(more, stage);
    if a != [] {
      assert a[0] in b;
      StrongestIsMaximum(a);
      StrongestIsMaximum(b);
      CardinalityOfElements(a);
      CardinalityOfElements(b);
      SubsetCardinality(Elements(a), Elements(b));
      CorroborationGrows(|a|, |b|);
    }
  }

  lemma {:induction false} RowsMeaning(rs: seq<Relation>, limit: nat, row: StageEvidence)
    requires limit <= 14
    ensures row in StageRows(rs, limit) <==>
              row.stage < limit && AtStage(rs, row.stage) != [] && row == StageRow(rs, row.stage)
  {
    if limit > 0 {
      RowsMeaning(rs, limit - 1, row);
      assert row in StageRows(rs, limit) <==>
             row in StageRows(rs, limit - 1) || (AtStage(rs, limit - 1) != [] && row == StageRow(rs, limit - 1));
    }
  }

  lemma {:induction false} TopRowIsTop(rows: seq<StageEvidence>)
    requires rows != []
    ensures TopRow(rows) in rows
    ensures forall row :: row in rows ==> row.stage <= TopRow(rows).stage
  {
    if |rows| > 1 {
      TopRowIsTop(rows[..|rows| - 1]);
      assert rows == rows[..|rows| - 1] + [rows[|rows| - 1]];
    }
  }

  /** The current stage is the highest stage whose score reaches 0.5, and None iff there is none. */
  lemma CurrentStageMeaning(rs: seq<Relation>)
    ensures var current := CurrentStage(StageRows(rs, 14));
            && (current.Some? ==> StageScore(rs, current.value) >= 0.5)
            && forall s: Stage :: StageScore(rs, s) >= 0.5 ==> s <= Rank(current)
  {
    var rows := StageRows(rs, 14);
    FilterKeeps(rows, Credible);
    var credible := Filter(rows, Credible);
    if credible != [] {
      TopRowIsTop(credible);
      RowsMeaning(rs, 14, TopRow(credible));
    }
    forall s: Stage | StageScore(rs, s) >= 0.5 ensures s <= Rank(CurrentStage(rows)) {
      RowsMeaning(rs, 14, StageRow(rs, s));
      assert StageRow(rs, s) in credible;
    }
  }

  /** More relations never move the current stage back. */
  lemma CurrentStageNeverFallsBack(rs: seq<Relation>, more: seq<Relation>)
    requires InRange(more) && NoDuplicates(rs) && NoDuplicates(more) && Elements(rs) <= Elements(more)
    ensures Rank(CurrentStage(StageRows(rs, 14))) <= Rank(CurrentStage(StageRows(more, 14)))
  {
    CurrentStageMeaning(rs);
    CurrentStageMeaning(more);
    var current := CurrentStage(StageRows(rs, 14));
    if current.Some? {
      StageScoreGrows(rs, more, current.value);
    }
  }
}
