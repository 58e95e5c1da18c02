/** Replay of raw result lines into predictions and failures (cyber_megatron_holdout_worker.py). */
module HoldoutReplay {
  import opened Ordering

  /**
   A hold-out case. `messages` is the digest of its prompt, which is built from the scenario and the
   input context and does not mention the case identifier.
   */
  datatype Case = Case(id: Id, scenario: Id, context: Id, messages: Id)

  datatype Binding = Binding(caseId: Id, scenario: Id, context: Id, messages: Id)

  /** A line of the result file: blank, refused before its request is looked up, or a response to a request. */
  datatype Line = Blank | Malformed | Response(messages: Id, text: Id)

  datatype Prediction = Prediction(caseId: Id, body: Id)

  datatype FailureKind = MISSING_RESULT | DUPLICATE_RESULT | GENERATION_PARSE_ERROR

  /** `detail` is the parser's message; the other two kinds have fixed texts. */
  datatype Failure = Failure(caseId: Id, scenario: Id, context: Id, kind: FailureKind, detail: Option<Id>)

  /** `_parse_model_response` for the plan's checkpoint: the prediction body, or the error text. */
  type Parser = (Case, Id) -> Result<Id, Id>

  datatype Replay = Replay(predictions: seq<Prediction>, failures: seq<Failure>)

  datatype ReplayError = BadLine(index: nat)

  ghost predicate SortedCases(cases: seq<Case>) {
    forall i, j :: 0 <= i < j < |cases| ==> cases[i].id < cases[j].id
  }

  /** The manifest's bindings name the cases, in order (checked by the manifest and by finalize). */
  ghost predicate BindsCases(bindings: seq<Binding>, cases: seq<Case>) {
    |bindings| == |cases| && forall i :: 0 <= i < |cases| ==> bindings[i].caseId == cases[i].id
  }

  /** `_build_request_material`: one binding for each case. */
  function BindingsOf(cases: seq<Case>): (r: seq<Binding>)
    ensures |r| == |cases|
  {
    seq(|cases|, k requires 0 <= k < |cases| =>
      Binding(cases[k].id, cases[k].scenario, cases[k].context, cases[k].messages))
  }

  /** `binding_by_messages.get(digest)`: the last binding with the digest wins. */
  function Resolve(bindings: seq<Binding>, messages: Id): Option<Id> {
    if bindings == [] then None else
    var last := bindings[|bindings| - 1];
    if last.messages == messages then Some(last.caseId) else Resolve(bindings[..|bindings| - 1], messages)
  }

  predicate Planned(bindings: seq<Binding>, line: Line) {
    line.Blank? || (line.Response? && Resolve(bindings, line.messages).Some?)
  }

  ghost predicate AllPlanned(bindings: seq<Binding>, lines: seq<Line>) {
    forall i :: 0 <= i < |lines| ==> Planned(bindings, lines[i])
  }

  predicate Answers(bindings: seq<Binding>, line: Line, id: Id) {
    line.Response? && Resolve(bindings, line.messages) == Some(id)
  }

  /** The responses of the lines that answer a case, in file order. */
  function Responses(bindings: seq<Binding>, lines: seq<Line>, id: Id): seq<Id> {
    if lines == [] then [] else
    var last := lines[|lines| - 1];
    Responses(bindings, lines[..|lines| - 1], id) + (if Answers(bindings, last, id) then [last.text] else [])
  }

  function FailureOf(c: Case, kind: FailureKind, detail: Option<Id>): Failure {
    Failure(c.id, c.scenario, c.context, kind, detail)
  }

  // ----- what becomes of a case

  /** Exactly one response, and it parses. */
  predicate Predicted(c: Case, responses: seq<Id>, parse: Parser) {
    |responses| == 1 && parse(c, responses[0]).Ok?
  }

  function PredictionOf(c: Case, responses: seq<Id>, parse: Parser): Prediction
    requires Predicted(c, responses, parse)
  {
    Prediction(c.id, parse(c, responses[0]).value)
  }

  /** The failure of a case without a prediction. */
  function FailureFor(c: Case, responses: seq<Id>, parse: Parser): Failure
    requires !Predicted(c, responses, parse)
  {
    if |responses| == 0 then FailureOf(c, MISSING_RESULT, None)
    else if |responses| == 1 then FailureOf(c, GENERATION_PARSE_ERROR, Some(parse(c, responses[0]).error))
    else FailureOf(c, DUPLICATE_RESULT, None)
  }

  function PredictionsOf(cases: seq<Case>, bindings: seq<Binding>, lines: seq<Line>, parse: Parser): seq<Prediction> {
    if cases == [] then [] else
    var c := cases[|cases| - 1];
    var responses := Responses(bindings, lines, c.id);
    PredictionsOf(cases[..|cases| - 1], bindings, lines, parse)
    + (if Predicted(c, responses, parse) then [PredictionOf(c, responses, parse)] else [])
  }

  function FailuresOf(cases: seq<Case>, bindings: seq<Binding>, lines: seq<Line>, parse: Parser): seq<Failure> {
    if cases == [] then [] else
    var c := cases[|cases| - 1];
    var responses := Responses(bindings, lines, c.id);
    FailuresOf(cases[..|cases| - 1], bindings, lines, parse)
    + (if Predicted(c, responses, parse) then [] else [FailureFor(c, responses, parse)])
  }

  function ReplayOf(cases: seq<Case>, bindings: seq<Binding>, lines: seq<Line>, parse: Parser): Replay {
    Replay(PredictionsOf(cases, bindings, lines, parse), FailuresOf(cases, bindings, lines, parse))
  }

  // ----- the loop

  /** What the three dictionaries hold for a case once its responses so far are known. */
  ghost predicate Tracks(
    c: Case, responses: seq<Id>, parse: Parser, seen: set<Id>, predictions: map<Id, Prediction>,
    failures: map<Id, Failure>)
  {
    && (c.id in seen <==> responses != [])
    && (c.id in predictions <==> Predicted(c, responses, parse))
    && (c.id in predictions ==> predictions[c.id] == PredictionOf(c, responses, parse))
    && (c.id in failures <==> responses != [] && !Predicted(c, responses, parse))
    && (c.id in failures ==> failures[c.id] == FailureFor(c, responses, parse))
  }

  ghost predicate TracksAll(
    cases: seq<Case>, bindings: seq<Binding>, lines: seq<Line>, parse: Parser,
    seen: set<Id>, predictions: map<Id, Prediction>, failures: map<Id, Failure>)
  {
    && predictions.Keys + failures.Keys <= CaseIds(cases)
    && forall k :: 0 <= k < |cases| ==>
         Tracks(cases[k], Responses(bindings, lines, cases[k].id), parse, seen, predictions, failures)
  }

  /** `case_by_id[id]`; the identifiers are distinct. */
  function FindCase(cases: seq<Case>, id: Id): (k: nat)
    requires exists k :: 0 <= k < |cases| && cases[k].id == id
    ensures k < |cases| && cases[k].id == id
  {
    if cases[|cases| - 1].id == id then |cases| - 1 else FindCase(cases[..|cases| - 1], id)
  }

  lemma {:induction false} ResolvedIsCase(bindings: seq<Binding>, cases: seq<Case>, messages: Id)
    requires BindsCases(bindings, cases) && Resolve(bindings, messages).Some?
    ensures exists k :: 0 <= k < |cases| && cases[k].id == Resolve(bindings, messages).value
  {
    var n := |bindings| - 1;
    if bindings[n].messages == messages {
      assert cases[n].id == bindings[n].caseId;
    } else {
      ResolvedIsCase(bindings[..n], cases[..n], messages);
      var k :| 0 <= k < n && cases[..n][k].id == Resolve(bindings, messages).value;
      assert cases[k].id == Resolve(bindings, messages).value;
    }
  }

  /** Dictionaries that agree outside one identifier track every other case alike. */
  lemma TracksOther(
    c: Case, responses: seq<Id>, parse: Parser, id: Id,
    seen: set<Id>, predictions: map<Id, Prediction>, failures: map<Id, Failure>,
    seen': set<Id>, predictions': map<Id, Prediction>, failures': map<Id, Failure>)
    requires Tracks(c, responses, parse, seen, predictions, failures) && c.id != id
    requires seen' - {id} == seen - {id} && predictions' - {id} == predictions - {id}
             && failures' - {id} == failures - {id}
    ensures Tracks(c, responses, parse, seen', predictions', failures')
  {
    assert c.id in seen' <==> c.id in seen' - {id};
    assert c.id in seen <==> c.id in seen - {id};
    assert c.id in predictions' <==> c.id in predictions' - {id};
    assert c.id in predictions <==> c.id in predictions - {id};
    assert c.id in failures' <==> c.id in failures' - {id};
    assert c.id in failures <==> c.id in failures - {id};
    assert c.id in predictions ==> (predictions' - {id})[c.id] == (predictions - {id})[c.id];
    assert c.id in failures ==> (failures' - {id})[c.id] == (failures - {id})[c.id];
  }

  /** The dictionary updates for one response to case c. */
  method BookCase(c: Case, ghost responses: seq<Id>, text: Id, parse: Parser,
                  seen0: set<Id>, predictions0: map<Id, Prediction>, failures0: map<Id, Failure>)
    returns (seen: set<Id>, predictions: map<Id, Prediction>, failures: map<Id, Failure>)
    requires Tracks(c, responses, parse, seen0, predictions0, failures0)
    ensures Tracks(c, responses + [text], parse, seen, predictions, failures)
    ensures seen - {c.id} == seen0 - {c.id} && predictions - {c.id} == predictions0 - {c.id}
    ensures failures - {c.id} == failures0 - {c.id}
  {
    seen, predictions, failures := seen0, predictions0, failures0;
    if c.id in seen {
      failures := failures[c.id := FailureOf(c, DUPLICATE_RESULT, None)];
      predictions := predictions - {c.id};
    } else {
      seen := seen + {c.id};
      match parse(c, text)
      case Ok(body) => predictions := predictions[c.id := Prediction(c.id, body)];
      case Err(detail) => failures := failures[c.id := FailureOf(c, GENERATION_PARSE_ERROR, Some(detail))];
    }
  }

  lemma KeysWithin<T(!new)>(m: map<Id, T>, m': map<Id, T>, id: Id)
    requires m' - {id} == m - {id}
    ensures m'.Keys <= m.Keys + {id}
  {
    forall k | k in m' && k != id ensures k in m {
      assert k in m' - {id};
    }
  }

  lemma ResponsesStep(bindings: seq<Binding>, before: seq<Line>, line: Line, id: Id)
    ensures Responses(bindings, before + [line], id)
            == Responses(bindings, before, id) + (if Answers(bindings, line, id) then [line.text] else [])
  {
    assert (before + [line])[..|before|] == before;
  }

  /** One planned response is booked. */
  method Book(cases: seq<Case>, bindings: seq<Binding>, ghost before: seq<Line>, line: Line, parse: Parser,
              seen0: set<Id>, predictions0: map<Id, Prediction>, failures0: map<Id, Failure>)
    returns (seen: set<Id>, predictions: map<Id, Prediction>, failures: map<Id, Failure>)
    requires SortedCases(cases) && BindsCases(bindings, cases)
    requires line.Response? && Planned(bindings, line)
    requires TracksAll(cases, bindings, before, parse, seen0, predictions0, failures0)
    ensures TracksAll(cases, bindings, before + [line], parse, seen, predictions, failures)
  {
    var id := Resolve(bindings, line.messages).value;
    ResolvedIsCase(bindings, cases, line.messages);
    var at := FindCase(cases, id);
    var c := cases[at];
    assert c in cases && id in CaseIds(cases);
    ghost var responses := Responses(bindings, before, id);
    hide Tracks;
    seen, predictions, failures := BookCase(c, responses, line.text, parse, seen0, predictions0, failures0);
    KeysWithin(predictions0, predictions, id);
    KeysWithin(failures0, failures, id);
    forall k | 0 <= k < |cases|
      ensures Tracks(cases[k], Responses(bindings, before + [line], cases[k].id), parse, seen, predictions, failures)
    {
      ResponsesStep(bindings, before, line, cases[k].id);
      if cases[k].id != id {
        TracksOther(cases[k], Responses(bindings, before, cases[k].id), parse, id,
                    seen0, predictions0, failures0, seen, predictions, failures);
        assert Responses(bindings, before, cases[k].id) + [] == Responses(bindings, before, cases[k].id);
      } else {
        assert k == at;
      }
    }
  }

  method ReadLines(lines: seq<Line>, cases: seq<Case>, bindings: seq<Binding>, parse: Parser)
    returns (bad: Option<nat>, seen: set<Id>, predictions: map<Id, Prediction>, failures: map<Id, Failure>)
    requires SortedCases(cases) && BindsCases(bindings, cases)
    ensures bad.Some? ==>
              bad.value < |lines| && !Planned(bindings, lines[bad.value]) && AllPlanned(bindings, lines[..bad.value])
    ensures bad.None? ==>
              AllPlanned(bindings, lines) && TracksAll(cases, bindings, lines, parse, seen, predictions, failures)
  {
    bad, seen, predictions, failures := None, {}, map[], map[];
    var i := 0;
    while i < |lines|
      invariant 0 <= i <= |lines|
      invariant AllPlanned(bindings, lines[..i])
      invariant TracksAll(cases, bindings, lines[..i], parse, seen, predictions, failures)
    {
      var line := lines[i];
      assert lines[..i + 1] == lines[..i] + [line];
      if !Planned(bindings, line) {
        bad := Some(i);
        return;
      }
      if line.Response? {
        seen, predictions, failures := Book(cases, bindings, lines[..i], line, parse, seen, predictions, failures);
      }
      i := i + 1;
    }
    assert lines[..i] == lines;
  }

  function CaseIds(cases: seq<Case>): set<Id> {
    set c | c in cases :: c.id
  }

  // ----- the closing loop and the sorted results

  /** `[dictionary[k] for k in sorted(dictionary)]`. */
  function InKeyOrder<T>(m: map<Id, T>, keys: seq<Id>): seq<T>
    requires forall k :: 0 <= k < |keys| ==> keys[k] in m
  {
    seq(|keys|, k requires 0 <= k < |keys| => m[keys[k]])
  }

  /** What the dictionaries hold for a case at the end. */
  ghost predicate Settled(
    c: Case, responses: seq<Id>, parse: Parser, predictions: map<Id, Prediction>, failures: map<Id, Failure>)
  {
    && (c.id in predictions <==> Predicted(c, responses, parse))
    && (c.id in predictions ==> predictions[c.id] == PredictionOf(c, responses, parse))
    && (c.id in failures <==> !Predicted(c, responses, parse))
    && (c.id in failures ==> failures[c.id] == FailureFor(c, responses, parse))
  }

  method SettleCase(
    c: Case, ghost responses: seq<Id>, ghost parse: Parser,
    seen: set<Id>, predictions0: map<Id, Prediction>, failures0: map<Id, Failure>)
    returns (predictions: map<Id, Prediction>, failures: map<Id, Failure>)
    requires Tracks(c, responses, parse, seen, predictions0, failures0)
    ensures Settled(c, responses, parse, predictions, failures)
    ensures predictions - {c.id} == predictions0 - {c.id} && failures - {c.id} == failures0 - {c.id}
  {
    predictions, failures := predictions0, failures0;
    if c.id !in seen {
      failures := failures[c.id := FailureOf(c, MISSING_RESULT, None)];
    }
    if c.id in failures {
      predictions := predictions - {c.id};
    }
  }

  lemma SettledOther(
    c: Case, responses: seq<Id>, parse: Parser, id: Id,
    predictions: map<Id, Prediction>, failures: map<Id, Failure>, predictions': map<Id, Prediction>,
    failures': map<Id, Failure>)
    requires Settled(c, responses, parse, predictions, failures) && c.id != id
    requires predictions' - {id} == predictions - {id} && failures' - {id} == failures - {id}
    ensures Settled(c, responses, parse, predictions', failures')
  {
    assert c.id in predictions' <==> c.id in predictions' - {id};
    assert c.id in predictions <==> c.id in predictions - {id};
    assert c.id in failures' <==> c.id in failures' - {id};
    assert c.id in failures <==> c.id in failures - {id};
    assert c.id in predictions ==> (predictions' - {id})[c.id] == (predictions - {id})[c.id];
    assert c.id in failures ==> (failures' - {id})[c.id] == (failures - {id})[c.id];
  }

  /** The loop that adds a missing-result failure for every case no line answered. */
  method SettleCases(
    cases: seq<Case>, ghost bindings: seq<Binding>, ghost lines: seq<Line>, ghost parse: Parser,
    seen: set<Id>, predictions0: map<Id, Prediction>, failures0: map<Id, Failure>)
    returns (predictions: map<Id, Prediction>, failures: map<Id, Failure>)
    requires SortedCases(cases) && TracksAll(cases, bindings, lines, parse, seen, predictions0, failures0)
    ensures predictions.Keys + failures.Keys <= CaseIds(cases)
    ensures forall k :: 0 <= k < |cases| ==>
              Settled(cases[k], Responses(bindings, lines, cases[k].id), parse, predictions, failures)
  {
    hide Tracks, Settled;
    predictions, failures := predictions0, failures0;
    var i := 0;
    while i < |cases|
      invariant 0 <= i <= |cases|
      invariant predictions.Keys + failures.Keys <= CaseIds(cases)
      invariant forall k :: 0 <= k < i ==>
                  Settled(cases[k], Responses(bindings, lines, cases[k].id), parse, predictions, failures)
      invariant forall k :: i <= k < |cases| ==>
                  Tracks(cases[k], Responses(bindings, lines, cases[k].id), parse, seen, predictions, failures)
    {
      var c := cases[i];
      assert c in cases && c.id in CaseIds(cases);
      ghost var p, f := predictions, failures;
      predictions, failures := SettleCase(c, Responses(bindings, lines, c.id), parse, seen, predictions, failures);
      KeysWithin(p, predictions, c.id);
      KeysWithin(f, failures, c.id);
      forall k | 0 <= k < i
        ensures Settled(cases[k], Responses(bindings, lines, cases[k].id), parse, predictions, failures)
      {
        SettledOther(cases[k], Responses(bindings, lines, cases[k].id), parse, c.id, p, f, predictions, failures);
      }
      forall k | i < k < |cases|
        ensures Tracks(cases[k], Responses(bindings, lines, cases[k].id), parse, seen, predictions, failures)
      {
        TracksOther(cases[k], Responses(bindings, lines, cases[k].id), parse, c.id, seen, p, f, seen, predictions,
                    failures);
      }
      i := i + 1;
    }
  }

  lemma {:induction false} StrictlyIncreasingAreEqual(a: seq<Id>, b: seq<Id>)
    requires StrictlyIncreasing(a) && StrictlyIncreasing(b) && Elements(a) == Elements(b)
    ensures a == b
  {
    CardinalityOfElements(a);
    CardinalityOfElements(b);
    if a != [] {
      var m := |a| - 1;
      LastIsGreatest(a);
      LastIsGreatest(b);
      assert a[m] in Elements(b) && b[m] in Elements(a);
      assert Elements(a[..m]) == Elements(a) - {a[m]} && Elements(b[..m]) == Elements(b) - {b[m]};
      StrictlyIncreasingAreEqual(a[..m], b[..m]);
      assert a == a[..m] + [a[m]] && b == b[..m] + [b[m]];
    }
  }

  lemma LastIsGreatest(s: seq<Id>)
    requires s != [] && StrictlyIncreasing(s)
    ensures forall x :: x in Elements(s) ==> x <= s[|s| - 1]
    ensures Elements(s[..|s| - 1]) == Elements(s) - {s[|s| - 1]}
  {
    assert s == s[..|s| - 1] + [s[|s| - 1]];
  }

  function PredictionIds(rows: seq<Prediction>): seq<Id> {
    seq(|rows|, k requires 0 <= k < |rows| => rows[k].caseId)
  }

  function FailureIds(rows: seq<Failure>): seq<Id> {
    seq(|rows|, k requires 0 <= k < |rows| => rows[k].caseId)
  }

  ghost predicate PredictionRow(cases: seq<Case>, bindings: seq<Binding>, lines: seq<Line>, parse: Parser,
                                p: Prediction, k: int) {
    && 0 <= k < |cases| && Predicted(cases[k], Responses(bindings, lines, cases[k].id), parse)
    && p == PredictionOf(cases[k], Responses(bindings, lines, cases[k].id), parse)
  }

  ghost predicate FailureRow(cases: seq<Case>, bindings: seq<Binding>, lines: seq<Line>, parse: Parser, f: Failure,
                             k: int) {
    && 0 <= k < |cases| && !Predicted(cases[k], Responses(bindings, lines, cases[k].id), parse)
    && f == FailureFor(cases[k], Responses(bindings, lines, cases[k].id), parse)
  }

  /** The predictions are exactly those of the predicted cases. */
  lemma {:induction false} PredictionsMeaning(cases: seq<Case>, bindings: seq<Binding>, lines: seq<Line>,
                                              parse: Parser, p: Prediction)
    ensures p in PredictionsOf(cases, bindings, lines, parse)
            <==> exists k :: PredictionRow(cases, bindings, lines, parse, p, k)
  {
    if cases != [] {
      var n := |cases| - 1;
      PredictionsMeaning(cases[..n], bindings, lines, parse, p);
      assert forall k :: 0 <= k < n ==>
        (PredictionRow(cases[..n], bindings, lines, parse, p, k)
         <==> PredictionRow(cases, bindings, lines, parse, p, k));
      assert PredictionRow(cases, bindings, lines, parse, p, n) ==> p in PredictionsOf(cases, bindings, lines, parse);
      if p in PredictionsOf(cases, bindings, lines, parse) && p !in PredictionsOf(cases[..n], bindings, lines, parse) {
        assert PredictionRow(cases, bindings, lines, parse, p, n);
      }
    }
  }

  lemma {:induction false} FailuresMeaning(cases: seq<Case>, bindings: seq<Binding>, lines: seq<Line>, parse: Parser,
                                           f: Failure)
    ensures f in FailuresOf(cases, bindings, lines, parse)
            <==> exists k :: FailureRow(cases, bindings, lines, parse, f, k)
  {
    hide FailureFor, Predicted, Responses;
    if cases != [] {
      var n := |cases| - 1;
      FailuresMeaning(cases[..n], bindings, lines, parse, f);
      assert forall k :: 0 <= k < n ==>
        (FailureRow(cases[..n], bindings, lines, parse, f, k) <==> FailureRow(cases, bindings, lines, parse, f, k));
      assert FailureRow(cases, bindings, lines, parse, f, n) ==> f in FailuresOf(cases, bindings, lines, parse);
      if f in FailuresOf(cases, bindings, lines, parse) && f !in FailuresOf(cases[..n], bindings, lines, parse) {
        assert FailureRow(cases, bindings, lines, parse, f, n);
      }
    }
  }

  lemma {:induction false} PredictionsAreSorted(cases: seq<Case>, bindings: seq<Binding>, lines: seq<Line>,
                                                parse: Parser)
    requires SortedCases(cases)
    ensures StrictlyIncreasing(PredictionIds(PredictionsOf(cases, bindings, lines, parse)))
    ensures forall k :: 0 <= k < |PredictionsOf(cases, bindings, lines, parse)| ==>
              cases != [] && PredictionsOf(cases, bindings, lines, parse)[k].caseId <= cases[|cases| - 1].id
  {
    if cases != [] {
      var n := |cases| - 1;
      PredictionsAreSorted(cases[..n], bindings, lines, parse);
      var rows, rest := PredictionsOf(cases, bindings, lines, parse), PredictionsOf(cases[..n], bindings, lines, parse);
      assert forall k :: 0 <= k < |rest| ==> PredictionIds(rows)[k] == PredictionIds(rest)[k] < cases[n].id;
    }
  }

  lemma {:induction false} FailuresAreSorted(cases: seq<Case>, bindings: seq<Binding>, lines: seq<Line>, parse: Parser)
    requires SortedCases(cases)
    ensures StrictlyIncreasing(FailureIds(FailuresOf(cases, bindings, lines, parse)))
    ensures forall k :: 0 <= k < |FailuresOf(cases, bindings, lines, parse)| ==>
              cases != [] && FailuresOf(cases, bindings, lines, parse)[k].caseId <= cases[|cases| - 1].id
  {
    if cases != [] {
      var n := |cases| - 1;
      FailuresAreSorted(cases[..n], bindings, lines, parse);
      var rows, rest := FailuresOf(cases, bindings, lines, parse), FailuresOf(cases[..n], bindings, lines, parse);
      assert forall k :: 0 <= k < |rest| ==> FailureIds(rows)[k] == FailureIds(rest)[k] < cases[n].id;
    }
  }

  lemma SortedPredictions(cases: seq<Case>, bindings: seq<Binding>, lines: seq<Line>, parse: Parser,
                          predictions: map<Id, Prediction>, failures: map<Id, Failure>)
    requires SortedCases(cases) && predictions.Keys <= CaseIds(cases)
    requires forall k :: 0 <= k < |cases| ==>
               Settled(cases[k], Responses(bindings, lines, cases[k].id), parse, predictions, failures)
    ensures InKeyOrder(predictions, SortedIds(predictions.Keys)) == PredictionsOf(cases, bindings, lines, parse)
  {
    hide *;
    var rows := PredictionsOf(cases, bindings, lines, parse);
    PredictionsAreSorted(cases, bindings, lines, parse);
    PredictionIdsAt(rows);
    forall k | 0 <= k < |rows|
      ensures PredictionIds(rows)[k] in predictions && predictions[PredictionIds(rows)[k]] == rows[k]
    {
      PredictionIsRecorded(cases, bindings, lines, parse, predictions, failures, k);
    }
    forall id | id in predictions ensures id in Elements(PredictionIds(rows)) {
      RecordedPredictionIsListed(cases, bindings, lines, parse, predictions, failures, id);
    }
    KeyOrder(predictions, PredictionIds(rows), rows);
  }

  lemma PredictionIdsAt(rows: seq<Prediction>)
    ensures |PredictionIds(rows)| == |rows|
    ensures forall k :: 0 <= k < |rows| ==> PredictionIds(rows)[k] == rows[k].caseId
  {
  }

  lemma PredictionIsRecorded(cases: seq<Case>, bindings: seq<Binding>, lines: seq<Line>, parse: Parser,
                             predictions: map<Id, Prediction>, failures: map<Id, Failure>, k: nat)
    requires forall k :: 0 <= k < |cases| ==>
               Settled(cases[k], Responses(bindings, lines, cases[k].id), parse, predictions, failures)
    requires k < |PredictionsOf(cases, bindings, lines, parse)|
    ensures var row := PredictionsOf(cases, bindings, lines, parse)[k];
            row.caseId in predictions && predictions[row.caseId] == row
  {
    hide PredictionsOf, Responses, Predicted;
    var row := PredictionsOf(cases, bindings, lines, parse)[k];
    PredictionsMeaning(cases, bindings, lines, parse, row);
    var j :| PredictionRow(cases, bindings, lines, parse, row, j);
  }

  lemma RecordedPredictionIsListed(cases: seq<Case>, bindings: seq<Binding>, lines: seq<Line>, parse: Parser,
                                   predictions: map<Id, Prediction>, failures: map<Id, Failure>, id: Id)
    requires predictions.Keys <= CaseIds(cases) && id in predictions
    requires forall k :: 0 <= k < |cases| ==>
               Settled(cases[k], Responses(bindings, lines, cases[k].id), parse, predictions, failures)
    ensures id in Elements(PredictionIds(PredictionsOf(cases, bindings, lines, parse)))
  {
    hide PredictionsOf, Responses, Predicted;
    var rows := PredictionsOf(cases, bindings, lines, parse);
    var c :| c in cases && c.id == id;
    var k :| 0 <= k < |cases| && cases[k] == c;
    PredictionsMeaning(cases, bindings, lines, parse, predictions[id]);
    assert PredictionRow(cases, bindings, lines, parse, predictions[id], k);
    var j :| 0 <= j < |rows| && rows[j] == predictions[id];
    assert PredictionIds(rows)[j] == id;
  }

  lemma SortedFailures(cases: seq<Case>, bindings: seq<Binding>, lines: seq<Line>, parse: Parser,
                       predictions: map<Id, Prediction>, failures: map<Id, Failure>)
    requires SortedCases(cases) && failures.Keys <= CaseIds(cases)
    requires forall k :: 0 <= k < |cases| ==>
               Settled(cases[k], Responses(bindings, lines, cases[k].id), parse, predictions, failures)
    ensures InKeyOrder(failures, SortedIds(failures.Keys)) == FailuresOf(cases, bindings, lines, parse)
  {
    hide *;
    var rows := FailuresOf(cases, bindings, lines, parse);
    FailuresAreSorted(cases, bindings, lines, parse);
    FailureIdsAt(rows);
    forall k | 0 <= k < |rows| ensures FailureIds(rows)[k] in failures && failures[FailureIds(rows)[k]] == rows[k] {
      FailureIsRecorded(cases, bindings, lines, parse, predictions, failures, k);
    }
    forall id | id in failures ensures id in Elements(FailureIds(rows)) {
      RecordedFailureIsListed(cases, bindings, lines, parse, predictions, failures, id);
    }
    KeyOrder(failures, FailureIds(rows), rows);
  }

  lemma FailureIdsAt(rows: seq<Failure>)
    ensures |FailureIds(rows)| == |rows|
    ensures forall k :: 0 <= k < |rows| ==> FailureIds(rows)[k] == rows[k].caseId
  {
  }

  lemma FailureIsRecorded(cases: seq<Case>, bindings: seq<Binding>, lines: seq<Line>, parse: Parser,
                          predictions: map<Id, Prediction>, failures: map<Id, Failure>, k: nat)
    requires forall k :: 0 <= k < |cases| ==>
               Settled(cases[k], Responses(bindings, lines, cases[k].id), parse, predictions, failures)
    requires k < |FailuresOf(cases, bindings, lines, parse)|
    ensures var row := FailuresOf(cases, bindings, lines, parse)[k];
            row.caseId in failures && failures[row.caseId] == row
  {
    hide FailuresOf, Responses, Predicted;
    var row := FailuresOf(cases, bindings, lines, parse)[k];
    FailuresMeaning(cases, bindings, lines, parse, row);
    var j :| FailureRow(cases, bindings, lines, parse, row, j);
    FailureForKeepsId(cases[j], Responses(bindings, lines, cases[j].id), parse);
  }

  lemma FailureForKeepsId(c: Case, responses: seq<Id>, parse: Parser)
    requires !Predicted(c, responses, parse)
    ensures FailureFor(c, responses, parse).caseId == c.id
  {
  }

  lemma RecordedFailureIsListed(cases: seq<Case>, bindings: seq<Binding>, lines: seq<Line>, parse: Parser,
                                predictions: map<Id, Prediction>, failures: map<Id, Failure>, id: Id)
    requires failures.Keys <= CaseIds(cases) && id in failures
    requires forall k :: 0 <= k < |cases| ==>
               Settled(cases[k], Responses(bindings, lines, cases[k].id), parse, predictions, failures)
    ensures id in Elements(FailureIds(FailuresOf(cases, bindings, lines, parse)))
  {
    hide FailuresOf, Responses, Predicted;
    var rows := FailuresOf(cases, bindings, lines, parse);
    var c :| c in cases && c.id == id;
    var k :| 0 <= k < |cases| && cases[k] == c;
    FailuresMeaning(cases, bindings, lines, parse, failures[id]);
    assert FailureRow(cases, bindings, lines, parse, failures[id], k);
    FailureForKeepsId(c, Responses(bindings, lines, c.id), parse);
    var j :| 0 <= j < |rows| && rows[j] == failures[id];
    assert FailureIds(rows)[j] == id;
  }

  /** Listing a dictionary by its sorted keys gives the rows whose keys are strictly increasing. */
  lemma KeyOrder<T(!new)>(m: map<Id, T>, ids: seq<Id>, rows: seq<T>)
    requires StrictlyIncreasing(ids) && |rows| == |ids|
    requires forall k :: 0 <= k < |ids| ==> ids[k] in m && m[ids[k]] == rows[k]
    requires forall id :: id in m ==> id in Elements(ids)
    ensures InKeyOrder(m, SortedIds(m.Keys)) == rows
  {
    assert Elements(SortedIds(m.Keys)) == Elements(ids);
    StrictlyIncreasingAreEqual(SortedIds(m.Keys), ids);
  }

  /** `_replay_raw_results`. */
  method ReplayRawResults(lines: seq<Line>, cases: seq<Case>, bindings: seq<Binding>, parse: Parser)
    returns (result: Result<Replay, ReplayError>)
    requires SortedCases(cases) && BindsCases(bindings, cases)
    ensures result.Ok? <==> AllPlanned(bindings, lines)
    ensures result.Ok? ==> result.value == ReplayOf(cases, bindings, lines, parse)
    ensures result.Err? ==> result.error.index < |lines| && !Planned(bindings, lines[result.error.index])
                            && AllPlanned(bindings, lines[..result.error.index])
  {
    var bad, seen, predictions, failures := ReadLines(lines, cases, bindings, parse);
    if bad.Some? {
      return Err(BadLine(bad.value));
    }
    predictions, failures := SettleCases(cases, bindings, lines, parse, seen, predictions, failures);
    SortedPredictions(cases, bindings, lines, parse, predictions, failures);
    SortedFailures(cases, bindings, lines, parse, predictions, failures);
    result := Ok(Replay(InKeyOrder(predictions, SortedIds(predictions.Keys)),
                        InKeyOrder(failures, SortedIds(failures.Keys))));
  }
}
