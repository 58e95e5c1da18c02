/** What a replay accounts for, why the order of the lines is immaterial, and when two cases get in each other's way. */
module HoldoutReplayLaws {
  import opened Ordering
  import opened HoldoutReplay

  // ----- responses and the lines that hold them

  /** Line i answers the case and no other line does. */
  ghost predicate OnlyAnswer(bindings: seq<Binding>, lines: seq<Line>, i: int, id: Id) {
    && 0 <= i < |lines| && Answers(bindings, lines[i], id)
    && forall j :: 0 <= j < |lines| && j != i ==> !Answers(bindings, lines[j], id)
  }

  ghost predicate TwoAnswers(bindings: seq<Binding>, lines: seq<Line>, id: Id) {
    exists i, j :: 0 <= i < j < |lines| && Answers(bindings, lines[i], id) && Answers(bindings, lines[j], id)
  }

  ghost predicate Unanswered(bindings: seq<Binding>, lines: seq<Line>, id: Id) {
    forall i :: 0 <= i < |lines| ==> !Answers(bindings, lines[i], id)
  }

  lemma {:induction false} NoResponses(bindings: seq<Binding>, lines: seq<Line>, id: Id)
    ensures Responses(bindings, lines, id) == [] <==> Unanswered(bindings, lines, id)
  {
    hide Answers;
    if lines != [] {
      var n := |lines| - 1;
      NoResponses(bindings, lines[..n], id);
      assert forall i :: 0 <= i < n ==> lines[..n][i] == lines[i];
    }
  }

  lemma {:induction false} OnlyAnswerIsResponse(bindings: seq<Binding>, lines: seq<Line>, i: nat, id: Id)
    requires OnlyAnswer(bindings, lines, i, id)
    ensures Responses(bindings, lines, id) == [lines[i].text]
  {
    hide Answers;
    var n := |lines| - 1;
    if i == n {
      assert Unanswered(bindings, lines[..n], id);
      NoResponses(bindings, lines[..n], id);
    } else {
      assert OnlyAnswer(bindings, lines[..n], i, id);
      OnlyAnswerIsResponse(bindings, lines[..n], i, id);
    }
  }

  lemma {:induction false} TwoAnswersMoreResponses(bindings: seq<Binding>, lines: seq<Line>, i: nat, j: nat, id: Id)
    requires i < j < |lines| && Answers(bindings, lines[i], id) && Answers(bindings, lines[j], id)
    ensures |Responses(bindings, lines, id)| >= 2
  {
    hide Answers;
    var n := |lines| - 1;
    if j == n {
      assert lines[..n][i] == lines[i];
      NoResponses(bindings, lines[..n], id);
    } else {
      TwoAnswersMoreResponses(bindings, lines[..n], i, j, id);
    }
  }

  /** The number of responses says how many lines answer the case: none, exactly one, or several. */
  lemma ResponseCounts(bindings: seq<Binding>, lines: seq<Line>, id: Id)
    ensures Responses(bindings, lines, id) == [] <==> Unanswered(bindings, lines, id)
    ensures |Responses(bindings, lines, id)| == 1 <==> exists i :: OnlyAnswer(bindings, lines, i, id)
    ensures |Responses(bindings, lines, id)| >= 2 <==> TwoAnswers(bindings, lines, id)
    ensures forall i :: OnlyAnswer(bindings, lines, i, id) ==> Responses(bindings, lines, id) == [lines[i].text]
  {
    NoResponses(bindings, lines, id);
    forall i | OnlyAnswer(bindings, lines, i, id) ensures Responses(bindings, lines, id) == [lines[i].text] {
      OnlyAnswerIsResponse(bindings, lines, i, id);
    }
    if TwoAnswers(bindings, lines, id) {
      var i, j :| 0 <= i < j < |lines| && Answers(bindings, lines[i], id) && Answers(bindings, lines[j], id);
      TwoAnswersMoreResponses(bindings, lines, i, j, id);
    } else if !Unanswered(bindings, lines, id) {
      var i :| 0 <= i < |lines| && Answers(bindings, lines[i], id);
      assert OnlyAnswer(bindings, lines, i, id);
    }
  }

  // ----- accounting

  ghost predicate IsPredicted(r: Replay, id: Id) {
    exists p :: p in r.predictions && p.caseId == id
  }

  ghost predicate HasFailed(r: Replay, id: Id, kind: FailureKind) {
    exists f :: f in r.failures && f.caseId == id && f.kind == kind
  }

  /**
   A case is a prediction exactly when one line answers it and that line parses. Otherwise it is a failure
   whose kind says why: no line, several lines, or one line that does not parse.
   */
  lemma AccountingOfCase(cases: seq<Case>, bindings: seq<Binding>, lines: seq<Line>, parse: Parser, k: nat)
    requires SortedCases(cases) && k < |cases|
    ensures var r := ReplayOf(cases, bindings, lines, parse); var c := cases[k];
            && (IsPredicted(r, c.id)
                <==> exists i :: OnlyAnswer(bindings, lines, i, c.id) && parse(c, lines[i].text).Ok?)
            && (HasFailed(r, c.id, MISSING_RESULT) <==> Unanswered(bindings, lines, c.id))
            && (HasFailed(r, c.id, DUPLICATE_RESULT) <==> TwoAnswers(bindings, lines, c.id))
            && (HasFailed(r, c.id, GENERATION_PARSE_ERROR)
                <==> exists i :: OnlyAnswer(bindings, lines, i, c.id) && parse(c, lines[i].text).Err?)
  {
    var r, c := ReplayOf(cases, bindings, lines, parse), cases[k];
    var responses := Responses(bindings, lines, c.id);
    ResponseCounts(bindings, lines, c.id);
    PredictedRow(cases, bindings, lines, parse, k);
    FailedRow(cases, bindings, lines, parse, k, MISSING_RESULT);
    FailedRow(cases, bindings, lines, parse, k, DUPLICATE_RESULT);
    FailedRow(cases, bindings, lines, parse, k, GENERATION_PARSE_ERROR);
    hide ReplayOf, IsPredicted, HasFailed, Responses, Unanswered, TwoAnswers, OnlyAnswer;
    assert forall i :: OnlyAnswer(bindings, lines, i, c.id) ==> lines[i].text == responses[0];
  }

  lemma PredictedRow(cases: seq<Case>, bindings: seq<Binding>, lines: seq<Line>, parse: Parser, k: nat)
    requires SortedCases(cases) && k < |cases|
    ensures IsPredicted(ReplayOf(cases, bindings, lines, parse), cases[k].id)
            <==> Predicted(cases[k], Responses(bindings, lines, cases[k].id), parse)
  {
    hide PredictionsOf, FailuresOf, Responses, Predicted;
    var c := cases[k];
    var r := ReplayOf(cases, bindings, lines, parse);
    var responses := Responses(bindings, lines, c.id);
    if Predicted(c, responses, parse) {
      var p := PredictionOf(c, responses, parse);
      assert PredictionRow(cases, bindings, lines, parse, p, k);
      PredictionsMeaning(cases, bindings, lines, parse, p);
      assert p in r.predictions;
    }
    if p :| p in r.predictions && p.caseId == c.id {
      PredictionsMeaning(cases, bindings, lines, parse, p);
      var j :| PredictionRow(cases, bindings, lines, parse, p, j);
      DistinctIds(cases, j, k);
    }
  }

  lemma FailedRow(cases: seq<Case>, bindings: seq<Binding>, lines: seq<Line>, parse: Parser, k: nat, kind: FailureKind)
    requires SortedCases(cases) && k < |cases|
    ensures HasFailed(ReplayOf(cases, bindings, lines, parse), cases[k].id, kind)
            <==> (!Predicted(cases[k], Responses(bindings, lines, cases[k].id), parse)
                  && FailureFor(cases[k], Responses(bindings, lines, cases[k].id), parse).kind == kind)
  {
    hide PredictionsOf, FailuresOf, Responses, Predicted;
    var c := cases[k];
    var r := ReplayOf(cases, bindings, lines, parse);
    var responses := Responses(bindings, lines, c.id);
    if !Predicted(c, responses, parse) && FailureFor(c, responses, parse).kind == kind {
      var f := FailureFor(c, responses, parse);
      assert FailureRow(cases, bindings, lines, parse, f, k);
      FailuresMeaning(cases, bindings, lines, parse, f);
      assert f in r.failures && f.caseId == c.id;
    }
    if f :| f in r.failures && f.caseId == c.id && f.kind == kind {
      FailuresMeaning(cases, bindings, lines, parse, f);
      var j :| FailureRow(cases, bindings, lines, parse, f, j);
      FailureForKeepsId(cases[j], Responses(bindings, lines, cases[j].id), parse);
      DistinctIds(cases, j, k);
    }
  }

  lemma DistinctIds(cases: seq<Case>, j: nat, k: nat)
    requires SortedCases(cases) && j < |cases| && k < |cases| && cases[j].id == cases[k].id
    ensures j == k
  {
  }

  /** The line is the only one that answers the case, and the parser makes this body of it. */
  ghost predicate Yields(bindings: seq<Binding>, lines: seq<Line>, parse: Parser, c: Case, i: int, body: Id) {
    OnlyAnswer(bindings, lines, i, c.id) && parse(c, lines[i].text) == Ok(body)
  }

  /** What is predicted: the parsed body of the one line that answers a case, and nothing else. */
  lemma PredictionIff(cases: seq<Case>, bindings: seq<Binding>, lines: seq<Line>, parse: Parser, p: Prediction)
    ensures p in ReplayOf(cases, bindings, lines, parse).predictions <==>
              exists k, i :: 0 <= k < |cases| && cases[k].id == p.caseId
                && Yields(bindings, lines, parse, cases[k], i, p.body)
  {
    hide PredictionsOf, FailuresOf, Responses, Answers, PredictionRow;
    PredictionsMeaning(cases, bindings, lines, parse, p);
    forall k | 0 <= k < |cases|
      ensures PredictionRow(cases, bindings, lines, parse, p, k) <==>
                cases[k].id == p.caseId && exists i :: Yields(bindings, lines, parse, cases[k], i, p.body)
    {
      PredictedBody(cases, bindings, lines, parse, p, k);
    }
    if k, i :| 0 <= k < |cases| && cases[k].id == p.caseId && Yields(bindings, lines, parse, cases[k], i, p.body) {
      assert PredictionRow(cases, bindings, lines, parse, p, k);
    }
    if k :| PredictionRow(cases, bindings, lines, parse, p, k) {
      RowIsInRange(cases, bindings, lines, parse, p, k);
    }
  }

  lemma RowIsInRange(cases: seq<Case>, bindings: seq<Binding>, lines: seq<Line>, parse: Parser, p: Prediction, k: int)
    requires PredictionRow(cases, bindings, lines, parse, p, k)
    ensures 0 <= k < |cases|
  {
  }

  lemma PredictedBody(cases: seq<Case>, bindings: seq<Binding>, lines: seq<Line>, parse: Parser, p: Prediction, k: nat)
    requires k < |cases|
    ensures PredictionRow(cases, bindings, lines, parse, p, k) <==>
              cases[k].id == p.caseId && exists i :: Yields(bindings, lines, parse, cases[k], i, p.body)
  {
    ResponseCounts(bindings, lines, cases[k].id);
    hide OnlyAnswer, Responses;
    var c, responses := cases[k], Responses(bindings, lines, cases[k].id);
    if Predicted(c, responses, parse) {
      var i :| OnlyAnswer(bindings, lines, i, c.id);
      LineIsInRange(bindings, lines, i, c.id);
      assert responses == [lines[i].text];
      assert parse(c, lines[i].text).value == p.body ==> Yields(bindings, lines, parse, c, i, p.body);
    }
    if i :| Yields(bindings, lines, parse, c, i, p.body) {
      LineIsInRange(bindings, lines, i, c.id);
      assert responses == [lines[i].text];
    }
  }

  lemma LineIsInRange(bindings: seq<Binding>, lines: seq<Line>, i: int, id: Id)
    requires OnlyAnswer(bindings, lines, i, id)
    ensures 0 <= i < |lines| && lines[i].Response?
  {
  }

  /** The line is the only one that answers the case, and the parser refuses it with this text. */
  ghost predicate Refuses(bindings: seq<Binding>, lines: seq<Line>, parse: Parser, c: Case, i: int, detail: Id) {
    OnlyAnswer(bindings, lines, i, c.id) && parse(c, lines[i].text) == Err(detail)
  }

  /** Why a case fails, with the parser's text exactly when it was the parser that refused the answer. */
  ghost predicate FailsAs(bindings: seq<Binding>, lines: seq<Line>, parse: Parser, c: Case, kind: FailureKind,
                          detail: Option<Id>) {
    match kind
    case MISSING_RESULT => Unanswered(bindings, lines, c.id) && detail == None
    case DUPLICATE_RESULT => TwoAnswers(bindings, lines, c.id) && detail == None
    case GENERATION_PARSE_ERROR =>
      detail.Some? && exists i :: Refuses(bindings, lines, parse, c, i, detail.value)
  }

  /** What is reported as failed: each case that fails, under its own scenario and context, with the reason. */
  lemma FailureIff(cases: seq<Case>, bindings: seq<Binding>, lines: seq<Line>, parse: Parser, f: Failure)
    ensures f in ReplayOf(cases, bindings, lines, parse).failures <==>
              exists k :: 0 <= k < |cases| && cases[k].id == f.caseId && cases[k].scenario == f.scenario
                && cases[k].context == f.context && FailsAs(bindings, lines, parse, cases[k], f.kind, f.detail)
  {
    hide PredictionsOf, FailuresOf, Responses, Answers, FailureRow, FailsAs;
    FailuresMeaning(cases, bindings, lines, parse, f);
    forall k ensures FailureRow(cases, bindings, lines, parse, f, k) <==>
      0 <= k < |cases| && cases[k].id == f.caseId && cases[k].scenario == f.scenario
      && cases[k].context == f.context && FailsAs(bindings, lines, parse, cases[k], f.kind, f.detail)
    {
      FailedAs(cases, bindings, lines, parse, f, k);
    }
  }

  lemma FailedAs(cases: seq<Case>, bindings: seq<Binding>, lines: seq<Line>, parse: Parser, f: Failure, k: int)
    ensures FailureRow(cases, bindings, lines, parse, f, k) <==>
              0 <= k < |cases| && cases[k].id == f.caseId && cases[k].scenario == f.scenario
              && cases[k].context == f.context && FailsAs(bindings, lines, parse, cases[k], f.kind, f.detail)
  {
    if 0 <= k < |cases| {
      ResponseCounts(bindings, lines, cases[k].id);
      OnlyResponse(bindings, lines, parse, cases[k], f.detail);
      hide OnlyAnswer, Responses, Unanswered, TwoAnswers, Refuses;
    }
  }

  lemma OnlyResponse(bindings: seq<Binding>, lines: seq<Line>, parse: Parser, c: Case, detail: Option<Id>)
    ensures var responses := Responses(bindings, lines, c.id);
            |responses| == 1 && parse(c, responses[0]).Err? && detail == Some(parse(c, responses[0]).error)
            <==> detail.Some? && exists i :: Refuses(bindings, lines, parse, c, i, detail.value)
  {
    ResponseCounts(bindings, lines, c.id);
    hide OnlyAnswer, Responses;
    var responses := Responses(bindings, lines, c.id);
    if |responses| == 1 {
      var i :| OnlyAnswer(bindings, lines, i, c.id);
      LineIsInRange(bindings, lines, i, c.id);
      assert responses == [lines[i].text];
      assert parse(c, lines[i].text).Err? ==> Refuses(bindings, lines, parse, c, i, parse(c, lines[i].text).error);
    }
    if detail.Some? {
      if i :| Refuses(bindings, lines, parse, c, i, detail.value) {
        LineIsInRange(bindings, lines, i, c.id);
        assert responses == [lines[i].text];
      }
    }
  }

  /** Every case is accounted for once: sorted, disjoint rows covering exactly the cases, in the right number. */
  lemma RowsPartitionCases(cases: seq<Case>, bindings: seq<Binding>, lines: seq<Line>, parse: Parser)
    requires SortedCases(cases)
    ensures var r := ReplayOf(cases, bindings, lines, parse);
            && StrictlyIncreasing(PredictionIds(r.predictions)) && StrictlyIncreasing(FailureIds(r.failures))
            && Elements(PredictionIds(r.predictions)) !! Elements(FailureIds(r.failures))
            && Elements(PredictionIds(r.predictions)) + Elements(FailureIds(r.failures)) == CaseIds(cases)
            && |r.predictions| + |r.failures| == |cases|
  {
    hide PredictionsOf, FailuresOf, Responses, Predicted;
    var r := ReplayOf(cases, bindings, lines, parse);
    PredictionsAreSorted(cases, bindings, lines, parse);
    FailuresAreSorted(cases, bindings, lines, parse);
    RowCount(cases, bindings, lines, parse);
    forall id: Id ensures id in Elements(PredictionIds(r.predictions)) <==> IsPredicted(r, id) {
      assert forall n :: 0 <= n < |r.predictions| ==> PredictionIds(r.predictions)[n] == r.predictions[n].caseId;
      if p :| p in r.predictions && p.caseId == id {
        var n :| 0 <= n < |r.predictions| && r.predictions[n] == p;
        assert PredictionIds(r.predictions)[n] in PredictionIds(r.predictions);
      }
    }
    forall id: Id ensures id in Elements(FailureIds(r.failures)) <==> FailedSomehow(r, id) {
      assert forall n :: 0 <= n < |r.failures| ==> FailureIds(r.failures)[n] == r.failures[n].caseId;
      if f :| f in r.failures && f.caseId == id {
        var n :| 0 <= n < |r.failures| && r.failures[n] == f;
        assert FailureIds(r.failures)[n] in FailureIds(r.failures);
      }
    }
    forall id: Id ensures id in CaseIds(cases) <==> (IsPredicted(r, id) || FailedSomehow(r, id)) {
      CaseIsAccounted(cases, bindings, lines, parse, id);
    }
    forall id: Id ensures !(IsPredicted(r, id) && FailedSomehow(r, id)) {
      CaseIsAccounted(cases, bindings, lines, parse, id);
    }
  }

  ghost predicate FailedSomehow(r: Replay, id: Id) {
    exists f :: f in r.failures && f.caseId == id
  }

  lemma CaseIsAccounted(cases: seq<Case>, bindings: seq<Binding>, lines: seq<Line>, parse: Parser, id: Id)
    requires SortedCases(cases)
    ensures var r := ReplayOf(cases, bindings, lines, parse);
            && (id in CaseIds(cases) <==> (IsPredicted(r, id) || FailedSomehow(r, id)))
            && !(IsPredicted(r, id) && FailedSomehow(r, id))
  {
    hide PredictionsOf, FailuresOf, Responses, Predicted;
    var r := ReplayOf(cases, bindings, lines, parse);
    if k: nat :| k < |cases| && cases[k].id == id {
      assert cases[k] in cases;
      var responses := Responses(bindings, lines, id);
      PredictedRow(cases, bindings, lines, parse, k);
      forall kind ensures HasFailed(r, id, kind) <==>
        (!Predicted(cases[k], responses, parse) && FailureFor(cases[k], responses, parse).kind == kind)
      {
        FailedRow(cases, bindings, lines, parse, k, kind);
      }
      SomeKind(r, id);
      if !Predicted(cases[k], responses, parse) {
        assert HasFailed(r, id, FailureFor(cases[k], responses, parse).kind);
      }
    } else {
      NotACase(cases, bindings, lines, parse, id);
    }
  }

  lemma SomeKind(r: Replay, id: Id)
    ensures FailedSomehow(r, id) <==> exists kind :: HasFailed(r, id, kind)
  {
    if f :| f in r.failures && f.caseId == id {
      assert HasFailed(r, id, f.kind);
    }
  }

  lemma NotACase(cases: seq<Case>, bindings: seq<Binding>, lines: seq<Line>, parse: Parser, id: Id)
    requires forall k :: 0 <= k < |cases| ==> cases[k].id != id
    ensures var r := ReplayOf(cases, bindings, lines, parse);
            id !in CaseIds(cases) && !IsPredicted(r, id) && !FailedSomehow(r, id)
  {
    hide PredictionsOf, FailuresOf, Responses, Predicted;
    var r := ReplayOf(cases, bindings, lines, parse);
    forall p | p in r.predictions ensures p.caseId != id {
      PredictionsMeaning(cases, bindings, lines, parse, p);
      var j :| PredictionRow(cases, bindings, lines, parse, p, j);
    }
    forall f | f in r.failures ensures f.caseId != id {
      FailuresMeaning(cases, bindings, lines, parse, f);
      var j :| FailureRow(cases, bindings, lines, parse, f, j);
      FailureForKeepsId(cases[j], Responses(bindings, lines, cases[j].id), parse);
    }
  }

  lemma {:induction false} RowCount(cases: seq<Case>, bindings: seq<Binding>, lines: seq<Line>, parse: Parser)
    ensures |PredictionsOf(cases, bindings, lines, parse)| + |FailuresOf(cases, bindings, lines, parse)| == |cases|
  {
    hide Predicted, Responses, FailureFor;
    if cases != [] {
      RowCount(cases[..|cases| - 1], bindings, lines, parse);
    }
  }

  // ----- the order of the lines

  lemma {:induction false} ResponsesAppend(bindings: seq<Binding>, a: seq<Line>, b: seq<Line>, id: Id)
    ensures Responses(bindings, a + b, id) == Responses(bindings, a, id) + Responses(bindings, b, id)
  {
    if b == [] {
      assert a + b == a;
    } else {
      var n := |b| - 1;
      ResponsesAppend(bindings, a, b[..n], id);
      assert (a + b)[..|a + b| - 1] == a + b[..n];
    }
  }

  /** Taking one line out takes out its response. */
  lemma ResponsesWithout(bindings: seq<Binding>, lines: seq<Line>, at: nat, id: Id)
    requires at < |lines|
    ensures multiset(Responses(bindings, lines, id))
            == multiset(Responses(bindings, lines[..at] + lines[at + 1..], id))
               + (if Answers(bindings, lines[at], id) then multiset{lines[at].text} else multiset{})
  {
    var a, b := lines[..at], lines[at + 1..];
    assert lines == (a + [lines[at]]) + b;
    ResponsesAppend(bindings, a + [lines[at]], b, id);
    ResponsesStep(bindings, a, lines[at], id);
    ResponsesAppend(bindings, a, b, id);
  }

  /** The last line of a is also a line of b, and taking both out leaves the same lines again. */
  lemma TakeOut(a: seq<Line>, b: seq<Line>) returns (at: nat)
    requires multiset(a) == multiset(b) && a != []
    ensures at < |b| && b[at] == a[|a| - 1]
    ensures multiset(a[..|a| - 1]) == multiset(b[..at] + b[at + 1..])
  {
    var last := a[|a| - 1];
    assert a == a[..|a| - 1] + [last];
    assert last in multiset(b);
    at :| at < |b| && b[at] == last;
    assert b == b[..at] + [last] + b[at + 1..];
    assert multiset(a[..|a| - 1]) == multiset(a) - multiset{last};
    assert multiset(b[..at] + b[at + 1..]) == multiset(b) - multiset{last};
  }

  lemma {:induction false} ResponsesOfReordering(bindings: seq<Binding>, a: seq<Line>, b: seq<Line>, id: Id)
    requires multiset(a) == multiset(b)
    ensures multiset(Responses(bindings, a, id)) == multiset(Responses(bindings, b, id))
    decreases |a|
  {
    hide Answers;
    assert |multiset(a)| == |multiset(b)|;
    if a != [] {
      var at := TakeOut(a, b);
      ResponsesOfReordering(bindings, a[..|a| - 1], b[..at] + b[at + 1..], id);
      ResponsesWithout(bindings, b, at, id);
    }
  }

  lemma FateDependsOnMultiset(c: Case, a: seq<Id>, b: seq<Id>, parse: Parser)
    requires multiset(a) == multiset(b)
    ensures Predicted(c, a, parse) <==> Predicted(c, b, parse)
    ensures Predicted(c, a, parse) ==> PredictionOf(c, a, parse) == PredictionOf(c, b, parse)
    ensures !Predicted(c, a, parse) ==> FailureFor(c, a, parse) == FailureFor(c, b, parse)
  {
    assert |a| == |multiset(a)| == |multiset(b)| == |b|;
    if |a| == 1 {
      assert a == [a[0]] && b == [b[0]];
      assert a[0] in multiset(a);
      assert a[0] in multiset(b);
    }
  }

  /** The same lines in another order give the same predictions and failures, and are refused alike. */
  lemma {:induction false} LineOrderIsImmaterial(cases: seq<Case>, bindings: seq<Binding>, a: seq<Line>, b: seq<Line>,
                                                 parse: Parser)
    requires multiset(a) == multiset(b)
    ensures AllPlanned(bindings, a) <==> AllPlanned(bindings, b)
    ensures ReplayOf(cases, bindings, a, parse) == ReplayOf(cases, bindings, b, parse)
  {
    PlannedAlike(bindings, a, b);
    PlannedAlike(bindings, b, a);
    if cases != [] {
      var c := cases[|cases| - 1];
      LineOrderIsImmaterial(cases[..|cases| - 1], bindings, a, b, parse);
      ResponsesOfReordering(bindings, a, b, c.id);
      FateDependsOnMultiset(c, Responses(bindings, a, c.id), Responses(bindings, b, c.id), parse);
      hide Predicted, Responses, FailureFor, PredictionOf, AllPlanned;
    }
  }

  lemma PlannedAlike(bindings: seq<Binding>, a: seq<Line>, b: seq<Line>)
    requires multiset(a) == multiset(b)
    ensures AllPlanned(bindings, a) ==> AllPlanned(bindings, b)
  {
    forall i | AllPlanned(bindings, a) && 0 <= i < |b| ensures Planned(bindings, b[i]) {
      assert b[i] in multiset(a);
    }
  }

  // ----- cases that share a prompt

  /** A later case has the same prompt. */
  ghost predicate Shadowed(cases: seq<Case>, k: nat)
    requires k < |cases|
  {
    exists j :: k < j < |cases| && cases[j].messages == cases[k].messages
  }

  ghost predicate PromptsDistinct(cases: seq<Case>) {
    forall i, j :: 0 <= i < j < |cases| ==> cases[i].messages != cases[j].messages
  }

  /** A digest resolves to the last case that has it. */
  lemma {:induction false} ResolveIsLast(cases: seq<Case>, k: nat, messages: Id)
    requires SortedCases(cases) && k < |cases|
    ensures Resolve(BindingsOf(cases), messages) == Some(cases[k].id)
            <==> cases[k].messages == messages && !Shadowed(cases, k)
  {
    var n := |cases| - 1;
    assert BindingsOf(cases)[..n] == BindingsOf(cases[..n]);
    assert forall j :: 0 <= j < n ==> cases[..n][j] == cases[j];
    if cases[n].messages == messages {
      assert Resolve(BindingsOf(cases), messages) == Some(cases[n].id);
      if k < n {
        assert cases[k].messages == messages ==> Shadowed(cases, k);
      }
    } else if k < n {
      ResolveIsLast(cases[..n], k, messages);
      assert cases[k].messages == messages ==> (Shadowed(cases, k) <==> Shadowed(cases[..n], k));
    } else {
      ResolveNames(BindingsOf(cases[..n]), cases[..n], messages);
    }
  }

  /** Digests resolve to cases. */
  lemma {:induction false} ResolveNames(bindings: seq<Binding>, cases: seq<Case>, messages: Id)
    requires bindings == BindingsOf(cases)
    ensures Resolve(bindings, messages).Some?
            ==> exists k :: 0 <= k < |cases| && cases[k].id == Resolve(bindings, messages).value
    ensures Resolve(bindings, messages).None? <==> forall k :: 0 <= k < |cases| ==> cases[k].messages != messages
  {
    if cases != [] {
      var n := |cases| - 1;
      assert bindings[..n] == BindingsOf(cases[..n]);
      assert forall j :: 0 <= j < n ==> cases[..n][j] == cases[j];
      ResolveNames(bindings[..n], cases[..n], messages);
    }
  }

  /**
   A case whose prompt a later case repeats is never answered, whatever the result file holds: it always
   fails as a missing result.
   */
  lemma ShadowedCaseIsAlwaysMissing(cases: seq<Case>, lines: seq<Line>, parse: Parser, k: nat)
    requires SortedCases(cases) && k < |cases| && Shadowed(cases, k)
    ensures HasFailed(ReplayOf(cases, BindingsOf(cases), lines, parse), cases[k].id, MISSING_RESULT)
  {
    var id := cases[k].id;
    forall i | 0 <= i < |lines| ensures !Answers(BindingsOf(cases), lines[i], id) {
      if lines[i].Response? {
        ResolveIsLast(cases, k, lines[i].messages);
      }
    }
    AccountingOfCase(cases, BindingsOf(cases), lines, parse, k);
  }

  /** Two lines of the file respond to this prompt. */
  ghost predicate AnsweredTwice(lines: seq<Line>, messages: Id) {
    exists i, j :: 0 <= i < j < |lines| && RespondsTo(lines[i], messages) && RespondsTo(lines[j], messages)
  }

  predicate RespondsTo(line: Line, messages: Id) {
    line.Response? && line.messages == messages
  }

  /** Every response to the prompt of an unshadowed case answers that case, and nothing else does. */
  lemma UnshadowedAnswers(cases: seq<Case>, line: Line, k: nat)
    requires SortedCases(cases) && k < |cases| && !Shadowed(cases, k)
    ensures Answers(BindingsOf(cases), line, cases[k].id) <==> RespondsTo(line, cases[k].messages)
  {
    hide Resolve, BindingsOf;
    if line.Response? {
      ResolveIsLast(cases, k, line.messages);
    }
  }

  /** A case that no later case shadows fails as a duplicate exactly when two lines respond to its prompt. */
  lemma DuplicateIffAnsweredTwice(cases: seq<Case>, lines: seq<Line>, parse: Parser, k: nat)
    requires SortedCases(cases) && k < |cases| && !Shadowed(cases, k)
    ensures HasFailed(ReplayOf(cases, BindingsOf(cases), lines, parse), cases[k].id, DUPLICATE_RESULT)
            <==> AnsweredTwice(lines, cases[k].messages)
  {
    hide ReplayOf, BindingsOf, Answers, HasFailed;
    forall i | 0 <= i < |lines|
      ensures Answers(BindingsOf(cases), lines[i], cases[k].id) <==> RespondsTo(lines[i], cases[k].messages)
    {
      UnshadowedAnswers(cases, lines[i], k);
    }
    AccountingOfCase(cases, BindingsOf(cases), lines, parse, k);
  }

  /** Every request is answered once, in order, and every answer parses. */
  ghost predicate FaultlessRun(cases: seq<Case>, lines: seq<Line>, parse: Parser) {
    && |lines| == |cases|
    && forall k :: 0 <= k < |cases| ==>
         lines[k].Response? && lines[k].messages == cases[k].messages && parse(cases[k], lines[k].text).Ok?
  }

  /** An earlier case has the same prompt. */
  ghost predicate Shadows(cases: seq<Case>, k: nat)
    requires k < |cases|
  {
    exists i :: 0 <= i < k && cases[i].messages == cases[k].messages
  }

  /**
   What a faultless run makes of a case: missing if a later case repeats its prompt, a duplicate if only earlier
   ones do, a prediction if its prompt is its own.
   */
  lemma FateInFaultlessRun(cases: seq<Case>, lines: seq<Line>, parse: Parser, k: nat)
    requires SortedCases(cases) && FaultlessRun(cases, lines, parse) && k < |cases|
    ensures var r := ReplayOf(cases, BindingsOf(cases), lines, parse);
            && (HasFailed(r, cases[k].id, MISSING_RESULT) <==> Shadowed(cases, k))
            && (HasFailed(r, cases[k].id, DUPLICATE_RESULT) <==> !Shadowed(cases, k) && Shadows(cases, k))
            && (IsPredicted(r, cases[k].id) <==> !Shadowed(cases, k) && !Shadows(cases, k))
  {
    hide ReplayOf, BindingsOf, Answers, HasFailed, IsPredicted;
    var bindings, id := BindingsOf(cases), cases[k].id;
    AccountingOfCase(cases, bindings, lines, parse, k);
    if Shadowed(cases, k) {
      ShadowedCaseIsAlwaysMissing(cases, lines, parse, k);
      UnansweredMeans(bindings, lines, id);
    } else {
      forall i | 0 <= i < |lines| ensures Answers(bindings, lines[i], id) <==> cases[i].messages == cases[k].messages {
        UnshadowedAnswers(cases, lines[i], k);
      }
      assert Answers(bindings, lines[k], id);
      if !Shadows(cases, k) {
        assert OnlyAnswer(bindings, lines, k, id);
      }
    }
  }

  lemma UnansweredMeans(bindings: seq<Binding>, lines: seq<Line>, id: Id)
    requires Unanswered(bindings, lines, id)
    ensures !TwoAnswers(bindings, lines, id) && forall i :: !OnlyAnswer(bindings, lines, i, id)
  {
  }

  lemma FailureLeavesCaseOut(cases: seq<Case>, bindings: seq<Binding>, lines: seq<Line>, parse: Parser)
    requires SortedCases(cases)
    ensures var r := ReplayOf(cases, bindings, lines, parse);
            r.failures != [] ==> exists k :: 0 <= k < |cases| && !IsPredicted(r, cases[k].id)
  {
    hide PredictionsOf, FailuresOf, Responses, Predicted, Resolve, BindingsOf;
    var r := ReplayOf(cases, bindings, lines, parse);
    if r.failures != [] {
      var f := r.failures[0];
      assert f in r.failures && FailedSomehow(r, f.caseId);
      CaseIsAccounted(cases, bindings, lines, parse, f.caseId);
      var c :| c in cases && c.id == f.caseId;
      var k: nat :| k < |cases| && cases[k] == c;
      assert !IsPredicted(r, cases[k].id);
    }
  }

  /** A faultless run has no failures if and only if the prompts of the cases are pairwise distinct. */
  lemma FaultlessRunIsCompleteIff(cases: seq<Case>, lines: seq<Line>, parse: Parser)
    requires SortedCases(cases) && FaultlessRun(cases, lines, parse)
    ensures AllPlanned(BindingsOf(cases), lines)
    ensures ReplayOf(cases, BindingsOf(cases), lines, parse).failures == [] <==> PromptsDistinct(cases)
  {
    hide PredictionsOf, FailuresOf, Responses, Predicted, Resolve, BindingsOf;
    var bindings := BindingsOf(cases);
    var r := ReplayOf(cases, bindings, lines, parse);
    forall i | 0 <= i < |lines| ensures Planned(bindings, lines[i]) {
      ResolveNames(bindings, cases, lines[i].messages);
    }
    if PromptsDistinct(cases) {
      forall k: nat | k < |cases| ensures IsPredicted(r, cases[k].id) {
        FateInFaultlessRun(cases, lines, parse, k);
      }
      FailureLeavesCaseOut(cases, bindings, lines, parse);
    } else {
      var i, j :| 0 <= i < j < |cases| && cases[i].messages == cases[j].messages;
      assert Shadowed(cases, i);
      ShadowedCaseIsAlwaysMissing(cases, lines, parse, i);
    }
  }

  // ----- two cases with one prompt

  const TWINS := [Case(1, 3, 4, 9), Case(2, 3, 4, 9)]

  const TWIN_LINES := [Response(9, 0), Response(9, 0)]

  /** Both requests are answered and both answers parse; still nothing is predicted. */
  lemma TwinsFail(parse: Parser)
    requires parse(TWINS[0], 0).Ok? && parse(TWINS[1], 0).Ok?
    ensures SortedCases(TWINS) && FaultlessRun(TWINS, TWIN_LINES, parse)
    ensures var r := ReplayOf(TWINS, BindingsOf(TWINS), TWIN_LINES, parse);
            && r.predictions == []
            && HasFailed(r, 1, MISSING_RESULT) && HasFailed(r, 2, DUPLICATE_RESULT)
  {
    hide BindingsOf, PredictionsOf, FailuresOf;
    var r := ReplayOf(TWINS, BindingsOf(TWINS), TWIN_LINES, parse);
    assert TWINS[0].messages == TWINS[1].messages;
    assert Shadowed(TWINS, 0) && Shadows(TWINS, 1);
    FateInFaultlessRun(TWINS, TWIN_LINES, parse, 0);
    FateInFaultlessRun(TWINS, TWIN_LINES, parse, 1);
    forall id ensures !IsPredicted(r, id) {
      CaseIsAccounted(TWINS, BindingsOf(TWINS), TWIN_LINES, parse, id);
      assert id in CaseIds(TWINS) ==> id == 1 || id == 2;
    }
    NoneIsPredicted(r);
  }

  lemma NoneIsPredicted(r: Replay)
    requires forall id :: !IsPredicted(r, id)
    ensures r.predictions == []
  {
    if r.predictions != [] {
      assert IsPredicted(r, r.predictions[0].caseId);
    }
  }
}
