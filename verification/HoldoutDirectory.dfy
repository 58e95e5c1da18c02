/** The four operations on a worker directory, step by step (cyber_megatron_holdout_worker.py:505-1166). */
module HoldoutDirectory {
  import opened Ordering
  import opened HoldoutReplay
  import opened HoldoutReplayLaws
  import opened HoldoutWorker

  class WorkerDirectory {
    var created: bool
    var plan: Option<File<Plan>>
    var requests: Option<Bytes>
    var manifest: Option<File<Manifest>>
    var raw: Option<Bytes>
    var execution: Option<File<Execution>>
    var predictions: Option<Bytes>
    var failures: Option<Bytes>
    var receipt: Option<File<Receipt>>
    var strays: set<Id>

    function Snapshot(): Files
      reads this
    {
      Files(plan, requests, manifest, raw, execution, predictions, failures, receipt, strays)
    }

    ghost predicate Valid()
      reads this
    {
      !created ==> Snapshot() == EMPTY
    }

    constructor ()
      ensures Valid() && !created
    {
      created := false;
      plan, requests, manifest, raw, execution := None, None, None, None, None;
      predictions, failures, receipt, strays := None, None, None, {};
    }

    /** `prepare_cyber_megatron_holdout_worker`. */
    method Prepare(s: Sources, formats: Formats, profile: Profile) returns (result: Result<Plan, WorkerError>)
      requires Valid() && s.Valid() && profile.Valid()
      modifies this
      ensures Valid()
      ensures result.Ok? <==> Preparable(s) && !old(created)
      ensures result.Ok? ==> created && Snapshot() == PreparedFiles(s, formats, profile)
                             && HasPlan(Snapshot()) && result.value == PlanIn(Snapshot())
      ensures result.Err? ==> Snapshot() == old(Snapshot()) && created == old(created)
    {
      if s.holdout.None? {
        return Err(SOURCE_REFUSED);
      }
      var h := s.holdout.value;
      if s.candidate.sha != h.candidate || s.candidate.tree != h.tree {
        return Err(SOURCE_REFUSED);
      }
      if s.trees(s.checkpointPath) != Some(s.candidate.tree) {
        return Err(SOURCE_REFUSED);
      }
      var requestText, requestManifest := formats.requestText(s.cases), ManifestOf(s.cases, formats);
      if created {
        return Err(OUTPUT_EXISTS);
      }
      created := true;
      requests := Some(requestText);
      manifest := Some(Document(requestManifest));
      var workerPlan := PlanOf(PlanBodyOf(s, formats, profile));
      plan := Some(Document(workerPlan));
      result := Ok(workerPlan);
    }

    /**
     `execute_cyber_megatron_holdout_worker`. Once the process has started, its results stay on disk whatever
     its exit code; an exit code outside 0..255 leaves no execution state.
     */
    method Execute(trees: Id -> Option<Id>, formats: Formats, launch: Launch) returns (result: Result<nat, WorkerError>)
      modifies `raw, `execution
      ensures var ran := old(ReadyToRun(Snapshot(), trees, formats) && Cleared(PlanIn(Snapshot()), launch));
              && (ran ==> raw == launch.output)
              && (ran && 0 <= launch.exitCode <= 255
                  ==> result == Ok(launch.exitCode)
                      && execution == Some(Document(ExecutionOf(old(PlanIn(Snapshot())), launch))))
              && (ran && !(0 <= launch.exitCode <= 255) ==> result == Err(BAD_EXIT_CODE) && execution == None)
              && (!ran ==> result.Err? && result.error != BAD_EXIT_CODE && Snapshot() == old(Snapshot()))
    {
      if !ReadyToRun(Snapshot(), trees, formats) {
        return Err(DIRECTORY_REFUSED);
      }
      var workerPlan := PlanIn(Snapshot());
      if !Cleared(workerPlan, launch) {
        return Err(NOT_CLEARED);
      }
      if raw.Some? || execution.Some? {
        return Err(OUTPUT_EXISTS);
      }
      raw := launch.output;
      if launch.exitCode < 0 || launch.exitCode > 255 {
        return Err(BAD_EXIT_CODE);
      }
      execution := Some(Document(ExecutionOf(workerPlan, launch)));
      result := Ok(launch.exitCode);
    }

    /** `finalize_cyber_megatron_holdout_worker`. */
    method Finalize(cases: seq<Case>, formats: Formats) returns (result: Result<Receipt, WorkerError>)
      requires SortedCases(cases)
      modifies `predictions, `failures, `receipt
      ensures var f := old(Snapshot());
              var ready := Finalizable(f, cases, formats) && OutputsAbsent(f);
              && (result.Ok? <==> ready && PlanIn(f).body.requestCount == |cases|)
              && (result.Ok? ==> Snapshot() == FinalizedFiles(f, cases, formats)
                                 && HasReceipt(Snapshot()) && result.value == ReceiptIn(Snapshot()))
              && (result == Err(RECEIPT_REFUSED) <==> ready && PlanIn(f).body.requestCount != |cases|)
              && (result == Err(RECEIPT_REFUSED) ==> Snapshot() == FinalizedFiles(f, cases, formats).(receipt := None))
              && (result.Err? && result.error != RECEIPT_REFUSED ==> Snapshot() == f)
    {
      var f := Snapshot();
      if !HasPlan(f) || !HasManifest(f) || !HasExecution(f) {
        return Err(NOT_FINALIZABLE);
      }
      var p, m, e := PlanIn(f), ManifestIn(f), ExecutionIn(f);
      if !e.body.completed || e.body.returnCode != 0 {
        return Err(NOT_FINALIZABLE);
      }
      if !ExecutionMatches(p, e.body) {
        return Err(NOT_FINALIZABLE);
      }
      if requests.None? || Sha(requests.value) != p.body.requests {
        return Err(NOT_FINALIZABLE);
      }
      if m.requests != p.body.requests || m.bindingsSha != p.body.requestBindings {
        return Err(NOT_FINALIZABLE);
      }
      if CaseIdList(cases) != m.caseIds {
        return Err(NOT_FINALIZABLE);
      }
      if raw.None? || e.body.raw != Some(Sha(raw.value)) || formats.decode(raw.value).None? {
        return Err(NOT_FINALIZABLE);
      }
      ManifestBindsCases(m, cases);
      var replayed := ReplayRawResults(formats.decode(raw.value).value, cases, m.bindings, formats.parser(p.body.tree));
      if replayed.Err? {
        return Err(NOT_FINALIZABLE);
      }
      var replay := replayed.value;
      var predictionText := formats.predictionText(replay.predictions);
      var failureText := formats.failureText(replay.failures);
      if predictions.Some? || failures.Some? || receipt.Some? {
        return Err(OUTPUT_EXISTS);
      }
      predictions := Some(predictionText);
      failures := Some(failureText);
      var draft := ReceiptOf(p, e, raw.value, replay, formats);
      ReceiptIsValidIff(p, e, raw.value, cases, m.bindings, formats.decode(raw.value).value, formats);
      if !draft.Valid() {
        return Err(RECEIPT_REFUSED);
      }
      receipt := Some(Document(draft));
      result := Ok(draft);
    }

    /** `verify_cyber_megatron_holdout_output`: a flag is set once its stage and all earlier ones have passed. */
    method Verify(s: Sources, formats: Formats) returns (v: Verification)
      requires s.Valid()
      ensures var f := Snapshot();
              && v.sourcePlan == SourcePlanOk(f, s)
              && v.workerPlan == WorkerPlanOk(f, s, formats)
              && v.requestBinding == RequestsOk(f, s, formats)
              && v.execution == ExecutionOk(f, s, formats)
              && v.rawReplayed == ReplayOk(f, s, formats)
              && v.receipt == ReceiptOk(f, s, formats)
              && v.completeAccounting == AccountingOk(f, s, formats)
              && v.valid == AccountingOk(f, s, formats)
              && v.requestCount == (if v.workerPlan then PlanIn(f).body.requestCount else 0)
              && v.predictionCount == (if v.rawReplayed then |ReplayIn(f, s.cases, formats).predictions| else 0)
              && v.failureCount == (if v.rawReplayed then |ReplayIn(f, s.cases, formats).failures| else 0)
    {
      var f := Snapshot();
      v := UNVERIFIED;
      if !Complete(f) || s.holdout.None? {
        return;
      }
      v := v.(sourcePlan := true);
      if !HasPlan(f) {
        return;
      }
      var p, h := PlanIn(f), s.holdout.value;
      if !(p.body.holdoutPlan == Sha(h) && p.body.candidate == h.candidate && p.body.tree == h.tree
           && p.body.requestCount == |h.caseIds| && p.body.caseIds == Sha(h.caseIds)
           && p.body.generation == h.generation
           && p.body.command == formats.swift(p.body.checkpointPath, p.body.generation, p.body.profile))
      {
        return;
      }
      if s.trees(p.body.checkpointPath) != Some(p.body.tree) {
        return;
      }
      v := v.(workerPlan := true, requestCount := p.body.requestCount);
      if !HasManifest(f) || f.requests.value != formats.requestText(s.cases) {
        return;
      }
      var m := ManifestIn(f);
      if m != ManifestOf(s.cases, formats) || Sha(f.requests.value) != p.body.requests {
        return;
      }
      v := v.(requestBinding := true);
      if !HasExecution(f) {
        return;
      }
      var e := ExecutionIn(f);
      if !(ExecutionMatches(p, e.body) && e.body.completed && e.body.returnCode == 0
           && e.body.raw == Some(Sha(f.raw.value)))
      {
        return;
      }
      v := v.(execution := true);
      if formats.decode(f.raw.value).None? {
        return;
      }
      ManifestBindsCases(m, s.cases);
      var replayed := ReplayRawResults(formats.decode(f.raw.value).value, s.cases, m.bindings,
                                       formats.parser(p.body.tree));
      if replayed.Err? {
        return;
      }
      var replay := replayed.value;
      if f.predictions.value != formats.predictionText(replay.predictions)
        || f.failures.value != formats.failureText(replay.failures)
      {
        return;
      }
      v := v.(rawReplayed := true, predictionCount := |replay.predictions|, failureCount := |replay.failures|);
      if !HasReceipt(f) {
        return;
      }
      var r := ReceiptIn(f).body;
      if !(r.workerPlan == p.sha && r.execution == e.sha && r.holdoutPlan == Sha(h)
           && r.candidate == p.body.candidate && r.tree == p.body.tree && r.requestCount == v.requestCount
           && r.predictionCount == v.predictionCount && r.failureCount == v.failureCount
           && r.failedIds == FailureIds(replay.failures)
           && r.raw == Sha(f.raw.value) && r.predictions == Sha(f.predictions.value)
           && r.failures == Sha(f.failures.value)
           && r.versions == e.body.versions)
      {
        return;
      }
      v := v.(receipt := true);
      var predicted, failed := Elements(PredictionIds(replay.predictions)), Elements(FailureIds(replay.failures));
      if predicted * failed != {} || predicted + failed != Elements(h.caseIds) {
        return;
      }
      v := v.(completeAccounting := true, valid := true);
    }
  }

  lemma ManifestBindsCases(m: Manifest, cases: seq<Case>)
    requires m.Valid() && m.caseIds == CaseIdList(cases)
    ensures BindsCases(m.bindings, cases)
  {
    assert forall i :: 0 <= i < |cases| ==> m.caseIds[i] == cases[i].id;
  }

  /** Finalize's receipt passes its own validator exactly when the plan counts the inference cases. */
  lemma ReceiptIsValidIff(p: Plan, e: Execution, raw: Bytes, cases: seq<Case>, bindings: seq<Binding>, lines: seq<Line>,
                          formats: Formats)
    requires SortedCases(cases) && p.Valid()
    ensures ReceiptOf(p, e, raw, ReplayOf(cases, bindings, lines, formats.parser(p.body.tree)), formats).Valid()
            <==> p.body.requestCount == |cases|
  {
    hide PredictionsOf, FailuresOf;
    var replay := ReplayOf(cases, bindings, lines, formats.parser(p.body.tree));
    FailuresAreSorted(cases, bindings, lines, formats.parser(p.body.tree));
    RowCount(cases, bindings, lines, formats.parser(p.body.tree));
  }
}
