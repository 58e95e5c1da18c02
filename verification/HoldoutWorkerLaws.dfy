/** What a verified worker directory is: exactly what prepare, execute and finalize leave behind. */
module HoldoutWorkerLaws {
  import opened Ordering
  import opened HoldoutReplay
  import opened HoldoutReplayLaws
  import opened HoldoutWorker

  function ExecutedFiles(f: Files, launch: Launch): Files
    requires HasPlan(f) && Cleared(PlanIn(f), launch) && 0 <= launch.exitCode
  {
    f.(raw := launch.output, execution := Some(Document(ExecutionOf(PlanIn(f), launch))))
  }

  function WithoutOutputs(f: Files): Files {
    f.(predictions := None, failures := None, receipt := None)
  }

  /** A run of the inference process that leaves readable answers to planned requests only. */
  ghost predicate GoodLaunch(s: Sources, formats: Formats, profile: Profile, launch: Launch)
    requires s.holdout.Some?
  {
    && Cleared(PlanOf(PlanBodyOf(s, formats, profile)), launch)
    && launch.exitCode == 0 && launch.output.Some?
    && formats.decode(launch.output.value).Some?
    && AllPlanned(BindingsOf(s.cases), formats.decode(launch.output.value).value)
  }

  /** f is left by prepare, a completed execution and finalize. */
  ghost predicate PipelineOutput(f: Files, s: Sources, formats: Formats, profile: Profile, launch: Launch) {
    && profile.Valid() && Preparable(s) && GoodLaunch(s, formats, profile, launch)
    && HasPlan(PreparedFiles(s, formats, profile))
    && var run := ExecutedFiles(PreparedFiles(s, formats, profile), launch);
    && Finalizable(run, s.cases, formats)
    && f == FinalizedFiles(run, s.cases, formats)
  }

  lemma PreparedIsReady(s: Sources, formats: Formats, profile: Profile)
    requires s.Valid() && profile.Valid() && Preparable(s)
    ensures ReadyToRun(PreparedFiles(s, formats, profile), s.trees, formats)
    ensures ManifestIn(PreparedFiles(s, formats, profile)) == ManifestOf(s.cases, formats)
  {
    var m := ManifestOf(s.cases, formats);
    assert forall i :: 0 <= i < |s.cases| ==> m.bindings[i].caseId == s.cases[i].id == m.caseIds[i];
    assert m.Valid();
  }

  lemma AtLeastOneGpu(profile: Profile)
    requires profile.Valid()
    ensures profile.TotalGpus() >= 1
  {
    assert profile.nodes * profile.gpusPerNode >= profile.nodes * 1;
  }

  lemma ExecutedIsFinalizable(s: Sources, formats: Formats, profile: Profile, launch: Launch)
    requires s.Valid() && profile.Valid() && Preparable(s) && GoodLaunch(s, formats, profile, launch)
    ensures HasPlan(PreparedFiles(s, formats, profile))
    ensures Finalizable(ExecutedFiles(PreparedFiles(s, formats, profile), launch), s.cases, formats)
  {
    PreparedIsReady(s, formats, profile);
    AtLeastOneGpu(profile);
  }

  /** Prepare, a good launch and finalize always succeed in turn and leave a directory that verifies. */
  lemma PipelineVerifies(s: Sources, formats: Formats, profile: Profile, launch: Launch)
    requires s.Valid() && profile.Valid() && Preparable(s) && GoodLaunch(s, formats, profile, launch)
    ensures var prepared := PreparedFiles(s, formats, profile);
            && ReadyToRun(prepared, s.trees, formats)
            && var run := ExecutedFiles(prepared, launch);
            && Finalizable(run, s.cases, formats) && OutputsAbsent(run)
            && PlanIn(run).body.requestCount == |s.cases|
            && AccountingOk(FinalizedFiles(run, s.cases, formats), s, formats)
  {
    PreparedIsReady(s, formats, profile);
    ExecutedIsFinalizable(s, formats, profile, launch);
    var run := ExecutedFiles(PreparedFiles(s, formats, profile), launch);
    FinalizedVerifies(run, s, formats);
  }

  /** Finalizing a directory whose plan, checkpoint and requests agree with the sources makes it verify. */
  lemma FinalizedVerifies(run: Files, s: Sources, formats: Formats)
    requires s.Valid() && s.holdout.Some? && run.strays == {}
    requires Finalizable(run, s.cases, formats) && ManifestIn(run) == ManifestOf(s.cases, formats)
    requires run.requests.value == formats.requestText(s.cases)
    requires var p := PlanIn(run).body; var h := s.holdout.value;
             && p.holdoutPlan == Sha(h) && p.candidate == h.candidate && p.tree == h.tree
             && p.generation == h.generation
             && p.requestCount == |s.cases| && p.caseIds == Sha(h.caseIds)
             && p.command == formats.swift(p.checkpointPath, p.generation, p.profile)
             && s.trees(p.checkpointPath) == Some(p.tree)
    ensures AccountingOk(FinalizedFiles(run, s.cases, formats), s, formats)
  {
    hide ReplayOf, AllPlanned;
    var f := FinalizedFiles(run, s.cases, formats);
    var replay := ReplayIn(run, s.cases, formats);
    assert ReplayIn(f, s.cases, formats) == replay;
    assert ExecutionOk(f, s, formats);
    assert ReplayOk(f, s, formats);
    ReplayCounts(f, s.cases, formats);
    assert HasReceipt(f);
    assert ReceiptOk(f, s, formats);
    AccountingFollows(f, s, formats);
  }

  lemma ReplayCounts(f: Files, cases: seq<Case>, formats: Formats)
    requires SortedCases(cases) && HasPlan(f) && HasManifest(f) && f.raw.Some? && formats.decode(f.raw.value).Some?
    ensures var replay := ReplayIn(f, cases, formats);
            && |replay.predictions| + |replay.failures| == |cases|
            && StrictlyIncreasing(FailureIds(replay.failures)) && |FailureIds(replay.failures)| == |replay.failures|
            && Elements(PredictionIds(replay.predictions)) * Elements(FailureIds(replay.failures)) == {}
            && Elements(PredictionIds(replay.predictions)) + Elements(FailureIds(replay.failures)) == CaseIds(cases)
  {
    hide ReplayOf;
    RowsPartitionCases(cases, ManifestIn(f).bindings, formats.decode(f.raw.value).value,
                       formats.parser(PlanIn(f).body.tree));
  }

  lemma IdsOfCases(cases: seq<Case>)
    ensures Elements(CaseIdList(cases)) == CaseIds(cases)
  {
    forall id | id in CaseIds(cases) ensures id in Elements(CaseIdList(cases)) {
      var c :| c in cases && c.id == id;
      var k :| 0 <= k < |cases| && cases[k] == c;
      assert CaseIdList(cases)[k] == id;
    }
    forall id | id in Elements(CaseIdList(cases)) ensures id in CaseIds(cases) {
      var k :| 0 <= k < |cases| && CaseIdList(cases)[k] == id;
      assert cases[k] in cases;
    }
  }

  /** The closing accounting stage cannot fail: a directory is valid as soon as its receipt verifies. */
  lemma AccountingFollows(f: Files, s: Sources, formats: Formats)
    requires s.Valid()
    ensures AccountingOk(f, s, formats) <==> ReceiptOk(f, s, formats)
  {
    hide ReplayOf, AllPlanned, ExecutionOk;
    if ReceiptOk(f, s, formats) {
      Stages(f, s, formats);
      ReplayCounts(f, s.cases, formats);
      IdsOfCases(s.cases);
    }
  }

  lemma Stages(f: Files, s: Sources, formats: Formats)
    requires ReplayOk(f, s, formats)
    ensures HasPlan(f) && HasManifest(f) && f.raw.Some? && formats.decode(f.raw.value).Some? && s.holdout.Some?
  {
  }

  // ----- the converse

  /**
   The files finalize writes are determined by the rest of a verified directory: finalizing it anew gives
   the same three files back, provided finalize accepts it, and it does exactly when the plan's digest of
   the request bindings is right, which verification never looks at.
   */
  lemma FinalizeReproducesVerified(f: Files, s: Sources, formats: Formats)
    requires s.Valid() && AccountingOk(f, s, formats)
    ensures var inputs := WithoutOutputs(f);
            && (Finalizable(inputs, s.cases, formats) <==> PlanIn(f).body.requestBindings == Sha(BindingsOf(s.cases)))
            && (Finalizable(inputs, s.cases, formats) ==>
                  FinalizedFiles(inputs, s.cases, formats) == f && PlanIn(f).body.requestCount == |s.cases|)
  {
    hide ReplayOf, AllPlanned;
    var inputs := WithoutOutputs(f);
    assert ReplayOk(f, s, formats) && ReceiptOk(f, s, formats);
    assert PlanIn(inputs) == PlanIn(f) && ManifestIn(inputs) == ManifestIn(f) && ExecutionIn(inputs) == ExecutionIn(f);
    assert ReplayIn(inputs, s.cases, formats) == ReplayIn(f, s.cases, formats);
    assert CaseIdList(s.cases) == ManifestIn(f).caseIds;
    assert ReceiptIn(f) == ReceiptOf(PlanIn(f), ExecutionIn(f), f.raw.value, ReplayIn(f, s.cases, formats), formats);
    assert f.receipt == Some(Document(ReceiptIn(f)));
  }

  /** Two verified directories that share the plan, the raw results and the execution state are the same. */
  lemma VerifiedIsDetermined(f: Files, g: Files, s: Sources, formats: Formats)
    requires s.Valid() && AccountingOk(f, s, formats) && AccountingOk(g, s, formats)
    requires f.plan == g.plan && f.raw == g.raw && f.execution == g.execution
    ensures f == g
  {
    hide ReplayOf, AllPlanned;
    assert ManifestIn(f) == ManifestIn(g);
    assert f.manifest == Some(Document(ManifestIn(f))) && g.manifest == Some(Document(ManifestIn(g)));
    assert ReplayIn(f, s.cases, formats) == ReplayIn(g, s.cases, formats);
    assert ReceiptIn(f).body == ReceiptIn(g).body;
    assert f.receipt == Some(Document(ReceiptIn(f))) && g.receipt == Some(Document(ReceiptIn(g)));
  }

  /** The recorded fields that verification does not compare with anything, as the pipeline writes them. */
  ghost predicate UncheckedFieldsAsWritten(f: Files, s: Sources)
    requires HasPlan(f) && HasExecution(f) && s.holdout.Some?
  {
    var p, e := PlanIn(f).body, ExecutionIn(f).body;
    && p.runId == s.holdout.value.runId
    && p.holdoutFile == Sha(s.holdoutFile)
    && p.requestBindings == Sha(BindingsOf(s.cases))
    && p.checkpointPath == s.checkpointPath
    && e.session == SessionSha(PlanIn(f).sha)
    && e.versions.others == map[]
  }

  /** The launch a verified directory records. */
  ghost function RecordedLaunch(f: Files): Launch
    requires HasPlan(f) && HasExecution(f)
  {
    var e := ExecutionIn(f).body;
    Launch(true, PlanIn(f).sha, Some(e.rayAddress.of), true, e.versions.msSwift, e.versions.vllm, e.versions.ray,
           Some((e.rayNodes, e.rayGpus)), e.returnCode, f.raw)
  }

  /**
   With those fields as written, verification accepts exactly the outputs of the pipeline: some valid profile
   and some good launch produce every byte of the directory.
   */
  lemma VerifiedIffPipelineOutput(f: Files, s: Sources, formats: Formats)
    requires s.Valid() && s.holdout.Some? && s.candidate == Candidate(s.holdout.value.candidate, s.holdout.value.tree)
    ensures (AccountingOk(f, s, formats) && UncheckedFieldsAsWritten(f, s))
            <==> exists profile, launch :: PipelineOutput(f, s, formats, profile, launch)
  {
    if AccountingOk(f, s, formats) && UncheckedFieldsAsWritten(f, s) {
      VerifiedIsPipelineOutput(f, s, formats);
    }
    forall profile, launch | PipelineOutput(f, s, formats, profile, launch)
      ensures AccountingOk(f, s, formats) && UncheckedFieldsAsWritten(f, s)
    {
      PipelineVerifies(s, formats, profile, launch);
    }
  }

  lemma VerifiedIsPipelineOutput(f: Files, s: Sources, formats: Formats)
    requires s.Valid() && AccountingOk(f, s, formats) && UncheckedFieldsAsWritten(f, s)
    requires s.candidate == Candidate(s.holdout.value.candidate, s.holdout.value.tree)
    ensures PipelineOutput(f, s, formats, PlanIn(f).body.profile, RecordedLaunch(f))
  {
    hide ReplayOf, AllPlanned;
    var profile, launch := PlanIn(f).body.profile, RecordedLaunch(f);
    assert PlanIn(f).body == PlanBodyOf(s, formats, profile);
    assert f.plan == Some(Document(PlanOf(PlanBodyOf(s, formats, profile))));
    assert f.manifest == Some(Document(ManifestOf(s.cases, formats)));
    assert GoodLaunch(s, formats, profile, launch);
    PreparedIsReady(s, formats, profile);
    var run := ExecutedFiles(PreparedFiles(s, formats, profile), launch);
    assert ExecutionIn(f).body == ExecutionOf(PlanIn(f), launch).body;
    assert f.execution == Some(Document(ExecutionIn(f)));
    assert run == WithoutOutputs(f);
    FinalizeReproducesVerified(f, s, formats);
  }

  /** f with other values in the unchecked fields, and every digest of the chain recomputed. */
  ghost function Resealed(f: Files, runId: Id, holdoutFile: Sha<Bytes>, bindings: Sha<seq<Binding>>,
                          session: SessionSha): Files
    requires HasPlan(f) && HasExecution(f) && HasReceipt(f)
  {
    var p := PlanOf(PlanIn(f).body.(runId := runId, holdoutFile := holdoutFile, requestBindings := bindings));
    var e := ExecutionIn(f).body.(workerPlan := p.sha, session := session);
    var r := ReceiptIn(f).body.(workerPlan := p.sha, execution := ExecutionSha(e));
    f.(plan := Some(Document(p)), execution := Some(Document(Execution(e, ExecutionSha(e)))),
       receipt := Some(Document(Receipt(r, ReceiptSha(r)))))
  }

  /**
   Verification is blind to those fields: any other run id, source-plan file digest, bindings digest and
   session digest, resealed, verifies just as well, although finalize refuses a wrong bindings digest.
   */
  lemma VerificationIgnoresUncheckedFields(
    f: Files, s: Sources, formats: Formats, runId: Id, holdoutFile: Sha<Bytes>, bindings: Sha<seq<Binding>>,
    session: SessionSha)
    requires s.Valid() && AccountingOk(f, s, formats)
    ensures var g := Resealed(f, runId, holdoutFile, bindings, session);
            && AccountingOk(g, s, formats)
            && (Finalizable(WithoutOutputs(g), s.cases, formats) <==> bindings == Sha(BindingsOf(s.cases)))
  {
    hide ReplayOf, AllPlanned;
    var g := Resealed(f, runId, holdoutFile, bindings, session);
    assert ReplayOk(f, s, formats) && ReceiptOk(f, s, formats);
    assert WorkerPlanOk(g, s, formats) && ExecutionOk(g, s, formats);
    assert ReplayIn(g, s.cases, formats) == ReplayIn(f, s.cases, formats);
    assert ReplayOk(g, s, formats);
    assert ReceiptOk(g, s, formats);
    FinalizeReproducesVerified(g, s, formats);
  }
}
