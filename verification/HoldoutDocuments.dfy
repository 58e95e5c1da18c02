/** What the validators of the worker's documents guarantee (cyber_megatron_holdout_worker.py). */
module HoldoutDocuments {
  import opened Ordering
  import opened HoldoutReplay
  import opened HoldoutWorker

  /**
   A profile is valid iff it spreads the model over all of 2 to 64 nodes with 1 to 16 GPUs each, a tensor group to a
   node and a pipeline stage to a node; the check of the product follows from the other two.
   */
  lemma ProfileIsValidIff(p: Profile)
    ensures p.Valid() <==>
              2 <= p.nodes <= 64 && 1 <= p.gpusPerNode <= 16
              && p.tensorParallel == p.gpusPerNode && p.pipelineParallel == p.nodes
    ensures p.TotalGpus() == p.gpusPerNode * p.nodes
  {
    assert p.tensorParallel == p.gpusPerNode && p.pipelineParallel == p.nodes ==>
      p.tensorParallel * p.pipelineParallel == p.nodes * p.gpusPerNode;
  }

  /** Two valid documents with one digest are the same document. */
  lemma DigestsSeal(p: Plan, p': Plan, e: Execution, e': Execution, r: Receipt, r': Receipt)
    ensures p.Valid() && p'.Valid() && p.sha == p'.sha ==> p == p'
    ensures e.Valid() && e'.Valid() && e.sha == e'.sha ==> e == e'
    ensures r.Valid() && r'.Valid() && r.sha == r'.sha ==> r == r'
  {
  }

  /** A valid plan asks for something, and its digests are those of the policy and the command it carries. */
  lemma PlanMeaning(p: Plan)
    requires p.Valid()
    ensures p.body.requestCount >= 1 && p.body.profile.Valid()
    ensures p.body.generationSha.of == p.body.generation && p.body.commandSha.of == p.body.command
    ensures p.sha.of == p.body
  {
  }

  /** A valid execution state is completed exactly when the process returned 0 and left results. */
  lemma CompletedIff(e: Execution)
    requires e.Valid()
    ensures e.body.completed <==> e.body.returnCode == 0 && e.body.raw.Some?
    ensures e.body.rayNodes >= 1 && e.body.rayGpus >= 1 && e.body.returnCode <= 255
  {
  }

  /** What a run records is valid whenever its exit code fits, and completed iff it ended well with results. */
  lemma RecordedStateIsValid(plan: Plan, launch: Launch)
    requires plan.Valid() && Cleared(plan, launch) && 0 <= launch.exitCode
    ensures ExecutionOf(plan, launch).Valid() <==> launch.exitCode <= 255
    ensures ExecutionOf(plan, launch).body.completed <==> launch.exitCode == 0 && launch.output.Some?
    ensures ExecutionMatches(plan, ExecutionOf(plan, launch).body)
    ensures var e := ExecutionOf(plan, launch).body;
            && launch.approved && launch.executables
            && e.session.of == plan.sha && e.rayAddress.of == launch.rayAddress.value
            && (e.raw.Some? <==> launch.output.Some?) && (e.raw.Some? ==> e.raw.value.of == launch.output.value)
  {
    ProfileIsValidIff(plan.body.profile);
    assert plan.body.profile.nodes * plan.body.profile.gpusPerNode >= plan.body.profile.nodes * 1;
  }

  /** A valid manifest binds each of its cases once, in the order of their identifiers, under its own digest. */
  lemma ManifestMeaning(m: Manifest)
    requires m.Valid()
    ensures |m.bindings| == |m.caseIds| == m.caseCount >= 1
    ensures forall i, j :: 0 <= i < j < |m.bindings| ==> m.bindings[i].caseId < m.bindings[j].caseId
    ensures forall i :: 0 <= i < |m.bindings| ==> m.bindings[i].caseId == m.caseIds[i]
    ensures m.bindingsSha.of == m.bindings
  {
  }

  /** Prepare binds each case to its own scenario, context and prompt; the manifest is valid iff there is a case. */
  lemma PreparedManifest(cases: seq<Case>, formats: Formats, k: nat)
    requires SortedCases(cases)
    ensures var m := ManifestOf(cases, formats);
            && (m.Valid() <==> cases != [])
            && m.requests.of == formats.requestText(cases)
            && (k < |cases| ==>
                  && m.caseIds[k] == m.bindings[k].caseId == cases[k].id
                  && m.bindings[k].scenario == cases[k].scenario && m.bindings[k].context == cases[k].context
                  && m.bindings[k].messages == cases[k].messages)
  {
    var m := ManifestOf(cases, formats);
    assert forall i :: 0 <= i < |cases| ==> m.bindings[i].caseId == cases[i].id == m.caseIds[i];
  }

  /** What prepare seals into the plan. */
  lemma PreparedPlan(s: Sources, formats: Formats, profile: Profile)
    requires s.Valid() && profile.Valid() && Preparable(s)
    ensures var p := PlanOf(PlanBodyOf(s, formats, profile)); var h := s.holdout.value;
            && p.Valid() && p.body.requestCount == |h.caseIds|
            && p.body.holdoutPlan.of == h && p.body.holdoutFile.of == s.holdoutFile && p.body.runId == h.runId
            && p.body.candidate == h.candidate && p.body.tree == h.tree
            && s.trees(p.body.checkpointPath) == Some(p.body.tree)
            && p.body.caseIds.of == CaseIdList(s.cases) && p.body.requests.of == formats.requestText(s.cases)
            && p.body.requestBindings.of == BindingsOf(s.cases) && p.body.profile == profile
            && p.body.generation == h.generation
            && p.body.command == formats.swift(p.body.checkpointPath, h.generation, profile)
  {
  }

  /**
   A directory with the plan of these sources is ready to run exactly when it is, file by file, what prepare writes: the
   digests in the plan leave no other requests and no other manifest.
   */
  lemma ReadyIffPrepared(f: Files, s: Sources, formats: Formats, profile: Profile)
    requires s.Valid() && profile.Valid() && Preparable(s)
    requires HasPlan(f) && PlanIn(f).body == PlanBodyOf(s, formats, profile)
    ensures ReadyToRun(f, s.trees, formats) <==> f == PreparedFiles(s, formats, profile)
  {
    PreparedManifest(s.cases, formats, 0);
    if ReadyToRun(f, s.trees, formats) {
      var m := ManifestIn(f);
      assert m.bindings == BindingsOf(s.cases);
      assert m.caseIds == CaseIdList(s.cases);
      assert m == ManifestOf(s.cases, formats);
      assert f.manifest == Some(Document(m)) && f.plan == Some(Document(PlanIn(f)));
      assert PlanIn(f) == PlanOf(PlanIn(f).body);
    }
  }

  /** Whatever wrote it, a directory that is ready to run has the checkpoint its plan names and the command it needs. */
  lemma ReadyMeans(f: Files, trees: Id -> Option<Id>, formats: Formats)
    requires ReadyToRun(f, trees, formats)
    ensures var p := PlanIn(f).body;
            && trees(p.checkpointPath) == Some(p.tree)
            && p.command == formats.swift(p.checkpointPath, p.generation, p.profile)
            && |ManifestIn(f).bindings| == p.requestCount
            && f.requests.value == p.requests.of && ManifestIn(f).bindings == p.requestBindings.of
  {
  }

  /** A valid receipt accounts for every request and lists the failed ones in order. */
  lemma ReceiptMeaning(r: Receipt)
    requires r.Valid()
    ensures |r.body.failedIds| + r.body.predictionCount == r.body.requestCount >= 1
    ensures |r.body.failedIds| == r.body.failureCount
    ensures forall i, j :: 0 <= i < j < |r.body.failedIds| ==> r.body.failedIds[i] <= r.body.failedIds[j]
  {
  }
}
