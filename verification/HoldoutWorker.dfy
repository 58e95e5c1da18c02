/**
 The hold-out worker directory (cyber_megatron_holdout_worker.py): prepare writes a sealed plan and its
 requests, execute records one inference run, finalize normalises its results under a receipt, and verify
 recomputes all of it from the sources.

 A SHA-256 digest is a constructor around what it digests, so equal digests mean equal contents.
 */
module HoldoutWorker {
  import opened Ordering
  import opened HoldoutReplay

  type Bytes = Id

  datatype Sha<T> = Sha(of: T)

  // ----- the documents

  datatype Profile = Profile(nodes: nat, gpusPerNode: nat, tensorParallel: nat, pipelineParallel: nat, msSwift: Id,
                             vllm: Id)
  {
    function TotalGpus(): nat {
      nodes * gpusPerNode
    }

    predicate Valid() {
      && 2 <= nodes <= 64 && 1 <= gpusPerNode <= 16
      && tensorParallel == gpusPerNode
      && pipelineParallel == nodes
      && tensorParallel * pipelineParallel == TotalGpus()
    }
  }

  /** The source plan; `seal` stands for the fields that are only digested. */
  datatype HoldoutPlan = HoldoutPlan(runId: Id, candidate: Id, tree: Id, caseIds: seq<Id>, generation: Id, seal: Id)

  datatype Candidate = Candidate(sha: Id, tree: Id)

  datatype PlanBody = PlanBody(
    runId: Id, holdoutFile: Sha<Bytes>, holdoutPlan: Sha<HoldoutPlan>, candidate: Id, tree: Id, checkpointPath: Id,
    requestCount: nat, caseIds: Sha<seq<Id>>, requests: Sha<Bytes>, requestBindings: Sha<seq<Binding>>,
    profile: Profile, generation: Id, generationSha: Sha<Id>, command: Id, commandSha: Sha<Id>)

  datatype PlanSha = PlanSha(of: PlanBody)

  datatype SessionSha = SessionSha(of: PlanSha)

  datatype Plan = Plan(body: PlanBody, sha: PlanSha)
  {
    predicate Valid() {
      && body.requestCount > 0
      && body.profile.Valid()
      && body.generationSha == Sha(body.generation)
      && body.commandSha == Sha(body.command)
      && sha == PlanSha(body)
    }
  }

  datatype Manifest = Manifest(
    caseCount: nat, caseIds: seq<Id>, requests: Sha<Bytes>, bindings: seq<Binding>, bindingsSha: Sha<seq<Binding>>)
  {
    predicate Valid() {
      && caseCount > 0
      && StrictlyIncreasing(caseIds)
      && caseCount == |caseIds| == |bindings|
      && (forall i :: 0 <= i < |bindings| ==> bindings[i].caseId == caseIds[i])
      && bindingsSha == Sha(bindings)
    }
  }

  /** Package versions; absent and empty are the same to every check. */
  datatype Versions = Versions(msSwift: Option<Id>, vllm: Option<Id>, ray: Option<Id>, others: map<Id, Id>)

  datatype ExecutionBody = ExecutionBody(
    workerPlan: PlanSha, command: Sha<Id>, tree: Id, session: SessionSha, rayAddress: Sha<Id>,
    rayNodes: nat, rayGpus: nat, returnCode: nat, completed: bool, raw: Option<Sha<Bytes>>, versions: Versions)

  datatype ExecutionSha = ExecutionSha(of: ExecutionBody)

  datatype Execution = Execution(body: ExecutionBody, sha: ExecutionSha)
  {
    predicate Valid() {
      && body.rayNodes >= 1 && body.rayGpus >= 1 && body.returnCode <= 255
      && (body.completed ==> body.returnCode == 0 && body.raw.Some?)
      && (!body.completed ==> !(body.returnCode == 0 && body.raw.Some?))
      && sha == ExecutionSha(body)
    }
  }

  datatype ReceiptBody = ReceiptBody(
    workerPlan: PlanSha, execution: ExecutionSha, holdoutPlan: Sha<HoldoutPlan>, candidate: Id, tree: Id,
    requestCount: nat, predictionCount: nat, failureCount: nat, failedIds: seq<Id>,
    raw: Sha<Bytes>, predictions: Sha<Bytes>, failures: Sha<Bytes>, versions: Versions)

  datatype ReceiptSha = ReceiptSha(of: ReceiptBody)

  datatype Receipt = Receipt(body: ReceiptBody, sha: ReceiptSha)
  {
    predicate Valid() {
      && body.requestCount > 0
      && body.predictionCount + body.failureCount == body.requestCount
      && (forall i, j :: 0 <= i < j < |body.failedIds| ==> body.failedIds[i] <= body.failedIds[j])
      && |body.failedIds| == body.failureCount
      && sha == ReceiptSha(body)
    }
  }

  /** A stored JSON file: the canonical text of a document, or anything else. */
  datatype File<T> = Document(value: T) | Other(bytes: Bytes)

  datatype Files = Files(
    plan: Option<File<Plan>>, requests: Option<Bytes>, manifest: Option<File<Manifest>>, raw: Option<Bytes>,
    execution: Option<File<Execution>>, predictions: Option<Bytes>, failures: Option<Bytes>,
    receipt: Option<File<Receipt>>, strays: set<Id>)

  /** `_load_canonical_model`: the document, if the file is its canonical text and its validators accept it. */
  predicate HasPlan(f: Files) {
    f.plan.Some? && f.plan.value.Document? && f.plan.value.value.Valid()
  }

  function PlanIn(f: Files): Plan
    requires HasPlan(f)
  {
    f.plan.value.value
  }

  predicate HasManifest(f: Files) {
    f.manifest.Some? && f.manifest.value.Document? && f.manifest.value.value.Valid()
  }

  function ManifestIn(f: Files): Manifest
    requires HasManifest(f)
  {
    f.manifest.value.value
  }

  predicate HasExecution(f: Files) {
    f.execution.Some? && f.execution.value.Document? && f.execution.value.value.Valid()
  }

  function ExecutionIn(f: Files): Execution
    requires HasExecution(f)
  {
    f.execution.value.value
  }

  predicate HasReceipt(f: Files) {
    f.receipt.Some? && f.receipt.value.Document? && f.receipt.value.value.Valid()
  }

  function ReceiptIn(f: Files): Receipt
    requires HasReceipt(f)
  {
    f.receipt.value.value
  }

  // ----- what lies outside the directory

  /** The text formats, the inference command and the response parser. */
  datatype Formats = Formats(
    requestText: seq<Case> -> Bytes, predictionText: seq<Prediction> -> Bytes, failureText: seq<Failure> -> Bytes,
    decode: Bytes -> Option<seq<Line>>, swift: (Id, Id, Profile) -> Id, parser: Id -> Parser)

  /**
   The sources: the freshly verified source plan (none if it does not verify) and its file, the candidate,
   the checkpoint and the tree digest found at each path, and the inference cases.
   */
  datatype Sources = Sources(
    holdout: Option<HoldoutPlan>, holdoutFile: Bytes, candidate: Candidate, checkpointPath: Id,
    trees: Id -> Option<Id>, cases: seq<Case>)
  {
    /** Loading the cases sorts them by their distinct ids; a fresh plan is rebuilt from them. */
    ghost predicate Valid() {
      && cases != [] && SortedCases(cases)
      && (holdout.Some? ==> holdout.value.caseIds == CaseIdList(cases))
    }
  }

  function CaseIdList(cases: seq<Case>): seq<Id> {
    seq(|cases|, k requires 0 <= k < |cases| => cases[k].id)
  }

  // ----- prepare

  function ManifestOf(cases: seq<Case>, formats: Formats): Manifest {
    Manifest(|cases|, CaseIdList(cases), Sha(formats.requestText(cases)), BindingsOf(cases), Sha(BindingsOf(cases)))
  }

  function PlanBodyOf(s: Sources, formats: Formats, profile: Profile): PlanBody
    requires s.holdout.Some?
  {
    var h := s.holdout.value;
    var command := formats.swift(s.checkpointPath, h.generation, profile);
    PlanBody(h.runId, Sha(s.holdoutFile), Sha(h), s.candidate.sha, s.candidate.tree, s.checkpointPath,
             |s.cases|, Sha(h.caseIds), Sha(formats.requestText(s.cases)), Sha(BindingsOf(s.cases)),
             profile, h.generation, Sha(h.generation), command, Sha(command))
  }

  function PlanOf(body: PlanBody): Plan {
    Plan(body, PlanSha(body))
  }

  const EMPTY := Files(None, None, None, None, None, None, None, None, {})

  function PreparedFiles(s: Sources, formats: Formats, profile: Profile): Files
    requires s.holdout.Some?
  {
    EMPTY.(plan := Some(Document(PlanOf(PlanBodyOf(s, formats, profile)))),
           requests := Some(formats.requestText(s.cases)),
           manifest := Some(Document(ManifestOf(s.cases, formats))))
  }

  predicate Preparable(s: Sources) {
    && s.holdout.Some?
    && s.candidate.sha == s.holdout.value.candidate
    && s.candidate.tree == s.holdout.value.tree
    && s.trees(s.checkpointPath) == Some(s.candidate.tree)
  }

  // ----- execute

  /** What the operator, the installed packages, the cluster and the inference process contribute. */
  datatype Launch = Launch(
    approved: bool, session: PlanSha, rayAddress: Option<Id>, executables: bool,
    msSwift: Option<Id>, vllm: Option<Id>, ray: Option<Id>, capacity: Option<(nat, nat)>,
    exitCode: int, output: Option<Bytes>)

  /** The directory holds exactly the three prepared files. */
  predicate OnlyPrepared(f: Files) {
    && f.plan.Some? && f.requests.Some? && f.manifest.Some?
    && f.raw.None? && f.execution.None? && f.predictions.None? && f.failures.None? && f.receipt.None?
    && f.strays == {}
  }

  /** `_verify_preexecution`. */
  predicate ReadyToRun(f: Files, trees: Id -> Option<Id>, formats: Formats) {
    && OnlyPrepared(f) && HasPlan(f) && HasManifest(f)
    && var p := PlanIn(f).body; var m := ManifestIn(f);
    && Sha(f.requests.value) == p.requests
    && m.requests == p.requests
    && m.bindingsSha == p.requestBindings
    && m.caseCount == p.requestCount
    && trees(p.checkpointPath) == Some(p.tree)
    && p.command == formats.swift(p.checkpointPath, p.generation, p.profile)
  }

  /** The approvals and the environment that let the paid process start. */
  predicate Cleared(plan: Plan, launch: Launch) {
    && launch.approved
    && launch.session == plan.sha
    && launch.rayAddress.Some?
    && launch.executables
    && launch.msSwift == Some(plan.body.profile.msSwift)
    && launch.vllm == Some(plan.body.profile.vllm)
    && launch.ray.Some?
    && launch.capacity == Some((plan.body.profile.nodes, plan.body.profile.TotalGpus()))
  }

  function ExecutionOf(plan: Plan, launch: Launch): Execution
    requires Cleared(plan, launch) && 0 <= launch.exitCode
  {
    var raw := if launch.output.Some? then Some(Sha(launch.output.value)) else None;
    var body := ExecutionBody(
      plan.sha, plan.body.commandSha, plan.body.tree, SessionSha(launch.session), Sha(launch.rayAddress.value),
      launch.capacity.value.0, launch.capacity.value.1, launch.exitCode, launch.exitCode == 0 && raw.Some?, raw,
      Versions(launch.msSwift, launch.vllm, launch.ray, map[]));
    Execution(body, ExecutionSha(body))
  }

  // ----- finalize

  predicate ExecutionMatches(p: Plan, e: ExecutionBody) {
    && e.workerPlan == p.sha
    && e.command == p.body.commandSha
    && e.tree == p.body.tree
    && e.rayNodes == p.body.profile.nodes
    && e.rayGpus == p.body.profile.TotalGpus()
    && e.versions.msSwift == Some(p.body.profile.msSwift)
    && e.versions.vllm == Some(p.body.profile.vllm)
    && e.versions.ray.Some?
  }

  /** Every check finalize makes before it writes anything, except that the outputs are still absent. */
  ghost predicate Finalizable(f: Files, cases: seq<Case>, formats: Formats) {
    && HasPlan(f) && HasManifest(f) && HasExecution(f)
    && var p := PlanIn(f); var m := ManifestIn(f); var e := ExecutionIn(f).body;
    && e.completed
    && ExecutionMatches(p, e)
    && f.requests.Some? && Sha(f.requests.value) == p.body.requests == m.requests
    && m.bindingsSha == p.body.requestBindings
    && CaseIdList(cases) == m.caseIds
    && f.raw.Some? && e.raw == Some(Sha(f.raw.value))
    && formats.decode(f.raw.value).Some?
    && AllPlanned(m.bindings, formats.decode(f.raw.value).value)
  }

  predicate OutputsAbsent(f: Files) {
    f.predictions.None? && f.failures.None? && f.receipt.None?
  }

  /** The replay of the recorded results. */
  ghost function ReplayIn(f: Files, cases: seq<Case>, formats: Formats): Replay
    requires HasPlan(f) && HasManifest(f) && f.raw.Some? && formats.decode(f.raw.value).Some?
  {
    ReplayOf(cases, ManifestIn(f).bindings, formats.decode(f.raw.value).value, formats.parser(PlanIn(f).body.tree))
  }

  function ReceiptOf(p: Plan, e: Execution, raw: Bytes, replay: Replay, formats: Formats): Receipt {
    var body := ReceiptBody(
      p.sha, e.sha, p.body.holdoutPlan, p.body.candidate, p.body.tree, p.body.requestCount,
      |replay.predictions|, |replay.failures|, FailureIds(replay.failures), Sha(raw),
      Sha(formats.predictionText(replay.predictions)), Sha(formats.failureText(replay.failures)), e.body.versions);
    Receipt(body, ReceiptSha(body))
  }

  ghost function FinalizedFiles(f: Files, cases: seq<Case>, formats: Formats): Files
    requires Finalizable(f, cases, formats)
  {
    var replay := ReplayIn(f, cases, formats);
    f.(predictions := Some(formats.predictionText(replay.predictions)),
       failures := Some(formats.failureText(replay.failures)),
       receipt := Some(Document(ReceiptOf(PlanIn(f), ExecutionIn(f), f.raw.value, replay, formats))))
  }

  // ----- verify

  /** The directory holds exactly the eight sealed files. */
  predicate Complete(f: Files) {
    && f.plan.Some? && f.requests.Some? && f.manifest.Some? && f.raw.Some? && f.execution.Some?
    && f.predictions.Some? && f.failures.Some? && f.receipt.Some? && f.strays == {}
  }

  predicate SourcePlanOk(f: Files, s: Sources) {
    Complete(f) && s.holdout.Some?
  }

  predicate WorkerPlanOk(f: Files, s: Sources, formats: Formats) {
    && SourcePlanOk(f, s) && HasPlan(f)
    && var p := PlanIn(f).body; var h := s.holdout.value;
    && p.holdoutPlan == Sha(h)
    && p.candidate == h.candidate
    && p.tree == h.tree
    && p.requestCount == |h.caseIds|
    && p.caseIds == Sha(h.caseIds)
    && p.generation == h.generation
    && p.command == formats.swift(p.checkpointPath, p.generation, p.profile)
    && s.trees(p.checkpointPath) == Some(p.tree)
  }

  ghost predicate RequestsOk(f: Files, s: Sources, formats: Formats) {
    && WorkerPlanOk(f, s, formats) && HasManifest(f)
    && f.requests.value == formats.requestText(s.cases)
    && ManifestIn(f) == ManifestOf(s.cases, formats)
    && Sha(f.requests.value) == PlanIn(f).body.requests
  }

  ghost predicate ExecutionOk(f: Files, s: Sources, formats: Formats) {
    && RequestsOk(f, s, formats) && HasExecution(f)
    && var e := ExecutionIn(f).body;
    && ExecutionMatches(PlanIn(f), e) && e.completed && e.returnCode == 0
    && e.raw == Some(Sha(f.raw.value))
  }

  ghost predicate ReplayOk(f: Files, s: Sources, formats: Formats) {
    && ExecutionOk(f, s, formats)
    && formats.decode(f.raw.value).Some?
    && AllPlanned(ManifestIn(f).bindings, formats.decode(f.raw.value).value)
    && f.predictions.value == formats.predictionText(ReplayIn(f, s.cases, formats).predictions)
    && f.failures.value == formats.failureText(ReplayIn(f, s.cases, formats).failures)
  }

  ghost predicate ReceiptOk(f: Files, s: Sources, formats: Formats) {
    && ReplayOk(f, s, formats) && HasReceipt(f)
    && var r, p, e := ReceiptIn(f).body, PlanIn(f), ExecutionIn(f);
    var replay := ReplayIn(f, s.cases, formats);
    && r.workerPlan == p.sha && r.execution == e.sha && r.holdoutPlan == Sha(s.holdout.value)
    && r.candidate == p.body.candidate && r.tree == p.body.tree && r.requestCount == p.body.requestCount
    && r.predictionCount == |replay.predictions| && r.failureCount == |replay.failures|
    && r.failedIds == FailureIds(replay.failures)
    && r.raw == Sha(f.raw.value) && r.predictions == Sha(f.predictions.value) && r.failures == Sha(f.failures.value)
    && r.versions == e.body.versions
  }

  ghost predicate AccountingOk(f: Files, s: Sources, formats: Formats) {
    && ReceiptOk(f, s, formats)
    && var replay := ReplayIn(f, s.cases, formats);
    && Elements(PredictionIds(replay.predictions)) * Elements(FailureIds(replay.failures)) == {}
    && Elements(PredictionIds(replay.predictions)) + Elements(FailureIds(replay.failures))
       == Elements(s.holdout.value.caseIds)
  }

  datatype Verification = Verification(
    valid: bool, requestCount: nat, predictionCount: nat, failureCount: nat,
    sourcePlan: bool, workerPlan: bool, requestBinding: bool, execution: bool, rawReplayed: bool, receipt: bool,
    completeAccounting: bool)

  const UNVERIFIED := Verification(false, 0, 0, 0, false, false, false, false, false, false, false)

  datatype WorkerError =
    | OUTPUT_EXISTS | SOURCE_REFUSED | DIRECTORY_REFUSED | NOT_CLEARED | BAD_EXIT_CODE
    | NOT_FINALIZABLE | RECEIPT_REFUSED
}
