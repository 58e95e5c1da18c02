/** Sealing a collection batch (cyber_collection_batch.py). */
module CollectionBatch {
  import opened Ordering
  import opened CorpusCatalog

  /** `content` is the digest of the row's text, which loading has checked. */
  datatype Row = Row(artifactId: Id, content: Id)

  /** One collection input: its artifact manifest and its corpus, or None where loading the file fails. */
  datatype Input = Input(sourceId: Id, manifest: Option<seq<Artifact>>, corpus: Option<seq<Row>>)

  datatype Violation =
    | UnknownSource(sourceId: Id) | UnauthorizedSource(sourceId: Id)
    | SourceMismatch(artifactId: Id, sourceId: Id) | RevisionMismatch(artifactId: Id)
    | NoManifestArtifact(artifactId: Id) | UnauthorizedInCorpus(artifactId: Id) | HashMismatch(artifactId: Id)
    | DuplicateAcrossInputs(artifactId: Id) | MissingFromCorpus(artifactId: Id)
    | FromAudit(violation: AuditViolation) | DuplicateContent(digest: Id)

  /** The two written files and the seal's counts. */
  datatype Seal = Seal(
    ready: bool, sources: nat, artifacts: nat, trainingArtifacts: nat, rejectedArtifacts: int,
    manifest: seq<Artifact>, corpus: seq<Row>, sourceIds: set<Id>, violations: set<Violation>)

  datatype SealError = UNREADABLE(sourceId: Id)

  /** What loading guarantees of a manifest and of a corpus. */
  ghost predicate WellLoaded(input: Input) {
    && (input.manifest.Some? ==> input.manifest.value != [] && forall a :: a in input.manifest.value ==> a.Valid())
    && (input.corpus.Some? ==> DistinctRows(input.corpus.value))
  }

  ghost predicate DistinctRows(rows: seq<Row>) {
    forall i, j :: 0 <= i < j < |rows| ==> rows[i].artifactId != rows[j].artifactId
  }

  predicate Processed(input: Input, catalog: seq<Source>) {
    SourceOf(catalog, input.sourceId).Some? && SourceOf(catalog, input.sourceId).value.authorized
  }

  predicate Readable(input: Input) {
    input.manifest.Some? && input.corpus.Some?
  }

  /** `manifest_by_id.get(id)`: a repeated identifier keeps its last artifact. */
  function ManifestArtifact(artifacts: seq<Artifact>, id: Id): Option<Artifact> {
    if artifacts == [] then None else
    var last := artifacts[|artifacts| - 1];
    if last.id == id then Some(last) else ManifestArtifact(artifacts[..|artifacts| - 1], id)
  }

  function AuthorizedIds(artifacts: seq<Artifact>): set<Id> {
    set a | a in artifacts && a.authorized :: a.id
  }

  function RowIds(rows: seq<Row>): set<Id> {
    set r | r in rows :: r.artifactId
  }

  // ----- what is reported

  predicate ArtifactViolated(v: Violation, a: Artifact, sourceId: Id, revision: Option<Id>) {
    || (a.sourceId != sourceId && v == SourceMismatch(a.id, sourceId))
    || (Some(a.revision) != revision && v == RevisionMismatch(a.id))
  }

  predicate RowViolated(v: Violation, r: Row, artifacts: seq<Artifact>, earlier: set<Id>) {
    var found := ManifestArtifact(artifacts, r.artifactId);
    if found.None? then v == NoManifestArtifact(r.artifactId)
    else
      || (!found.value.authorized && v == UnauthorizedInCorpus(r.artifactId))
      || (found.value.content != r.content && v == HashMismatch(r.artifactId))
      || (r.artifactId in earlier && v == DuplicateAcrossInputs(r.artifactId))
  }

  ghost predicate SomeArtifactViolated(v: Violation, artifacts: seq<Artifact>, sourceId: Id, revision: Option<Id>) {
    exists a :: a in artifacts && ArtifactViolated(v, a, sourceId, revision)
  }

  ghost predicate SomeRowViolated(v: Violation, rows: seq<Row>, artifacts: seq<Artifact>, earlier: set<Id>) {
    exists r :: r in rows && RowViolated(v, r, artifacts, earlier)
  }

  /** What one input is reported for, given the artifact identifiers earlier inputs have put in the corpus. */
  ghost predicate InputViolated(v: Violation, input: Input, catalog: seq<Source>, earlier: set<Id>) {
    var source := SourceOf(catalog, input.sourceId);
    if source.None? then v == UnknownSource(input.sourceId)
    else if !source.value.authorized then v == UnauthorizedSource(input.sourceId)
    else
      && Readable(input)
      && (|| SomeArtifactViolated(v, input.manifest.value, input.sourceId, source.value.revision)
          || SomeRowViolated(v, input.corpus.value, input.manifest.value, earlier)
          || (v.MissingFromCorpus? && v.artifactId in AuthorizedIds(input.manifest.value) - RowIds(input.corpus.value)))
  }

  /** The rows of one corpus that have a manifest artifact, by artifact identifier. */
  function RowMap(rows: seq<Row>, artifacts: seq<Artifact>): map<Id, Row> {
    if rows == [] then map[] else
    var last := rows[|rows| - 1];
    var init := RowMap(rows[..|rows| - 1], artifacts);
    if ManifestArtifact(artifacts, last.artifactId).None? then init else init[last.artifactId := last]
  }

  /** `corpus_rows` after some inputs. */
  function CorpusOf(inputs: seq<Input>, catalog: seq<Source>): map<Id, Row> {
    if inputs == [] then map[] else
    var last := inputs[|inputs| - 1];
    var init := CorpusOf(inputs[..|inputs| - 1], catalog);
    if Processed(last, catalog) && Readable(last) then init + RowMap(last.corpus.value, last.manifest.value) else init
  }

  /** `all_artifacts` after some inputs. */
  function ArtifactsOf(inputs: seq<Input>, catalog: seq<Source>): seq<Artifact> {
    if inputs == [] then [] else
    var last := inputs[|inputs| - 1];
    var init := ArtifactsOf(inputs[..|inputs| - 1], catalog);
    if Processed(last, catalog) && Readable(last) then init + last.manifest.value else init
  }

  ghost predicate ViolatedAt(v: Violation, inputs: seq<Input>, catalog: seq<Source>, i: nat)
    requires i < |inputs|
  {
    InputViolated(v, inputs[i], catalog, CorpusOf(inputs[..i], catalog).Keys)
  }

  ghost predicate InputsViolated(v: Violation, inputs: seq<Input>, catalog: seq<Source>) {
    exists i: nat :: i < |inputs| && ViolatedAt(v, inputs, catalog, i)
  }

  ghost predicate AuditPart(v: Violation, artifacts: seq<Artifact>, catalog: seq<Source>) {
    || (v.FromAudit? && AuditViolated(v.violation, artifacts, catalog))
    || (v.DuplicateContent? && v.digest in Duplicates(artifacts))
  }

  /** What a seal reports. */
  ghost predicate Violated(v: Violation, inputs: seq<Input>, catalog: seq<Source>) {
    InputsViolated(v, inputs, catalog) || AuditPart(v, ArtifactsOf(inputs, catalog), catalog)
  }

  ghost predicate AllReadable(inputs: seq<Input>, catalog: seq<Source>) {
    forall i :: 0 <= i < |inputs| && Processed(inputs[i], catalog) ==> Readable(inputs[i])
  }

  // ----- the loops

  method CheckArtifacts(artifacts: seq<Artifact>, sourceId: Id, revision: Option<Id>) returns (found: set<Violation>)
    ensures forall v :: v in found <==> SomeArtifactViolated(v, artifacts, sourceId, revision)
  {
    found := {};
    var i := 0;
    while i < |artifacts|
      invariant 0 <= i <= |artifacts|
      invariant forall v :: v in found <==> SomeArtifactViolated(v, artifacts[..i], sourceId, revision)
    {
      var a := artifacts[i];
      assert artifacts[..i + 1] == artifacts[..i] + [a];
      ghost var before := found;
      if a.sourceId != sourceId {
        found := found + {SourceMismatch(a.id, sourceId)};
      }
      if Some(a.revision) != revision {
        found := found + {RevisionMismatch(a.id)};
      }
      forall v ensures v in found <==> SomeArtifactViolated(v, artifacts[..i + 1], sourceId, revision) {
        assert v in found <==> v in before || ArtifactViolated(v, a, sourceId, revision);
        ArtifactsStep(v, artifacts, i, sourceId, revision);
      }
      i := i + 1;
    }
    assert artifacts[..i] == artifacts;
  }

  lemma ArtifactsStep(v: Violation, artifacts: seq<Artifact>, i: nat, sourceId: Id, revision: Option<Id>)
    requires i < |artifacts|
    ensures SomeArtifactViolated(v, artifacts[..i + 1], sourceId, revision)
            <==> SomeArtifactViolated(v, artifacts[..i], sourceId, revision)
                 || ArtifactViolated(v, artifacts[i], sourceId, revision)
  {
    hide ArtifactViolated;
    assert artifacts[..i + 1] == artifacts[..i] + [artifacts[i]];
    assert artifacts[i] in artifacts[..i + 1];
    if a :| a in artifacts[..i] && ArtifactViolated(v, a, sourceId, revision) {
      assert a in artifacts[..i + 1];
    }
  }

  lemma RowsStep(v: Violation, rows: seq<Row>, i: nat, artifacts: seq<Artifact>, earlier: set<Id>)
    requires i < |rows|
    ensures SomeRowViolated(v, rows[..i + 1], artifacts, earlier)
            <==> SomeRowViolated(v, rows[..i], artifacts, earlier) || RowViolated(v, rows[i], artifacts, earlier)
  {
    hide RowViolated;
    assert rows[..i + 1] == rows[..i] + [rows[i]];
    assert rows[i] in rows[..i + 1];
    if r :| r in rows[..i] && RowViolated(v, r, artifacts, earlier) {
      assert r in rows[..i + 1];
    }
  }

  lemma {:induction false} RowMapMeaning(rows: seq<Row>, artifacts: seq<Artifact>)
    ensures forall id :: id in RowMap(rows, artifacts) ==>
              RowMap(rows, artifacts)[id] in rows && RowMap(rows, artifacts)[id].artifactId == id
              && ManifestArtifact(artifacts, id).Some?
    ensures forall r ::
              r in rows && ManifestArtifact(artifacts, r.artifactId).Some? ==> r.artifactId in RowMap(rows, artifacts)
  {
    if rows != [] {
      var init, last := rows[..|rows| - 1], rows[|rows| - 1];
      assert rows == init + [last];
      RowMapMeaning(init, artifacts);
    }
  }

  lemma LaterRowIsNew(rows: seq<Row>, artifacts: seq<Artifact>, i: nat)
    requires DistinctRows(rows) && i < |rows|
    ensures rows[i].artifactId !in RowMap(rows[..i], artifacts)
  {
    RowMapMeaning(rows[..i], artifacts);
    hide RowMap, ManifestArtifact;
    forall r | r in rows[..i] ensures r.artifactId != rows[i].artifactId {
      var k :| 0 <= k < i && rows[..i][k] == r;
      assert rows[k].artifactId != rows[i].artifactId;
    }
  }

  lemma RowMapStep(rows: seq<Row>, artifacts: seq<Artifact>, i: nat)
    requires i < |rows|
    ensures RowMap(rows[..i + 1], artifacts) ==
            if ManifestArtifact(artifacts, rows[i].artifactId).None? then RowMap(rows[..i], artifacts)
            else RowMap(rows[..i], artifacts)[rows[i].artifactId := rows[i]]
  {
    assert rows[..i + 1][..i] == rows[..i];
  }

  /** The checks on one row. */
  method CheckRow(r: Row, artifacts: seq<Artifact>, corpus0: map<Id, Row>)
    returns (found: set<Violation>, corpus: map<Id, Row>)
    ensures forall v :: v in found <==> RowViolated(v, r, artifacts, corpus0.Keys)
    ensures corpus == if ManifestArtifact(artifacts, r.artifactId).None? then corpus0 else corpus0[r.artifactId := r]
  {
    found, corpus := {}, corpus0;
    var artifact := ManifestArtifact(artifacts, r.artifactId);
    if artifact.None? {
      return {NoManifestArtifact(r.artifactId)}, corpus0;
    }
    if !artifact.value.authorized {
      found := found + {UnauthorizedInCorpus(r.artifactId)};
    }
    if artifact.value.content != r.content {
      found := found + {HashMismatch(r.artifactId)};
    }
    if r.artifactId in corpus {
      found := found + {DuplicateAcrossInputs(r.artifactId)};
    }
    corpus := corpus[r.artifactId := r];
  }

  /** A row sees the identifiers of earlier inputs only, since those of its own corpus differ from its own. */
  lemma RowSeesEarlier(v: Violation, rows: seq<Row>, artifacts: seq<Artifact>, earlier: map<Id, Row>, i: nat)
    requires DistinctRows(rows) && i < |rows|
    ensures RowViolated(v, rows[i], artifacts, (earlier + RowMap(rows[..i], artifacts)).Keys)
            <==> RowViolated(v, rows[i], artifacts, earlier.Keys)
  {
    LaterRowIsNew(rows, artifacts, i);
  }

  method CheckRows(rows: seq<Row>, artifacts: seq<Artifact>, earlier: map<Id, Row>)
    returns (found: set<Violation>, corpus: map<Id, Row>)
    requires DistinctRows(rows)
    ensures forall v :: v in found <==> SomeRowViolated(v, rows, artifacts, earlier.Keys)
    ensures corpus == earlier + RowMap(rows, artifacts)
  {
    found, corpus := {}, earlier;
    hide RowViolated, ManifestArtifact, DistinctRows, RowMap;
    NoRows(artifacts);
    assert rows[..0] == [];
    var i := 0;
    while i < |rows|
      invariant 0 <= i <= |rows|
      invariant forall v :: v in found <==> SomeRowViolated(v, rows[..i], artifacts, earlier.Keys)
      invariant corpus == earlier + RowMap(rows[..i], artifacts)
    {
      ghost var before := found;
      var news: set<Violation>;
      news, corpus := CheckRow(rows[i], artifacts, corpus);
      found := found + news;
      RowMapStep(rows, artifacts, i);
      forall v ensures v in found <==> SomeRowViolated(v, rows[..i + 1], artifacts, earlier.Keys) {
        RowSeesEarlier(v, rows, artifacts, earlier, i);
        RowsStep(v, rows, i, artifacts, earlier.Keys);
        assert v in found <==> v in before || v in news;
      }
      i := i + 1;
    }
    assert rows[..i] == rows;
  }

  lemma NoRows(artifacts: seq<Artifact>)
    ensures RowMap([], artifacts) == map[]
  {
  }

  /** The body of the loop over inputs, for a readable one. */
  method CheckInput(input: Input, catalog: seq<Source>, corpus0: map<Id, Row>, artifacts0: seq<Artifact>)
    returns (found: set<Violation>, corpus: map<Id, Row>, artifacts: seq<Artifact>)
    requires WellLoaded(input) && (Processed(input, catalog) ==> Readable(input))
    ensures forall v :: v in found <==> InputViolated(v, input, catalog, corpus0.Keys)
    ensures corpus ==
              if Processed(input, catalog) then corpus0 + RowMap(input.corpus.value, input.manifest.value)
              else corpus0
    ensures artifacts == if Processed(input, catalog) then artifacts0 + input.manifest.value else artifacts0
  {
    hide RowMap, SourceOf, SomeArtifactViolated, SomeRowViolated, RowIds, AuthorizedIds;
    found, corpus, artifacts := {}, corpus0, artifacts0;
    var source := SourceOf(catalog, input.sourceId);
    if source.None? {
      return {UnknownSource(input.sourceId)}, corpus0, artifacts0;
    }
    if !source.value.authorized {
      return {UnauthorizedSource(input.sourceId)}, corpus0, artifacts0;
    }
    found := CheckArtifacts(input.manifest.value, input.sourceId, source.value.revision);
    artifacts := artifacts + input.manifest.value;
    var news: set<Violation>;
    news, corpus := CheckRows(input.corpus.value, input.manifest.value, corpus);
    var missing := AuthorizedIds(input.manifest.value) - RowIds(input.corpus.value);
    found := found + news + (set id | id in missing :: MissingFromCorpus(id));
  }

  /** The loop over the inputs; it ends early at one whose files cannot be loaded. */
  method CheckInputs(inputs: seq<Input>, catalog: seq<Source>)
    returns (unreadable: Option<Id>, violations: set<Violation>, corpus: map<Id, Row>, artifacts: seq<Artifact>)
    requires forall i :: 0 <= i < |inputs| ==> WellLoaded(inputs[i])
    ensures unreadable.None? <==> AllReadable(inputs, catalog)
    ensures unreadable.None? ==>
              && (forall v :: v in violations <==> InputsViolated(v, inputs, catalog))
              && corpus == CorpusOf(inputs, catalog) && artifacts == ArtifactsOf(inputs, catalog)
  {
    hide Processed, Readable, InputViolated, CorpusOf, ArtifactsOf, WellLoaded, InputsViolated, ViolatedAt;
    unreadable, violations, corpus, artifacts := None, {}, map[], [];
    NothingYet(catalog);
    assert inputs[..0] == [];
    var i := 0;
    while i < |inputs|
      invariant 0 <= i <= |inputs|
      invariant forall k :: 0 <= k < i && Processed(inputs[k], catalog) ==> Readable(inputs[k])
      invariant forall v :: v in violations <==> InputsViolated(v, inputs[..i], catalog)
      invariant corpus == CorpusOf(inputs[..i], catalog) && artifacts == ArtifactsOf(inputs[..i], catalog)
    {
      var input := inputs[i];
      if Processed(input, catalog) && !Readable(input) {
        unreadable := Some(input.sourceId);
        return;
      }
      InputStep(inputs, i, catalog);
      ghost var before := violations;
      var found: set<Violation>;
      found, corpus, artifacts := CheckInput(input, catalog, corpus, artifacts);
      violations := violations + found;
      forall v ensures v in violations <==> InputsViolated(v, inputs[..i + 1], catalog) {
        ViolationsStep(v, inputs, i, catalog);
        ViolatedAtMeans(v, inputs, i, catalog);
        assert v in violations <==> v in before || v in found;
      }
      i := i + 1;
    }
    assert inputs[..i] == inputs;
  }

  lemma ViolatedAtMeans(v: Violation, inputs: seq<Input>, i: nat, catalog: seq<Source>)
    requires i < |inputs|
    ensures ViolatedAt(v, inputs, catalog, i)
            <==> InputViolated(v, inputs[i], catalog, CorpusOf(inputs[..i], catalog).Keys)
  {
  }

  /** The part of the report that comes from auditing all artifacts together. */
  method AuditBatch(artifacts: seq<Artifact>, catalog: seq<Source>) returns (found: set<Violation>)
    ensures forall v :: v in found <==> AuditPart(v, artifacts, catalog)
  {
    hide AuditViolated, Duplicates;
    found := {};
    if artifacts == [] {
      EmptyAudit(catalog);
      return;
    }
    var audit := AuditArtifacts(artifacts, catalog);
    ReadyAuditIsSilent(artifacts, catalog, audit);
    if !audit.ready {
      found := (set v | v in audit.violations :: FromAudit(v)) + (set d | d in audit.duplicates :: DuplicateContent(d));
    }
  }

  /** `seal_collection_batch`. */
  method SealCollectionBatch(inputs: seq<Input>, catalog: seq<Source>) returns (result: Result<Seal, SealError>)
    requires forall i :: 0 <= i < |inputs| ==> WellLoaded(inputs[i])
    ensures result.Ok? <==> AllReadable(inputs, catalog)
    ensures result.Ok? ==>
              var s := result.value;
              var artifacts, corpus := ArtifactsOf(inputs, catalog), CorpusOf(inputs, catalog);
              var allowed := AuthorizedIds(artifacts);
              && (forall v :: v in s.violations <==> Violated(v, inputs, catalog))
              && s.manifest == Sort(artifacts, ArtifactOrder)
              && s.corpus == Selected(corpus, allowed)
              && s.ready == (s.violations == {} && |s.corpus| == |allowed| && allowed != {})
              && s.sources == |inputs| && s.artifacts == |artifacts| && s.trainingArtifacts == |s.corpus|
              && s.rejectedArtifacts == |artifacts| - |allowed|
              && s.sourceIds == (set input | input in inputs :: input.sourceId)
  {
    hide WellLoaded, AllReadable, InputsViolated, CorpusOf, ArtifactsOf, AuditPart, AuthorizedIds, Selected, Sort;
    var unreadable, violations, corpus, artifacts := CheckInputs(inputs, catalog);
    if unreadable.Some? {
      return Err(UNREADABLE(unreadable.value));
    }
    var fromAudit := AuditBatch(artifacts, catalog);
    var reported := violations + fromAudit;
    var allowed := AuthorizedIds(artifacts);
    var selected := Selected(corpus, allowed);
    result := Ok(Seal(reported == {} && |selected| == |allowed| && allowed != {}, |inputs|, |artifacts|, |selected|,
                      |artifacts| - |allowed|, Sort(artifacts, ArtifactOrder), selected,
                      set input | input in inputs :: input.sourceId, reported));
  }

  predicate ArtifactOrder(a: Artifact, b: Artifact) {
    a.id <= b.id
  }

  /** `[corpus_rows[key] for key in sorted(corpus_rows) if key in allowed]`. */
  function Selected(corpus: map<Id, Row>, allowed: set<Id>): (rows: seq<Row>)
    ensures |rows| == |corpus.Keys * allowed|
  {
    var keys := SortedIds(corpus.Keys * allowed);
    seq(|keys|, i requires 0 <= i < |keys| => corpus[keys[i]])
  }

  lemma NothingYet(catalog: seq<Source>)
    ensures CorpusOf([], catalog) == map[] && ArtifactsOf([], catalog) == []
    ensures forall v :: !InputsViolated(v, [], catalog)
  {
  }

  lemma InputStep(inputs: seq<Input>, i: nat, catalog: seq<Source>)
    requires i < |inputs| && (Processed(inputs[i], catalog) ==> Readable(inputs[i]))
    ensures var last := inputs[i];
            && CorpusOf(inputs[..i + 1], catalog) ==
               (if Processed(last, catalog)
                then CorpusOf(inputs[..i], catalog) + RowMap(last.corpus.value, last.manifest.value)
                else CorpusOf(inputs[..i], catalog))
            && ArtifactsOf(inputs[..i + 1], catalog) ==
               (if Processed(last, catalog) then ArtifactsOf(inputs[..i], catalog) + last.manifest.value
                else ArtifactsOf(inputs[..i], catalog))
  {
    assert inputs[..i + 1][..i] == inputs[..i];
  }

  lemma ViolationsStep(v: Violation, inputs: seq<Input>, i: nat, catalog: seq<Source>)
    requires i < |inputs|
    ensures InputsViolated(v, inputs[..i + 1], catalog)
            <==> InputsViolated(v, inputs[..i], catalog) || ViolatedAt(v, inputs, catalog, i)
  {
    hide InputViolated, CorpusOf;
    forall k: nat | k < i + 1
      ensures ViolatedAt(v, inputs[..i + 1], catalog, k) <==> ViolatedAt(v, inputs, catalog, k)
    {
      assert inputs[..i + 1][..k] == inputs[..k];
    }
    forall k: nat | k < i ensures ViolatedAt(v, inputs[..i], catalog, k) <==> ViolatedAt(v, inputs, catalog, k) {
      assert inputs[..i][..k] == inputs[..k];
    }
    if InputsViolated(v, inputs[..i], catalog) {
      var k: nat :| k < |inputs[..i]| && ViolatedAt(v, inputs[..i], catalog, k);
      assert ViolatedAt(v, inputs[..i + 1], catalog, k);
    }
    if InputsViolated(v, inputs[..i + 1], catalog) {
      var k: nat :| k < |inputs[..i + 1]| && ViolatedAt(v, inputs[..i + 1], catalog, k);
      assert k < i ==> ViolatedAt(v, inputs[..i], catalog, k);
    }
    if ViolatedAt(v, inputs, catalog, i) {
      assert ViolatedAt(v, inputs[..i + 1], catalog, i);
    }
  }

  lemma ReadyAuditIsSilent(artifacts: seq<Artifact>, catalog: seq<Source>, audit: ArtifactAudit)
    requires forall v :: v in audit.violations <==> AuditViolated(v, artifacts, catalog)
    requires audit.duplicates == Duplicates(artifacts)
    ensures audit.violations == {} ==> forall v :: !AuditPart(v, artifacts, catalog)
  {
    if audit.violations == {} {
      assert !AuditViolated(DuplicateArtifactContent, artifacts, catalog);
    }
  }

  lemma EmptyAudit(catalog: seq<Source>)
    ensures forall v :: !AuditPart(v, [], catalog)
  {
    assert Duplicates([]) == {};
    forall v ensures !AuditViolated(v, [], catalog) {}
  }
}
