/** What each report of a seal says of the batch, and how its two files are ordered (cyber_collection_batch.py). */
module CollectionReports {
  import opened Ordering
  import opened CorpusCatalog
  import opened CollectionBatch
  import opened CollectionBatchLaws

  // ----- catalogs and manifests

  /** The catalog's entry for an identifier is its last source with it. */
  ghost predicate Listed(catalog: seq<Source>, id: Id, s: Source) {
    exists i :: 0 <= i < |catalog| && catalog[i] == s && s.id == id
                && forall j :: i < j < |catalog| ==> catalog[j].id != id
  }

  lemma {:induction false} SourceOfMeaning(catalog: seq<Source>, id: Id)
    ensures SourceOf(catalog, id).None? <==> forall s :: s in catalog ==> s.id != id
    ensures forall s :: SourceOf(catalog, id) == Some(s) <==> Listed(catalog, id, s)
  {
    if catalog != [] {
      var n := |catalog| - 1;
      var init, last := catalog[..n], catalog[n];
      assert catalog == init + [last];
      SourceOfMeaning(init, id);
      forall s ensures SourceOf(catalog, id) == Some(s) <==> Listed(catalog, id, s) {
        if last.id == id {
          assert s == last ==> catalog[n] == s;
        } else {
          ListedInPrefix(catalog, id, s);
        }
      }
    }
  }

  lemma ListedInPrefix(catalog: seq<Source>, id: Id, s: Source)
    requires catalog != [] && catalog[|catalog| - 1].id != id
    ensures Listed(catalog, id, s) <==> Listed(catalog[..|catalog| - 1], id, s)
  {
    var n := |catalog| - 1;
    var init := catalog[..n];
    if Listed(catalog, id, s) {
      var i :| 0 <= i < |catalog| && catalog[i] == s && s.id == id && forall j :: i < j <= n ==> catalog[j].id != id;
      assert init[i] == s && forall j :: i < j < n ==> init[j] == catalog[j];
    }
    if Listed(init, id, s) {
      var i :| 0 <= i < n && init[i] == s && s.id == id && forall j :: i < j < n ==> init[j].id != id;
      assert catalog[i] == s && forall j :: i < j < n ==> init[j] == catalog[j];
    }
  }

  /** A manifest's entry for an identifier is its last artifact with it. */
  ghost predicate Described(manifest: seq<Artifact>, id: Id, a: Artifact) {
    exists i :: 0 <= i < |manifest| && manifest[i] == a && a.id == id
                && forall j :: i < j < |manifest| ==> manifest[j].id != id
  }

  lemma {:induction false} ManifestEntry(manifest: seq<Artifact>, id: Id)
    ensures ManifestArtifact(manifest, id).None? <==> forall a :: a in manifest ==> a.id != id
    ensures forall a :: ManifestArtifact(manifest, id) == Some(a) <==> Described(manifest, id, a)
  {
    if manifest != [] {
      var n := |manifest| - 1;
      var init, last := manifest[..n], manifest[n];
      assert manifest == init + [last];
      ManifestEntry(init, id);
      forall a ensures ManifestArtifact(manifest, id) == Some(a) <==> Described(manifest, id, a) {
        if last.id == id {
          assert a == last ==> manifest[n] == a;
        } else {
          DescribedInPrefix(manifest, id, a);
        }
      }
    }
  }

  lemma DescribedInPrefix(manifest: seq<Artifact>, id: Id, a: Artifact)
    requires manifest != [] && manifest[|manifest| - 1].id != id
    ensures Described(manifest, id, a) <==> Described(manifest[..|manifest| - 1], id, a)
  {
    var n := |manifest| - 1;
    var init := manifest[..n];
    if Described(manifest, id, a) {
      var i :| 0 <= i < |manifest| && manifest[i] == a && a.id == id && forall j :: i < j <= n ==> manifest[j].id != id;
      assert init[i] == a && forall j :: i < j < n ==> init[j] == manifest[j];
    }
    if Described(init, id, a) {
      var i :| 0 <= i < n && init[i] == a && a.id == id && forall j :: i < j < n ==> init[j].id != id;
      assert manifest[i] == a && forall j :: i < j < n ==> init[j] == manifest[j];
    }
  }

  // ----- what the inputs are reported for

  /** Input i names an authorized source s. */
  ghost predicate Opened(inputs: seq<Input>, catalog: seq<Source>, i: int, s: Source) {
    0 <= i < |inputs| && Listed(catalog, inputs[i].sourceId, s) && s.authorized
  }

  /** Row r stands in the corpus of input i, whose manifest describes it as a. */
  ghost predicate Matched(inputs: seq<Input>, catalog: seq<Source>, i: int, r: Row, a: Artifact) {
    (exists s :: Opened(inputs, catalog, i, s)) && Readable(inputs[i]) && r in inputs[i].corpus.value
    && Described(inputs[i].manifest.value, r.artifactId, a)
  }

  /** What an input is reported for, said of the batch. */
  ghost predicate InputAtFault(v: Violation, inputs: seq<Input>, catalog: seq<Source>, i: int)
    requires 0 <= i < |inputs|
  {
    match v
    case UnknownSource(id) => inputs[i].sourceId == id && forall s :: s in catalog ==> s.id != id
    case UnauthorizedSource(id) =>
      inputs[i].sourceId == id && exists s :: Listed(catalog, id, s) && !s.authorized
    case SourceMismatch(id, sourceId) =>
      inputs[i].sourceId == sourceId && (exists s :: Opened(inputs, catalog, i, s)) && Readable(inputs[i])
      && exists a :: a in inputs[i].manifest.value && a.id == id && a.sourceId != sourceId
    case RevisionMismatch(id) =>
      Readable(inputs[i])
      && exists s, a :: Opened(inputs, catalog, i, s) && a in inputs[i].manifest.value && a.id == id
                        && s.revision != Some(a.revision)
    case NoManifestArtifact(id) =>
      (exists s :: Opened(inputs, catalog, i, s)) && Readable(inputs[i])
      && (exists r :: r in inputs[i].corpus.value && r.artifactId == id)
      && forall a :: a in inputs[i].manifest.value ==> a.id != id
    case UnauthorizedInCorpus(id) =>
      exists r, a :: Matched(inputs, catalog, i, r, a) && r.artifactId == id && !a.authorized
    case HashMismatch(id) =>
      exists r, a :: Matched(inputs, catalog, i, r, a) && r.artifactId == id && a.content != r.content
    case DuplicateAcrossInputs(id) =>
      exists k, r, a, q, b ::
        && 0 <= k < i && Matched(inputs, catalog, i, r, a) && Matched(inputs, catalog, k, q, b)
        && r.artifactId == q.artifactId == id
    case MissingFromCorpus(id) =>
      (exists s :: Opened(inputs, catalog, i, s)) && Readable(inputs[i])
      && (exists a :: a in inputs[i].manifest.value && a.authorized && a.id == id)
      && forall r :: r in inputs[i].corpus.value ==> r.artifactId != id
    case FromAudit(_) => false
    case DuplicateContent(_) => false
  }

  lemma OpenedIff(inputs: seq<Input>, catalog: seq<Source>, i: nat)
    requires i < |inputs|
    ensures Processed(inputs[i], catalog) <==> exists s :: Opened(inputs, catalog, i, s)
    ensures Processed(inputs[i], catalog) ==> Opened(inputs, catalog, i, SourceOf(catalog, inputs[i].sourceId).value)
    ensures forall s :: Opened(inputs, catalog, i, s) ==> SourceOf(catalog, inputs[i].sourceId) == Some(s)
  {
    SourceOfMeaning(catalog, inputs[i].sourceId);
    hide SourceOf, Listed;
    if Processed(inputs[i], catalog) {
      assert Opened(inputs, catalog, i, SourceOf(catalog, inputs[i].sourceId).value);
    }
  }

  lemma MatchedIff(inputs: seq<Input>, catalog: seq<Source>, i: nat, r: Row)
    requires i < |inputs|
    ensures Contributes(inputs, catalog, i, r) <==> exists a :: Matched(inputs, catalog, i, r, a)
    ensures forall a :: Matched(inputs, catalog, i, r, a) <==>
              Contributes(inputs, catalog, i, r)
              && ManifestArtifact(inputs[i].manifest.value, r.artifactId) == Some(a)
  {
    OpenedIff(inputs, catalog, i);
    hide Processed, Opened, Described, ManifestArtifact;
    if Readable(inputs[i]) {
      ManifestEntry(inputs[i].manifest.value, r.artifactId);
      if ManifestArtifact(inputs[i].manifest.value, r.artifactId).Some? {
        var a := ManifestArtifact(inputs[i].manifest.value, r.artifactId).value;
        assert Contributes(inputs, catalog, i, r) ==> Matched(inputs, catalog, i, r, a);
      }
    }
  }

  /** An identifier is taken when an earlier input has matched a row with it. */
  lemma EarlierIff(inputs: seq<Input>, catalog: seq<Source>, i: nat, id: Id)
    requires i < |inputs|
    ensures id in CorpusOf(inputs[..i], catalog) <==>
              exists k, q, b :: 0 <= k < i && Matched(inputs, catalog, k, q, b) && q.artifactId == id
  {
    hide CorpusOf, Matched;
    var before := inputs[..i];
    CorpusMeaning(before, catalog);
    forall k, q | 0 <= k < i
      ensures Contributes(before, catalog, k, q) <==> exists b :: Matched(inputs, catalog, k, q, b)
    {
      assert before[k] == inputs[k];
      MatchedIff(inputs, catalog, k, q);
    }
    if id in CorpusOf(before, catalog) {
      var k :| Contributes(before, catalog, k, CorpusOf(before, catalog)[id]);
      var b :| Matched(inputs, catalog, k, CorpusOf(before, catalog)[id], b);
    }
    if k, q, b :| 0 <= k < i && Matched(inputs, catalog, k, q, b) && q.artifactId == id {
      assert Contributes(before, catalog, k, q);
    }
  }

  /** What an opened and readable input is reported for. */
  lemma InputReport(v: Violation, inputs: seq<Input>, catalog: seq<Source>, i: nat)
    requires i < |inputs| && Processed(inputs[i], catalog) && Readable(inputs[i])
    ensures var manifest, rows := inputs[i].manifest.value, inputs[i].corpus.value;
            ViolatedAt(v, inputs, catalog, i) <==>
              || SomeArtifactViolated(v, manifest, inputs[i].sourceId,
                                      SourceOf(catalog, inputs[i].sourceId).value.revision)
              || SomeRowViolated(v, rows, manifest, CorpusOf(inputs[..i], catalog).Keys)
              || (v.MissingFromCorpus? && v.artifactId in AuthorizedIds(manifest) - RowIds(rows))
  {
    hide SomeArtifactViolated, SomeRowViolated, CorpusOf, SourceOf;
  }

  lemma UnopenedInput(v: Violation, inputs: seq<Input>, catalog: seq<Source>, i: nat)
    requires i < |inputs| && !Processed(inputs[i], catalog)
    ensures ViolatedAt(v, inputs, catalog, i) <==> InputAtFault(v, inputs, catalog, i)
  {
    OpenedIff(inputs, catalog, i);
    SourceOfMeaning(catalog, inputs[i].sourceId);
    hide SourceOf, Listed, Opened, CorpusOf, Described;
    forall r, a ensures !Matched(inputs, catalog, i, r, a) {
    }
  }

  lemma SourceReports(v: Violation, inputs: seq<Input>, catalog: seq<Source>, i: nat)
    requires i < |inputs| && Processed(inputs[i], catalog) && Readable(inputs[i])
    requires v.UnknownSource? || v.UnauthorizedSource? || v.FromAudit? || v.DuplicateContent?
    ensures !ViolatedAt(v, inputs, catalog, i) && !InputAtFault(v, inputs, catalog, i)
  {
    SourceOfMeaning(catalog, inputs[i].sourceId);
    InputReport(v, inputs, catalog, i);
    hide SourceOf, Listed, CorpusOf, ViolatedAt;
  }

  lemma ArtifactReports(v: Violation, inputs: seq<Input>, catalog: seq<Source>, i: nat)
    requires i < |inputs| && Processed(inputs[i], catalog) && Readable(inputs[i])
    requires v.SourceMismatch? || v.RevisionMismatch? || v.MissingFromCorpus?
    ensures ViolatedAt(v, inputs, catalog, i) <==> InputAtFault(v, inputs, catalog, i)
  {
    OpenedIff(inputs, catalog, i);
    InputReport(v, inputs, catalog, i);
    hide SourceOf, Listed, CorpusOf, ViolatedAt, Opened;
    assert forall r :: !RowViolated(v, r, inputs[i].manifest.value, CorpusOf(inputs[..i], catalog).Keys);
  }

  lemma UnmatchedReports(v: Violation, inputs: seq<Input>, catalog: seq<Source>, i: nat)
    requires i < |inputs| && Processed(inputs[i], catalog) && Readable(inputs[i]) && v.NoManifestArtifact?
    ensures ViolatedAt(v, inputs, catalog, i) <==> InputAtFault(v, inputs, catalog, i)
  {
    OpenedIff(inputs, catalog, i);
    InputReport(v, inputs, catalog, i);
    ManifestEntry(inputs[i].manifest.value, v.artifactId);
    hide SourceOf, Listed, CorpusOf, ViolatedAt, Opened, ManifestArtifact, Processed, Described;
  }

  /** A report on a row with a manifest artifact, said of that artifact. */
  lemma MatchedReports(v: Violation, inputs: seq<Input>, catalog: seq<Source>, i: nat)
    requires i < |inputs| && Processed(inputs[i], catalog) && Readable(inputs[i])
    requires v.UnauthorizedInCorpus? || v.HashMismatch? || v.DuplicateAcrossInputs?
    ensures ViolatedAt(v, inputs, catalog, i) <==>
              exists r, a :: Matched(inputs, catalog, i, r, a) && r.artifactId == v.artifactId
                && (v.UnauthorizedInCorpus? ==> !a.authorized) && (v.HashMismatch? ==> a.content != r.content)
                && (v.DuplicateAcrossInputs? ==> v.artifactId in CorpusOf(inputs[..i], catalog))
  {
    InputReport(v, inputs, catalog, i);
    forall r ensures MatchedAs(inputs, catalog, i, r) {
      MatchedIff(inputs, catalog, i, r);
    }
    hide SourceOf, CorpusOf, ViolatedAt, ManifestArtifact, Matched, Processed;
    var rows, manifest, earlier := inputs[i].corpus.value, inputs[i].manifest.value,
                                   CorpusOf(inputs[..i], catalog).Keys;
    forall r | r in rows && RowViolated(v, r, manifest, earlier)
      ensures r.artifactId == v.artifactId && ManifestArtifact(manifest, r.artifactId).Some?
              && Matched(inputs, catalog, i, r, ManifestArtifact(manifest, r.artifactId).value)
    {
      assert MatchedAs(inputs, catalog, i, r);
    }
    if r, a :| Matched(inputs, catalog, i, r, a) && r.artifactId == v.artifactId
               && (v.UnauthorizedInCorpus? ==> !a.authorized) && (v.HashMismatch? ==> a.content != r.content)
               && (v.DuplicateAcrossInputs? ==> v.artifactId in CorpusOf(inputs[..i], catalog))
    {
      assert MatchedAs(inputs, catalog, i, r);
      assert r in rows && RowViolated(v, r, manifest, earlier);
    }
  }

  lemma RowReports(v: Violation, inputs: seq<Input>, catalog: seq<Source>, i: nat)
    requires i < |inputs| && Processed(inputs[i], catalog) && Readable(inputs[i])
    requires v.UnauthorizedInCorpus? || v.HashMismatch? || v.DuplicateAcrossInputs?
    ensures ViolatedAt(v, inputs, catalog, i) <==> InputAtFault(v, inputs, catalog, i)
  {
    MatchedReports(v, inputs, catalog, i);
    EarlierIff(inputs, catalog, i, v.artifactId);
    hide CorpusOf, ViolatedAt, Matched, Processed;
  }

  ghost predicate MatchedAs(inputs: seq<Input>, catalog: seq<Source>, i: nat, r: Row)
    requires i < |inputs|
  {
    forall a :: Matched(inputs, catalog, i, r, a) <==>
      Contributes(inputs, catalog, i, r) && ManifestArtifact(inputs[i].manifest.value, r.artifactId) == Some(a)
  }

  /** An input is reported for exactly what is wrong with it. */
  lemma InputReportIff(v: Violation, inputs: seq<Input>, catalog: seq<Source>, i: nat)
    requires i < |inputs| && (Processed(inputs[i], catalog) ==> Readable(inputs[i]))
    ensures ViolatedAt(v, inputs, catalog, i) <==> InputAtFault(v, inputs, catalog, i)
  {
    hide ViolatedAt, InputAtFault;
    if !Processed(inputs[i], catalog) {
      UnopenedInput(v, inputs, catalog, i);
    } else if v.SourceMismatch? || v.RevisionMismatch? || v.MissingFromCorpus? {
      ArtifactReports(v, inputs, catalog, i);
    } else if v.NoManifestArtifact? {
      UnmatchedReports(v, inputs, catalog, i);
    } else if v.UnauthorizedInCorpus? || v.HashMismatch? || v.DuplicateAcrossInputs? {
      RowReports(v, inputs, catalog, i);
    } else {
      SourceReports(v, inputs, catalog, i);
    }
  }

  // ----- what the audit reports

  /** What is wrong with an authorized artifact of a listed source. */
  predicate Offence(v: AuditViolation, a: Artifact, s: Source) {
    match v
    case UnknownSources => false
    case DuplicateArtifactContent => false
    case SourceNotAuthorized(_) => !s.authorized
    case RevisionDiffers(_) => s.authorized && s.revision != Some(a.revision)
    case MustInherit(_) => s.authorized && s.scope == UNIFORM && !a.inherited
    case LicenseDiffers(_) => s.authorized && s.scope == UNIFORM && a.license != s.license
    case ReferenceDiffers(_) => s.authorized && s.scope == UNIFORM && a.reference != s.reference
    case CannotInherit(_) => s.authorized && s.scope == PER_ARTIFACT && a.inherited
    case NeedsLicense(_) => s.authorized && s.scope == PER_ARTIFACT && a.reference == None
    case ScopeUnresolved(_) => s.authorized && s.scope == LicenseScope.UNKNOWN
  }

  /** Two places hold an artifact with this content. */
  ghost predicate Repeated(artifacts: seq<Artifact>, content: Id) {
    exists i, j :: 0 <= i < j < |artifacts| && artifacts[i].content == artifacts[j].content == content
  }

  ghost predicate AuditFault(v: AuditViolation, artifacts: seq<Artifact>, catalog: seq<Source>) {
    match v
    case UnknownSources => exists a :: a in artifacts && forall s :: s in catalog ==> s.id != a.sourceId
    case DuplicateArtifactContent => exists content :: Repeated(artifacts, content)
    case _ =>
      exists a, s :: a in artifacts && Listed(catalog, a.sourceId, s) && a.authorized && a.id == v.artifactId
                     && Offence(v, a, s)
  }

  lemma {:induction false} RepeatedIff(artifacts: seq<Artifact>, content: Id)
    ensures content in Duplicates(artifacts) <==> Repeated(artifacts, content)
  {
    if artifacts != [] {
      var n := |artifacts| - 1;
      assert artifacts == artifacts[..n] + [artifacts[n]];
      RepeatedIff(artifacts[..n], content);
      RepeatedStep(artifacts[..n], artifacts[n], content);
      hide Repeated;
    }
  }

  lemma RepeatedStep(init: seq<Artifact>, last: Artifact, content: Id)
    ensures Repeated(init + [last], content) <==>
              Repeated(init, content) || (last.content == content && content in Contents(init))
  {
    var all := init + [last];
    ContentsMeaning(init, content);
    hide Contents;
    if last.content == content && content in Contents(init) {
      var a :| a in init && a.content == content;
      var i :| 0 <= i < |init| && init[i] == a;
      assert all[i].content == all[|init|].content;
    }
    if Repeated(init, content) {
      var i, j :| 0 <= i < j < |init| && init[i].content == init[j].content == content;
      assert all[i].content == all[j].content;
    }
    if Repeated(all, content) {
      var i, j :| 0 <= i < j < |all| && all[i].content == all[j].content == content;
      assert all[i] in init && (j < |init| ==> init[i].content == init[j].content);
    }
  }

  lemma AuditReportIff(v: AuditViolation, artifacts: seq<Artifact>, catalog: seq<Source>)
    ensures AuditViolated(v, artifacts, catalog) <==> AuditFault(v, artifacts, catalog)
  {
    forall a | a in artifacts
      ensures OffendsIn(v, a, catalog) <==>
                exists s :: Listed(catalog, a.sourceId, s) && Offends(v, a, s)
      ensures SourceOf(catalog, a.sourceId).None? <==> forall s :: s in catalog ==> s.id != a.sourceId
    {
      SourceOfMeaning(catalog, a.sourceId);
    }
    hide SourceOf, Listed, OffendsIn, Duplicates, Repeated;
    if v.DuplicateArtifactContent? {
      forall content ensures content in Duplicates(artifacts) <==> Repeated(artifacts, content) {
        RepeatedIff(artifacts, content);
      }
      if Duplicates(artifacts) != {} {
        var content := SomeElement(Duplicates(artifacts));
        assert Repeated(artifacts, content);
      }
    }
  }

  // ----- the whole report

  /**
   A readable batch is reported for exactly what is wrong with it: with one of its inputs, with an artifact that the
   audit looks at, or with a content that two artifacts share.
   */
  lemma ReportedIff(v: Violation, inputs: seq<Input>, catalog: seq<Source>)
    requires AllReadable(inputs, catalog)
    ensures Violated(v, inputs, catalog) <==>
              || (exists i :: 0 <= i < |inputs| && InputAtFault(v, inputs, catalog, i))
              || (v.FromAudit? && AuditFault(v.violation, ArtifactsOf(inputs, catalog), catalog))
              || (v.DuplicateContent? && Repeated(ArtifactsOf(inputs, catalog), v.digest))
  {
    hide ViolatedAt, InputAtFault, AuditViolated, AuditFault, Duplicates, Repeated, ArtifactsOf, Processed;
    forall i: nat | i < |inputs| ensures ViolatedAt(v, inputs, catalog, i) <==> InputAtFault(v, inputs, catalog, i) {
      InputReportIff(v, inputs, catalog, i);
    }
    if v.FromAudit? {
      AuditReportIff(v.violation, ArtifactsOf(inputs, catalog), catalog);
    }
    if v.DuplicateContent? {
      RepeatedIff(ArtifactsOf(inputs, catalog), v.digest);
    }
  }

  // ----- the two files

  /** The manifest holds all artifacts by identifier, those with the same one in the order of the inputs. */
  lemma ManifestByIdentifier(inputs: seq<Input>, catalog: seq<Source>)
    ensures var manifest := Sort(ArtifactsOf(inputs, catalog), ArtifactOrder);
            && multiset(manifest) == multiset(ArtifactsOf(inputs, catalog))
            && (forall i, j :: 0 <= i < j < |manifest| ==> manifest[i].id <= manifest[j].id)
            && (forall id :: Filter(manifest, HasId(id)) == Filter(ArtifactsOf(inputs, catalog), HasId(id)))
  {
    var artifacts := ArtifactsOf(inputs, catalog);
    SortPermutes(artifacts, ArtifactOrder);
    SortSorts(artifacts, ArtifactOrder);
    forall id ensures Filter(Sort(artifacts, ArtifactOrder), HasId(id)) == Filter(artifacts, HasId(id)) {
      SortIsStable(artifacts, id);
    }
  }

  function HasId(id: Id): Artifact -> bool {
    (a: Artifact) => a.id == id
  }

  lemma {:induction false} InsertIsStable(x: Artifact, s: seq<Artifact>, id: Id)
    ensures Filter(Insert(x, s, ArtifactOrder), HasId(id)) == Filter([x] + s, HasId(id))
  {
    assert ([x] + s)[1..] == s;
    if s != [] && !ArtifactOrder(x, s[0]) {
      var rest := Insert(x, s[1..], ArtifactOrder);
      InsertIsStable(x, s[1..], id);
      assert ([s[0]] + rest)[1..] == rest;
      assert ([x] + s[1..])[1..] == s[1..];
    }
  }

  lemma {:induction false} SortIsStable(s: seq<Artifact>, id: Id)
    ensures Filter(Sort(s, ArtifactOrder), HasId(id)) == Filter(s, HasId(id))
  {
    if s != [] {
      SortIsStable(s[1..], id);
      InsertIsStable(s[0], Sort(s[1..], ArtifactOrder), id);
      assert ([s[0]] + Sort(s[1..], ArtifactOrder))[1..] == Sort(s[1..], ArtifactOrder);
    }
  }

  /** The corpus holds the row of each authorized artifact it has one for, by identifier. */
  lemma CorpusByIdentifier(inputs: seq<Input>, catalog: seq<Source>, allowed: set<Id>)
    ensures var rows := Selected(CorpusOf(inputs, catalog), allowed);
            && (forall i, j :: 0 <= i < j < |rows| ==> rows[i].artifactId < rows[j].artifactId)
            && (forall r :: r in rows <==>
                  r.artifactId in allowed && r.artifactId in CorpusOf(inputs, catalog)
                  && CorpusOf(inputs, catalog)[r.artifactId] == r)
  {
    var corpus := CorpusOf(inputs, catalog);
    CorpusMeaning(inputs, catalog);
    hide CorpusOf, SortedIds;
    var keys, rows := SortedIds(corpus.Keys * allowed), Selected(corpus, allowed);
    forall r ensures r in rows <==> r.artifactId in allowed && r.artifactId in corpus && corpus[r.artifactId] == r {
      if r in rows {
        var k :| 0 <= k < |rows| && rows[k] == r;
        assert keys[k] in corpus.Keys * allowed;
      }
      if r.artifactId in allowed && r.artifactId in corpus && corpus[r.artifactId] == r {
        assert r.artifactId in keys;
        var k :| 0 <= k < |keys| && keys[k] == r.artifactId;
        assert rows[k] == r;
      }
    }
  }
}
