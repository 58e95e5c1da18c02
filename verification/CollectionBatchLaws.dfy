/** What a sealed batch guarantees, and what its counts mean. */
module CollectionBatchLaws {
  import opened Ordering
  import opened CorpusCatalog
  import opened CollectionBatch

  ghost predicate Clean(inputs: seq<Input>, catalog: seq<Source>) {
    forall v :: !Violated(v, inputs, catalog)
  }

  ghost predicate Loaded(inputs: seq<Input>, catalog: seq<Source>) {
    AllReadable(inputs, catalog) && forall i :: 0 <= i < |inputs| ==> WellLoaded(inputs[i])
  }

  // ----- membership

  lemma {:induction false} ManifestArtifactMeaning(artifacts: seq<Artifact>, id: Id)
    ensures ManifestArtifact(artifacts, id).Some? ==>
              ManifestArtifact(artifacts, id).value in artifacts && ManifestArtifact(artifacts, id).value.id == id
    ensures forall a :: a in artifacts && a.id == id ==> ManifestArtifact(artifacts, id).Some?
  {
    if artifacts != [] {
      assert artifacts == artifacts[..|artifacts| - 1] + [artifacts[|artifacts| - 1]];
      ManifestArtifactMeaning(artifacts[..|artifacts| - 1], id);
    }
  }

  /** Input i has put row r under its identifier in the corpus. */
  ghost predicate Contributes(inputs: seq<Input>, catalog: seq<Source>, i: int, r: Row) {
    && 0 <= i < |inputs| && Processed(inputs[i], catalog) && Readable(inputs[i])
    && r in inputs[i].corpus.value && ManifestArtifact(inputs[i].manifest.value, r.artifactId).Some?
  }

  lemma {:induction false} CorpusMeaning(inputs: seq<Input>, catalog: seq<Source>)
    ensures forall id :: id in CorpusOf(inputs, catalog) ==>
              CorpusOf(inputs, catalog)[id].artifactId == id
              && exists i :: Contributes(inputs, catalog, i, CorpusOf(inputs, catalog)[id])
    ensures forall i, r :: Contributes(inputs, catalog, i, r) ==> r.artifactId in CorpusOf(inputs, catalog)
  {
    if inputs != [] {
      var n := |inputs| - 1;
      var init, last := inputs[..n], inputs[n];
      CorpusMeaning(init, catalog);
      assert forall i, r :: 0 <= i < n ==> (Contributes(init, catalog, i, r) <==> Contributes(inputs, catalog, i, r));
      if Processed(last, catalog) && Readable(last) {
        RowMapMeaning(last.corpus.value, last.manifest.value);
      }
      hide RowMap, ManifestArtifact, SourceOf;
      var corpus := CorpusOf(inputs, catalog);
      forall id | id in corpus
        ensures corpus[id].artifactId == id && exists i :: Contributes(inputs, catalog, i, corpus[id])
      {
        if Processed(last, catalog) && Readable(last) && id in RowMap(last.corpus.value, last.manifest.value) {
          assert Contributes(inputs, catalog, n, corpus[id]);
        } else {
          var i :| Contributes(init, catalog, i, CorpusOf(init, catalog)[id]);
          assert Contributes(inputs, catalog, i, corpus[id]);
        }
      }
      forall i, r | Contributes(inputs, catalog, i, r) ensures r.artifactId in corpus {
        if i < n {
          assert Contributes(init, catalog, i, r);
        }
      }
    }
  }

  ghost predicate Supplies(inputs: seq<Input>, catalog: seq<Source>, i: int, a: Artifact) {
    0 <= i < |inputs| && Processed(inputs[i], catalog) && Readable(inputs[i]) && a in inputs[i].manifest.value
  }

  lemma {:induction false} ArtifactsMeaning(inputs: seq<Input>, catalog: seq<Source>, a: Artifact)
    ensures a in ArtifactsOf(inputs, catalog) <==> exists i :: Supplies(inputs, catalog, i, a)
  {
    if inputs != [] {
      var n := |inputs| - 1;
      var init := inputs[..n];
      ArtifactsMeaning(init, catalog, a);
      assert forall i :: 0 <= i < n ==> (Supplies(init, catalog, i, a) <==> Supplies(inputs, catalog, i, a));
      hide SourceOf;
      if i :| Supplies(inputs, catalog, i, a) {
        if i < n {
          assert Supplies(init, catalog, i, a);
        }
      }
      if a in ArtifactsOf(init, catalog) {
        var i :| Supplies(init, catalog, i, a);
        assert Supplies(inputs, catalog, i, a);
      } else if a in ArtifactsOf(inputs, catalog) {
        assert Supplies(inputs, catalog, n, a);
      }
    }
  }

  // ----- what the absence of violations means

  /** The checks an input has passed when nothing is reported. */
  lemma CleanInput(inputs: seq<Input>, catalog: seq<Source>, i: nat)
    requires Clean(inputs, catalog) && i < |inputs|
    ensures Processed(inputs[i], catalog)
    ensures Readable(inputs[i]) ==>
              var input := inputs[i]; var revision := SourceOf(catalog, input.sourceId).value.revision;
              && (forall a ::
                    a in input.manifest.value ==> a.sourceId == input.sourceId && Some(a.revision) == revision)
              && (forall r :: r in input.corpus.value ==> RowIsSound(r, input.manifest.value))
              && AuthorizedIds(input.manifest.value) <= RowIds(input.corpus.value)
  {
    hide CorpusOf, ManifestArtifact, SourceOf, AuthorizedIds, RowIds;
    var input, earlier := inputs[i], CorpusOf(inputs[..i], catalog).Keys;
    forall v ensures !InputViolated(v, input, catalog, earlier) {
      NotViolatedAt(inputs, catalog, i, v);
    }
    var source := SourceOf(catalog, input.sourceId);
    assert !InputViolated(UnknownSource(input.sourceId), input, catalog, earlier);
    assert !InputViolated(UnauthorizedSource(input.sourceId), input, catalog, earlier);
    if Readable(input) {
      forall a | a in input.manifest.value
        ensures a.sourceId == input.sourceId && Some(a.revision) == source.value.revision
      {
        assert !InputViolated(SourceMismatch(a.id, input.sourceId), input, catalog, earlier);
        assert !InputViolated(RevisionMismatch(a.id), input, catalog, earlier);
        assert !ArtifactViolated(SourceMismatch(a.id, input.sourceId), a, input.sourceId, source.value.revision);
        assert !ArtifactViolated(RevisionMismatch(a.id), a, input.sourceId, source.value.revision);
      }
      forall r | r in input.corpus.value ensures RowIsSound(r, input.manifest.value) {
        assert !InputViolated(NoManifestArtifact(r.artifactId), input, catalog, earlier);
        assert !InputViolated(UnauthorizedInCorpus(r.artifactId), input, catalog, earlier);
        assert !InputViolated(HashMismatch(r.artifactId), input, catalog, earlier);
        assert !RowViolated(NoManifestArtifact(r.artifactId), r, input.manifest.value, earlier);
        assert !RowViolated(UnauthorizedInCorpus(r.artifactId), r, input.manifest.value, earlier);
        assert !RowViolated(HashMismatch(r.artifactId), r, input.manifest.value, earlier);
      }
      forall id | id in AuthorizedIds(input.manifest.value) ensures id in RowIds(input.corpus.value) {
        assert !InputViolated(MissingFromCorpus(id), input, catalog, earlier);
      }
    }
  }

  lemma NotViolatedAt(inputs: seq<Input>, catalog: seq<Source>, i: nat, v: Violation)
    requires Clean(inputs, catalog) && i < |inputs|
    ensures !InputViolated(v, inputs[i], catalog, CorpusOf(inputs[..i], catalog).Keys)
  {
    assert !Violated(v, inputs, catalog);
    assert !ViolatedAt(v, inputs, catalog, i);
  }

  /** Without violations no artifact identifier is in the corpora of two inputs. */
  lemma CorporaAreDisjoint(inputs: seq<Input>, catalog: seq<Source>, i: nat, j: nat, r: Row, q: Row)
    requires Loaded(inputs, catalog) && Clean(inputs, catalog) && i < j < |inputs|
    requires Readable(inputs[i]) && Readable(inputs[j]) && r in inputs[i].corpus.value && q in inputs[j].corpus.value
    ensures r.artifactId != q.artifactId
  {
    hide CorpusOf, ManifestArtifact, SourceOf;
    CleanInput(inputs, catalog, i);
    CleanInput(inputs, catalog, j);
    var before := inputs[..j];
    CorpusMeaning(before, catalog);
    assert before[i] == inputs[i] && RowIsSound(r, inputs[i].manifest.value);
    assert Contributes(before, catalog, i, r);
    NotViolatedAt(inputs, catalog, j, DuplicateAcrossInputs(q.artifactId));
    assert RowIsSound(q, inputs[j].manifest.value);
    assert !RowViolated(DuplicateAcrossInputs(q.artifactId), q, inputs[j].manifest.value,
                        CorpusOf(before, catalog).Keys);
  }

  ghost predicate RowIsSound(r: Row, artifacts: seq<Artifact>) {
    var found := ManifestArtifact(artifacts, r.artifactId);
    found.Some? && found.value.authorized && found.value.content == r.content
  }

  lemma CleanAudit(inputs: seq<Input>, catalog: seq<Source>)
    requires Clean(inputs, catalog)
    ensures forall v :: !AuditViolated(v, ArtifactsOf(inputs, catalog), catalog)
    ensures DistinctContents(ArtifactsOf(inputs, catalog))
  {
    hide AuditViolated, ArtifactsOf, InputsViolated, Duplicates, DistinctContents;
    var artifacts := ArtifactsOf(inputs, catalog);
    forall v ensures !AuditViolated(v, artifacts, catalog) {
      assert !Violated(FromAudit(v), inputs, catalog);
    }
    forall d ensures d !in Duplicates(artifacts) {
      assert !Violated(DuplicateContent(d), inputs, catalog);
    }
    NoDuplicateContent(artifacts);
  }

  /**
   An authorized artifact vouches for a row: same identifier and digest, from an authorized source at the pinned
   revision, under a license fit for training that agrees with that source's scope, and kept out of evaluation.
   */
  ghost predicate Vouches(a: Artifact, r: Row, catalog: seq<Source>) {
    && a.id == r.artifactId && a.content == r.content && a.authorized
    && Trainable(a.license) && a.reference.Some? && a.evalExclusion && !a.overlap.HIGH?
    && SourceOf(catalog, a.sourceId).Some?
    && var s := SourceOf(catalog, a.sourceId).value;
    && s.authorized && s.revision == Some(a.revision)
    && (s.scope.UNIFORM? ==> a.inherited && a.license == s.license && a.reference == s.reference)
    && (s.scope.PER_ARTIFACT? ==> !a.inherited)
  }

  lemma LicenseFollowsScope(artifacts: seq<Artifact>, catalog: seq<Source>, a: Artifact)
    requires (forall v :: !AuditViolated(v, artifacts, catalog)) && a in artifacts && a.authorized
    requires SourceOf(catalog, a.sourceId).Some? && SourceOf(catalog, a.sourceId).value.authorized
    ensures var s := SourceOf(catalog, a.sourceId).value;
            && (s.scope.UNIFORM? ==> a.inherited && a.license == s.license && a.reference == s.reference)
            && (s.scope.PER_ARTIFACT? ==> !a.inherited)
  {
    hide SourceOf;
    assert !AuditViolated(MustInherit(a.id), artifacts, catalog) && !OffendsIn(MustInherit(a.id), a, catalog);
    assert !AuditViolated(LicenseDiffers(a.id), artifacts, catalog) && !OffendsIn(LicenseDiffers(a.id), a, catalog);
    assert !AuditViolated(ReferenceDiffers(a.id), artifacts, catalog) && !OffendsIn(ReferenceDiffers(a.id), a, catalog);
    assert !AuditViolated(CannotInherit(a.id), artifacts, catalog) && !OffendsIn(CannotInherit(a.id), a, catalog);
  }

  /** Without violations every corpus row is vouched for by an artifact of the batch. */
  lemma EveryRowIsVouchedFor(inputs: seq<Input>, catalog: seq<Source>, id: Id)
    requires Loaded(inputs, catalog) && Clean(inputs, catalog) && id in CorpusOf(inputs, catalog)
    ensures exists a :: a in ArtifactsOf(inputs, catalog) && Vouches(a, CorpusOf(inputs, catalog)[id], catalog)
  {
    hide CorpusOf, ArtifactsOf, SourceOf, ManifestArtifact, AuditViolated, Clean;
    CorpusMeaning(inputs, catalog);
    var r := CorpusOf(inputs, catalog)[id];
    var i :| Contributes(inputs, catalog, i, r);
    CleanInput(inputs, catalog, i);
    CleanAudit(inputs, catalog);
    ManifestArtifactMeaning(inputs[i].manifest.value, id);
    assert RowIsSound(r, inputs[i].manifest.value);
    var a := ManifestArtifact(inputs[i].manifest.value, id).value;
    assert Supplies(inputs, catalog, i, a);
    ArtifactsMeaning(inputs, catalog, a);
    assert WellLoaded(inputs[i]) && a.Valid();
    LicenseFollowsScope(ArtifactsOf(inputs, catalog), catalog, a);
    assert Vouches(a, r, catalog);
  }

  /** Without violations the corpus holds exactly the authorized artifact identifiers. */
  lemma CorpusIdsAreAuthorizedIds(inputs: seq<Input>, catalog: seq<Source>)
    requires Loaded(inputs, catalog) && Clean(inputs, catalog)
    ensures CorpusOf(inputs, catalog).Keys == AuthorizedIds(ArtifactsOf(inputs, catalog))
  {
    hide CorpusOf, ArtifactsOf, SourceOf, ManifestArtifact, Clean, Vouches;
    var corpus, artifacts := CorpusOf(inputs, catalog), ArtifactsOf(inputs, catalog);
    CorpusMeaning(inputs, catalog);
    forall id | id in corpus ensures id in AuthorizedIds(artifacts) {
      EveryRowIsVouchedFor(inputs, catalog, id);
      var a :| a in artifacts && Vouches(a, corpus[id], catalog);
      VouchingMeans(a, corpus[id], catalog);
    }
    forall id | id in AuthorizedIds(artifacts) ensures id in corpus {
      var a :| a in artifacts && a.authorized && a.id == id;
      ArtifactsMeaning(inputs, catalog, a);
      var i :| Supplies(inputs, catalog, i, a);
      CleanInput(inputs, catalog, i);
      assert id in AuthorizedIds(inputs[i].manifest.value);
      var r :| r in inputs[i].corpus.value && r.artifactId == id;
      ManifestArtifactMeaning(inputs[i].manifest.value, id);
      assert Contributes(inputs, catalog, i, r);
    }
  }

  lemma VouchingMeans(a: Artifact, r: Row, catalog: seq<Source>)
    requires Vouches(a, r, catalog)
    ensures a.id == r.artifactId && a.content == r.content && a.authorized
  {
  }

  /**
   A batch is ready exactly when nothing is reported and some artifact is authorized; the count comparison adds
   nothing. The corpus written out is then the whole corpus, one row for each authorized identifier.
   */
  lemma ReadyIff(inputs: seq<Input>, catalog: seq<Source>)
    requires Loaded(inputs, catalog)
    ensures var artifacts := ArtifactsOf(inputs, catalog); var corpus := CorpusOf(inputs, catalog);
            var allowed := AuthorizedIds(artifacts);
            && ((Clean(inputs, catalog) && |Selected(corpus, allowed)| == |allowed| && allowed != {})
                <==> Clean(inputs, catalog) && SomeAuthorized(artifacts))
            && (Clean(inputs, catalog) ==> corpus.Keys == allowed && |Selected(corpus, allowed)| == |allowed|)
  {
    hide CorpusOf, ArtifactsOf, Clean;
    var artifacts, corpus := ArtifactsOf(inputs, catalog), CorpusOf(inputs, catalog);
    var allowed := AuthorizedIds(artifacts);
    if Clean(inputs, catalog) {
      CorpusIdsAreAuthorizedIds(inputs, catalog);
      assert corpus.Keys * allowed == allowed;
    }
    if SomeAuthorized(artifacts) {
      var a :| a in artifacts && a.authorized;
      assert a.id in allowed;
    }
  }

  /** Without violations different rows of the corpus hold different contents. */
  lemma CorpusContentsAreDistinct(inputs: seq<Input>, catalog: seq<Source>, x: Id, y: Id)
    requires Loaded(inputs, catalog) && Clean(inputs, catalog)
    requires x in CorpusOf(inputs, catalog) && y in CorpusOf(inputs, catalog) && x != y
    ensures CorpusOf(inputs, catalog)[x].content != CorpusOf(inputs, catalog)[y].content
  {
    hide CorpusOf, ArtifactsOf, Clean, Vouches;
    var corpus, artifacts := CorpusOf(inputs, catalog), ArtifactsOf(inputs, catalog);
    CorpusMeaning(inputs, catalog);
    CleanAudit(inputs, catalog);
    EveryRowIsVouchedFor(inputs, catalog, x);
    EveryRowIsVouchedFor(inputs, catalog, y);
    var a :| a in artifacts && Vouches(a, corpus[x], catalog);
    var b :| b in artifacts && Vouches(b, corpus[y], catalog);
    VouchingMeans(a, corpus[x], catalog);
    VouchingMeans(b, corpus[y], catalog);
    SameContentSameArtifact(artifacts, a, b);
  }

  lemma SameContentSameArtifact(artifacts: seq<Artifact>, a: Artifact, b: Artifact)
    requires DistinctContents(artifacts) && a in artifacts && b in artifacts
    ensures a.content == b.content ==> a == b
  {
    var i :| 0 <= i < |artifacts| && artifacts[i] == a;
    var j :| 0 <= j < |artifacts| && artifacts[j] == b;
  }

  // ----- repeated artifact identifiers

  function AuthorizedIdList(artifacts: seq<Artifact>): seq<Id> {
    if artifacts == [] then [] else
    (if artifacts[0].authorized then [artifacts[0].id] else []) + AuthorizedIdList(artifacts[1..])
  }

  function Unauthorized(a: Artifact): bool { !a.authorized }

  lemma {:induction false} AuthorizedIdListMeaning(artifacts: seq<Artifact>)
    ensures Elements(AuthorizedIdList(artifacts)) == AuthorizedIds(artifacts)
    ensures |AuthorizedIdList(artifacts)| + |Filter(artifacts, Unauthorized)| == |artifacts|
  {
    if artifacts != [] {
      AuthorizedIdListMeaning(artifacts[1..]);
      assert artifacts == [artifacts[0]] + artifacts[1..];
      var rest := AuthorizedIds(artifacts[1..]);
      assert AuthorizedIds(artifacts) == rest + (if artifacts[0].authorized then {artifacts[0].id} else {}) by {
        assert artifacts[0] in artifacts && forall a :: a in artifacts[1..] ==> a in artifacts;
      }
    }
  }

  /**
   The rejected count is the number of unauthorized artifacts exactly when no two authorized artifacts share an
   identifier; otherwise it counts every repetition as a rejection, even in a batch that is ready.
   */
  lemma RejectedCountsUnauthorizedIff(artifacts: seq<Artifact>)
    ensures |artifacts| - |AuthorizedIds(artifacts)| == |Filter(artifacts, Unauthorized)|
            <==> NoDuplicates(AuthorizedIdList(artifacts))
  {
    AuthorizedIdListMeaning(artifacts);
    if NoDuplicates(AuthorizedIdList(artifacts)) {
      CardinalityOfElements(AuthorizedIdList(artifacts));
    }
    if |Elements(AuthorizedIdList(artifacts))| == |AuthorizedIdList(artifacts)| {
      DistinctByCardinality(AuthorizedIdList(artifacts));
    }
  }

  ghost predicate AuthorizedIdsDistinct(artifacts: seq<Artifact>) {
    forall a, b :: a in artifacts && b in artifacts && a.authorized && b.authorized && a.id == b.id ==> a == b
  }

  /**
   In a batch without violations the corpus carries the content of every authorized artifact exactly when no two
   different authorized artifacts share an identifier.
   */
  lemma CorpusCarriesEveryAuthorizedArtifactIff(inputs: seq<Input>, catalog: seq<Source>)
    requires Loaded(inputs, catalog) && Clean(inputs, catalog)
    ensures var artifacts := ArtifactsOf(inputs, catalog); var corpus := CorpusOf(inputs, catalog);
            (forall a :: a in artifacts && a.authorized ==> a.id in corpus && corpus[a.id].content == a.content)
            <==> AuthorizedIdsDistinct(artifacts)
  {
    hide CorpusOf, ArtifactsOf, Clean, Vouches;
    var artifacts, corpus := ArtifactsOf(inputs, catalog), CorpusOf(inputs, catalog);
    CorpusIdsAreAuthorizedIds(inputs, catalog);
    CorpusMeaning(inputs, catalog);
    CleanAudit(inputs, catalog);
    if forall a :: a in artifacts && a.authorized ==> a.id in corpus && corpus[a.id].content == a.content {
      forall a, b | a in artifacts && b in artifacts && a.authorized && b.authorized && a.id == b.id ensures a == b {
        SameContentSameArtifact(artifacts, a, b);
      }
    }
    if AuthorizedIdsDistinct(artifacts) {
      forall a | a in artifacts && a.authorized ensures a.id in corpus && corpus[a.id].content == a.content {
        assert a.id in AuthorizedIds(artifacts);
        EveryRowIsVouchedFor(inputs, catalog, a.id);
        var b :| b in artifacts && Vouches(b, corpus[a.id], catalog);
        VouchingMeans(b, corpus[a.id], catalog);
        assert b == a;
      }
    }
  }

  // ----- a ready batch that repeats an identifier

  const LIBRARY := Source(1, T0_PRIMARY, ALLOW_TRAINING, UNIFORM, Some(5), Some(6), Some(7), true, NO_RISK, APPROVED)

  function Page(content: Id): Artifact {
    Artifact(2, 1, 7, content, ALLOW_TRAINING, Some(5), true, true, true, NO_RISK)
  }

  /** Two authorized artifacts share identifier 2; the corpus has a row for the second one. */
  const PAGES := [Page(100), Page(101)]

  const REPEATING := Input(1, Some(PAGES), Some([Row(2, 101)]))

  lemma RepeatingBatch()
    ensures ArtifactsOf([REPEATING], [LIBRARY]) == PAGES && AuthorizedIds(PAGES) == {2}
    ensures Loaded([REPEATING], [LIBRARY]) && LIBRARY.Valid()
  {
    assert [REPEATING][..0] == [] && PAGES[0] in PAGES;
  }

  lemma RepeatingManifest()
    ensures ManifestArtifact(PAGES, 2) == Some(Page(101))
    ensures forall a :: a in PAGES ==> a.sourceId == 1 && a.revision == 7 && a.authorized
    ensures AuthorizedIds(PAGES) == {2} == RowIds([Row(2, 101)])
  {
    assert PAGES[0] in PAGES && Row(2, 101) in [Row(2, 101)];
  }

  lemma RepeatingInputIsSilent(v: Violation)
    ensures !InputsViolated(v, [REPEATING], [LIBRARY])
  {
    hide ManifestArtifact, CorpusOf, AuthorizedIds, RowIds;
    RepeatingManifest();
    NothingYet([LIBRARY]);
    assert [REPEATING][..0] == [];
    assert !SomeArtifactViolated(v, PAGES, 1, Some(7));
    assert !SomeRowViolated(v, [Row(2, 101)], PAGES, {});
    hide SomeArtifactViolated, SomeRowViolated;
    assert !ViolatedAt(v, [REPEATING], [LIBRARY], 0);
  }

  lemma RepeatingContents()
    ensures Duplicates(PAGES) == {}
  {
    assert PAGES[..1] == [Page(100)] && [Page(100)][..0] == [];
    assert Contents(PAGES) == multiset{100, 101};
  }

  lemma RepeatingAuditIsSilent(v: AuditViolation)
    ensures !AuditViolated(v, PAGES, [LIBRARY])
  {
    RepeatingContents();
    hide Duplicates;
    assert forall a :: a in PAGES ==> !Offends(v, a, LIBRARY);
  }

  lemma RepeatingPartIsSilent(v: Violation)
    ensures !AuditPart(v, ArtifactsOf([REPEATING], [LIBRARY]), [LIBRARY])
  {
    RepeatingBatch();
    hide ArtifactsOf, AuditViolated, Duplicates;
    if v.FromAudit? {
      RepeatingAuditIsSilent(v.violation);
    } else {
      RepeatingContents();
    }
  }

  /**
   A batch that is ready although two authorized artifacts share an identifier: nothing is reported, one content
   is missing from the corpus, and one artifact counts as rejected.
   */
  lemma RepeatedIdIsNotReported()
    ensures Loaded([REPEATING], [LIBRARY]) && LIBRARY.Valid() && Clean([REPEATING], [LIBRARY])
    ensures var artifacts, corpus := ArtifactsOf([REPEATING], [LIBRARY]), CorpusOf([REPEATING], [LIBRARY]);
            && !AuthorizedIdsDistinct(artifacts) && Filter(artifacts, Unauthorized) == []
            && |artifacts| - |AuthorizedIds(artifacts)| == 1
            && (exists a :: a in artifacts && a.authorized && a.id in corpus && corpus[a.id].content != a.content)
  {
    hide Loaded, CorpusOf, ArtifactsOf, InputsViolated, AuditViolated, Duplicates, AuditPart;
    RepeatingBatch();
    forall v ensures !Violated(v, [REPEATING], [LIBRARY]) {
      RepeatingInputIsSilent(v);
      RepeatingPartIsSilent(v);
    }
    assert PAGES[0] in PAGES && PAGES[1] in PAGES && PAGES[0].id == PAGES[1].id && PAGES[0] != PAGES[1];
    CorpusIdsAreAuthorizedIds([REPEATING], [LIBRARY]);
    CorpusCarriesEveryAuthorizedArtifactIff([REPEATING], [LIBRARY]);
  }
}
