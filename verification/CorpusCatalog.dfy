/** Sources, artifacts and the artifact audit (cyber_corpus_catalog.py). */
module CorpusCatalog {
  import opened Ordering

  datatype ProvenanceTier = T0_PRIMARY | T1_AUTHORITATIVE | T2_REVIEWED | T3_CONTEXT_ONLY

  datatype LicenseStatus = ALLOW_TRAINING | ALLOW_WITH_ATTRIBUTION | REVIEW_REQUIRED | EVAL_ONLY | BLOCKED

  datatype LicenseScope = UNIFORM | PER_ARTIFACT | UNKNOWN

  datatype ReviewStatus = PROPOSED | LICENSE_REVIEW | SECURITY_REVIEW | APPROVED | REJECTED | REVOKED

  datatype OverlapRisk = NO_RISK | LOW | MEDIUM | HIGH | UNKNOWN_RISK

  predicate Trainable(license: LicenseStatus) {
    license.ALLOW_TRAINING? || license.ALLOW_WITH_ATTRIBUTION?
  }

  /** A text that is absent or empty is None. */
  datatype Source = Source(
    id: Id, tier: ProvenanceTier, license: LicenseStatus, scope: LicenseScope, reference: Option<Id>,
    locator: Option<Id>,
    revision: Option<Id>, authorized: bool, overlap: OverlapRisk, review: ReviewStatus)
  {
    /** `approval_is_fail_closed`. */
    predicate Valid() {
      && (review.APPROVED? ==> reference.Some?)
      && (authorized ==>
            && Trainable(license) && !scope.UNKNOWN? && review.APPROVED? && locator.Some? && revision.Some?
            && !tier.T3_CONTEXT_ONLY? && !license.BLOCKED? && !license.EVAL_ONLY? && !overlap.HIGH?)
    }
  }

  datatype Artifact = Artifact(
    id: Id, sourceId: Id, revision: Id, content: Id, license: LicenseStatus, reference: Option<Id>, inherited: bool,
    authorized: bool, evalExclusion: bool, overlap: OverlapRisk)
  {
    /** `artifact_is_fail_closed`. */
    predicate Valid() {
      authorized ==> Trainable(license) && reference.Some? && evalExclusion && !overlap.HIGH?
    }
  }

  /** `{source.source_id: source for source in sources}`: a repeated identifier keeps its last source. */
  function SourceOf(catalog: seq<Source>, id: Id): Option<Source> {
    if catalog == [] then None else
    var last := catalog[|catalog| - 1];
    if last.id == id then Some(last) else SourceOf(catalog[..|catalog| - 1], id)
  }

  datatype AuditViolation =
    | UnknownSources | DuplicateArtifactContent
    | SourceNotAuthorized(artifactId: Id) | RevisionDiffers(artifactId: Id)
    | MustInherit(artifactId: Id) | LicenseDiffers(artifactId: Id) | ReferenceDiffers(artifactId: Id)
    | CannotInherit(artifactId: Id) | NeedsLicense(artifactId: Id) | ScopeUnresolved(artifactId: Id)

  /** What one trainable artifact is reported for against its source. */
  predicate Offends(v: AuditViolation, a: Artifact, s: Source) {
    a.authorized &&
    match v
    case UnknownSources => false
    case DuplicateArtifactContent => false
    case SourceNotAuthorized(id) => id == a.id && !s.authorized
    case RevisionDiffers(id) => id == a.id && s.authorized && s.revision != Some(a.revision)
    case MustInherit(id) => id == a.id && s.authorized && s.scope.UNIFORM? && !a.inherited
    case LicenseDiffers(id) => id == a.id && s.authorized && s.scope.UNIFORM? && a.license != s.license
    case ReferenceDiffers(id) => id == a.id && s.authorized && s.scope.UNIFORM? && a.reference != s.reference
    case CannotInherit(id) => id == a.id && s.authorized && s.scope.PER_ARTIFACT? && a.inherited
    case NeedsLicense(id) => id == a.id && s.authorized && s.scope.PER_ARTIFACT? && a.reference.None?
    case ScopeUnresolved(id) => id == a.id && s.authorized && s.scope.UNKNOWN?
  }

  function Contents(artifacts: seq<Artifact>): multiset<Id> {
    if artifacts == [] then multiset{} else
    Contents(artifacts[..|artifacts| - 1]) + multiset{artifacts[|artifacts| - 1].content}
  }

  predicate HasUnknownSource(artifacts: seq<Artifact>, catalog: seq<Source>) {
    exists a :: a in artifacts && SourceOf(catalog, a.sourceId).None?
  }

  function Duplicates(artifacts: seq<Artifact>): set<Id> {
    set d | d in Contents(artifacts) && Contents(artifacts)[d] > 1
  }

  predicate OffendsIn(v: AuditViolation, a: Artifact, catalog: seq<Source>) {
    SourceOf(catalog, a.sourceId).Some? && Offends(v, a, SourceOf(catalog, a.sourceId).value)
  }

  ghost predicate SomeOffends(v: AuditViolation, artifacts: seq<Artifact>, catalog: seq<Source>) {
    exists a :: a in artifacts && OffendsIn(v, a, catalog)
  }

  /** What an audit reports. */
  ghost predicate AuditViolated(v: AuditViolation, artifacts: seq<Artifact>, catalog: seq<Source>) {
    match v
    case UnknownSources => HasUnknownSource(artifacts, catalog)
    case DuplicateArtifactContent => Duplicates(artifacts) != {}
    case _ => SomeOffends(v, artifacts, catalog)
  }

  predicate SomeAuthorized(artifacts: seq<Artifact>) {
    exists a :: a in artifacts && a.authorized
  }

  datatype ArtifactAudit = ArtifactAudit(ready: bool, duplicates: set<Id>, violations: set<AuditViolation>)

  /** The checks on one artifact. */
  method AuditOne(a: Artifact, s: Source) returns (found: set<AuditViolation>)
    ensures forall v :: v in found <==> Offends(v, a, s)
  {
    found := {};
    if !a.authorized {
      return;
    }
    if !s.authorized {
      return {SourceNotAuthorized(a.id)};
    }
    if s.revision != Some(a.revision) {
      found := found + {RevisionDiffers(a.id)};
    }
    if s.scope.UNIFORM? {
      if !a.inherited {
        found := found + {MustInherit(a.id)};
      }
      if a.license != s.license {
        found := found + {LicenseDiffers(a.id)};
      }
      if a.reference != s.reference {
        found := found + {ReferenceDiffers(a.id)};
      }
    } else if s.scope.PER_ARTIFACT? {
      if a.inherited {
        found := found + {CannotInherit(a.id)};
      }
      if a.reference.None? {
        found := found + {NeedsLicense(a.id)};
      }
    } else {
      found := found + {ScopeUnresolved(a.id)};
    }
  }

  /** `audit_artifacts`. */
  method AuditArtifacts(artifacts: seq<Artifact>, catalog: seq<Source>) returns (audit: ArtifactAudit)
    ensures forall v :: v in audit.violations <==> AuditViolated(v, artifacts, catalog)
    ensures audit.duplicates == Duplicates(artifacts)
    ensures audit.ready <==> audit.violations == {} && SomeAuthorized(artifacts)
  {
    hide Offends, SourceOf, Contents;
    var violations: set<AuditViolation> := {};
    if HasUnknownSource(artifacts, catalog) {
      violations := {UnknownSources};
    }
    var duplicates := Duplicates(artifacts);
    if duplicates != {} {
      violations := violations + {DuplicateArtifactContent};
    }
    GeneralNeverOffends(artifacts, catalog);
    ghost var general := violations;
    var i := 0;
    while i < |artifacts|
      invariant 0 <= i <= |artifacts|
      invariant forall v :: v in violations <==> v in general || SomeOffends(v, artifacts[..i], catalog)
    {
      var a := artifacts[i];
      var source := SourceOf(catalog, a.sourceId);
      forall v
        ensures SomeOffends(v, artifacts[..i + 1], catalog)
                <==> SomeOffends(v, artifacts[..i], catalog) || OffendsIn(v, a, catalog)
      {
        OffendsStep(v, artifacts, i, catalog);
      }
      if source.Some? {
        var found := AuditOne(a, source.value);
        violations := violations + found;
      }
      i := i + 1;
    }
    assert artifacts[..i] == artifacts;
    audit := ArtifactAudit(violations == {} && SomeAuthorized(artifacts), duplicates, violations);
  }

  lemma OffendsStep(v: AuditViolation, artifacts: seq<Artifact>, i: nat, catalog: seq<Source>)
    requires i < |artifacts|
    ensures SomeOffends(v, artifacts[..i + 1], catalog)
            <==> SomeOffends(v, artifacts[..i], catalog) || OffendsIn(v, artifacts[i], catalog)
  {
    hide OffendsIn;
    assert artifacts[..i + 1] == artifacts[..i] + [artifacts[i]];
    if a :| a in artifacts[..i] && OffendsIn(v, a, catalog) {
      assert a in artifacts[..i + 1];
    }
    assert artifacts[i] in artifacts[..i + 1];
  }

  lemma GeneralNeverOffends(artifacts: seq<Artifact>, catalog: seq<Source>)
    ensures !SomeOffends(UnknownSources, artifacts, catalog)
            && !SomeOffends(DuplicateArtifactContent, artifacts, catalog)
  {
  }

  // ----- facts about the audit

  lemma {:induction false} ContentsMeaning(artifacts: seq<Artifact>, d: Id)
    ensures d in Contents(artifacts) <==> exists a :: a in artifacts && a.content == d
  {
    if artifacts != [] {
      var init, last := artifacts[..|artifacts| - 1], artifacts[|artifacts| - 1];
      assert artifacts == init + [last];
      ContentsMeaning(init, d);
      assert last in artifacts;
      if a :| a in init && a.content == d {
        assert a in artifacts;
      }
    }
  }

  ghost predicate DistinctContents(artifacts: seq<Artifact>) {
    forall i, j :: 0 <= i < j < |artifacts| ==> artifacts[i].content != artifacts[j].content
  }

  lemma DistinctStep(init: seq<Artifact>, last: Artifact)
    ensures DistinctContents(init + [last]) <==> DistinctContents(init) && last.content !in Contents(init)
  {
    hide Contents;
    var all := init + [last];
    ContentsMeaning(init, last.content);
    if DistinctContents(all) {
      forall i, j | 0 <= i < j < |init| ensures init[i].content != init[j].content {
        assert all[i].content != all[j].content;
      }
      forall i | 0 <= i < |init| ensures init[i].content != last.content {
        assert all[i].content != all[|init|].content;
      }
    }
    if DistinctContents(init) && last.content !in Contents(init) {
      forall i, j | 0 <= i < j < |all| ensures all[i].content != all[j].content {
        if j == |init| {
          assert all[i] in init;
        } else {
          assert init[i].content != init[j].content;
        }
      }
    }
  }

  /** No digest repeats exactly when different positions hold different contents. */
  lemma {:induction false} NoDuplicateContent(artifacts: seq<Artifact>)
    ensures Duplicates(artifacts) == {} <==> DistinctContents(artifacts)
  {
    if artifacts != [] {
      var n := |artifacts| - 1;
      var init, last := artifacts[..n], artifacts[n];
      NoDuplicateContent(init);
      assert artifacts == init + [last];
      DistinctStep(init, last);
      forall d
        ensures d in Duplicates(artifacts) <==> d in Duplicates(init) || (d == last.content && d in Contents(init))
      {
      }
    }
  }

  lemma {:induction false} SourceIsInCatalog(catalog: seq<Source>, id: Id)
    ensures SourceOf(catalog, id).Some?
            ==> SourceOf(catalog, id).value in catalog && SourceOf(catalog, id).value.id == id
  {
    if catalog != [] {
      SourceIsInCatalog(catalog[..|catalog| - 1], id);
    }
  }

  /** The unresolved-scope report never appears: the validator of sources rules it out. */
  lemma ScopeIsAlwaysResolved(artifacts: seq<Artifact>, catalog: seq<Source>, id: Id)
    requires forall s :: s in catalog ==> s.Valid()
    ensures !AuditViolated(ScopeUnresolved(id), artifacts, catalog)
  {
    forall a | a in artifacts ensures !OffendsIn(ScopeUnresolved(id), a, catalog) {
      SourceIsInCatalog(catalog, a.sourceId);
    }
  }
}
