/** Delegation chains (authority_policy.py). */
module AuthorityPolicy {
  import opened Ordering

  /** Scopes and audiences are only ever used as sets; times are points on one clock. */
  datatype Grant = Grant(
    issuer: Id, subject: Id, scopes: set<Id>, audience: set<Id>, notBefore: Option<int>, expiresAt: Option<int>,
    noFurtherDelegation: bool)

  /** An absent or empty delegate is None. */
  datatype Authority = Authority(principal: Id, delegate: Option<Id>, scopes: set<Id>)

  datatype Decision = Decision(allowed: bool, effectiveScopes: set<Id>, chainDepth: nat)

  datatype PolicyError =
    | TOO_DEEP | WRONG_ROOT | BROKEN_LINK | DELEGATION_FORBIDDEN | NOT_ACTIVE_YET | EXPIRED | AUDIENCE_MISMATCH
    | WIDENED | WRONG_DELEGATE

  predicate Started(g: Grant, now: int) {
    g.notBefore.Some? ==> g.notBefore.value <= now
  }

  predicate Unexpired(g: Grant, now: int) {
    g.expiresAt.Some? ==> now < g.expiresAt.value
  }

  predicate Addressed(g: Grant, audience: Option<Id>) {
    audience.Some? && g.audience != {} ==> audience.value in g.audience
  }

  function ActiveDelegate(authority: Authority): Id {
    if authority.delegate.Some? then authority.delegate.value else authority.principal
  }

  /** Grant b may follow grant a. */
  predicate Follows(b: Grant, a: Grant) {
    b.issuer == a.subject && !a.noFurtherDelegation && b.scopes <= a.scopes
  }

  predicate InForce(g: Grant, audience: Option<Id>, now: int) {
    Started(g, now) && Unexpired(g, now) && Addressed(g, audience)
  }

  ghost predicate Chained(grants: seq<Grant>) {
    forall i :: 0 < i < |grants| ==> Follows(grants[i], grants[i - 1])
  }

  /** A chain that leads from the principal to the active delegate, every grant in force and none widening another. */
  ghost predicate Accepted(maxDepth: nat, authority: Authority, grants: seq<Grant>, audience: Option<Id>, now: int)
    requires grants != []
  {
    && |grants| <= maxDepth
    && grants[0].issuer == authority.principal
    && grants[|grants| - 1].subject == ActiveDelegate(authority)
    && Chained(grants)
    && forall i :: 0 <= i < |grants| ==> InForce(grants[i], audience, now)
  }

  function EffectiveScopes(authority: Authority, grants: seq<Grant>): set<Id>
    requires grants != []
  {
    var leaf := grants[|grants| - 1].scopes;
    if authority.scopes != {} then leaf * authority.scopes else leaf
  }

  function DecisionOf(authority: Authority, grants: seq<Grant>, required: set<Id>): Decision
    requires grants != []
  {
    var effective := EffectiveScopes(authority, grants);
    Decision(required <= effective, effective, |grants|)
  }

  /** What each refusal says about the chain. */
  ghost predicate Justified(error: PolicyError, maxDepth: nat, authority: Authority, grants: seq<Grant>,
                            audience: Option<Id>, now: int)
    requires grants != []
  {
    match error
    case TOO_DEEP => |grants| > maxDepth
    case WRONG_ROOT => grants[0].issuer != authority.principal
    case BROKEN_LINK => exists i :: 0 < i < |grants| && grants[i].issuer != grants[i - 1].subject
    case DELEGATION_FORBIDDEN => exists i :: 0 <= i < |grants| - 1 && grants[i].noFurtherDelegation
    case NOT_ACTIVE_YET => exists i :: 0 <= i < |grants| && !Started(grants[i], now)
    case EXPIRED => exists i :: 0 <= i < |grants| && !Unexpired(grants[i], now)
    case AUDIENCE_MISMATCH => exists i :: 0 <= i < |grants| && !Addressed(grants[i], audience)
    case WIDENED => exists i :: 0 < i < |grants| && !(grants[i].scopes <= grants[i - 1].scopes)
    case WRONG_DELEGATE => grants[|grants| - 1].subject != ActiveDelegate(authority)
  }

  /** `_validate_time` and then `_validate_audience`. */
  method ValidateGrant(g: Grant, audience: Option<Id>, now: int) returns (error: Option<PolicyError>)
    ensures error.None? <==> InForce(g, audience, now)
    ensures error == Some(NOT_ACTIVE_YET) <==> !Started(g, now)
    ensures error == Some(EXPIRED) <==> Started(g, now) && !Unexpired(g, now)
    ensures error.Some? ==> error.value in {NOT_ACTIVE_YET, EXPIRED, AUDIENCE_MISMATCH}
  {
    if g.notBefore.Some? && now < g.notBefore.value {
      return Some(NOT_ACTIVE_YET);
    }
    if g.expiresAt.Some? && now >= g.expiresAt.value {
      return Some(EXPIRED);
    }
    if audience.Some? && g.audience != {} && audience.value !in g.audience {
      return Some(AUDIENCE_MISMATCH);
    }
    error := None;
  }

  /** `AuthorityPolicy.evaluate`; the policy and the chain objects insist on a positive depth and a non-empty chain. */
  method Evaluate(maxDepth: nat, authority: Authority, grants: seq<Grant>, required: set<Id>, audience: Option<Id>,
                  now: int)
    returns (result: Result<Decision, PolicyError>)
    requires maxDepth >= 1 && grants != []
    ensures result.Ok? <==> Accepted(maxDepth, authority, grants, audience, now)
    ensures result.Ok? ==> result.value == DecisionOf(authority, grants, required)
    ensures result.Err? ==> Justified(result.error, maxDepth, authority, grants, audience, now)
  {
    if |grants| > maxDepth {
      return Err(TOO_DEEP);
    }
    var root := grants[0];
    if root.issuer != authority.principal {
      return Err(WRONG_ROOT);
    }
    var parentScopes := root.scopes;
    var invalid := ValidateGrant(root, audience, now);
    if invalid.Some? {
      return Err(invalid.value);
    }
    var i := 1;
    while i < |grants|
      invariant 1 <= i <= |grants|
      invariant parentScopes == grants[i - 1].scopes
      invariant Chained(grants[..i])
      invariant forall k :: 0 <= k < i ==> InForce(grants[k], audience, now)
    {
      var child, parent := grants[i], grants[i - 1];
      if child.issuer != parent.subject {
        return Err(BROKEN_LINK);
      }
      if parent.noFurtherDelegation {
        return Err(DELEGATION_FORBIDDEN);
      }
      invalid := ValidateGrant(child, audience, now);
      if invalid.Some? {
        return Err(invalid.value);
      }
      if !(child.scopes <= parentScopes) {
        return Err(WIDENED);
      }
      parentScopes := child.scopes;
      i := i + 1;
    }
    assert grants[..i] == grants;
    var leaf := grants[|grants| - 1];
    if leaf.subject != ActiveDelegate(authority) {
      return Err(WRONG_DELEGATE);
    }
    var effective := if authority.scopes != {} then parentScopes * authority.scopes else parentScopes;
    result := Ok(Decision(required <= effective, effective, |grants|));
  }

  // ----- what acceptance guarantees

  lemma {:induction false} ScopesOnlyShrink(grants: seq<Grant>, i: nat, j: nat)
    requires Chained(grants) && i <= j < |grants|
    ensures grants[j].scopes <= grants[i].scopes
  {
    if i < j {
      ScopesOnlyShrink(grants, i, j - 1);
      assert Follows(grants[j], grants[j - 1]);
    }
  }

  /**
   An allowed request asks only for scopes that every grant of the chain confers and that a non-empty envelope
   names.
   */
  lemma AllowedIsConferredByEveryGrant(
    maxDepth: nat, authority: Authority, grants: seq<Grant>, required: set<Id>, audience: Option<Id>, now: int, i: nat)
    requires grants != [] && Accepted(maxDepth, authority, grants, audience, now) && i < |grants|
    ensures EffectiveScopes(authority, grants) <= grants[i].scopes
    ensures authority.scopes != {} ==> EffectiveScopes(authority, grants) <= authority.scopes
    ensures DecisionOf(authority, grants, required).allowed ==> required <= grants[i].scopes
  {
    ScopesOnlyShrink(grants, i, |grants| - 1);
  }

  /**
   The effective scopes of an accepted chain are exactly those that every grant confers and that the envelope names,
   an empty envelope naming all; a request is allowed iff it asks for no others.
   */
  lemma EffectiveScopesMeaning(
    maxDepth: nat, authority: Authority, grants: seq<Grant>, required: set<Id>, audience: Option<Id>, now: int)
    requires grants != [] && Accepted(maxDepth, authority, grants, audience, now)
    ensures var decision := DecisionOf(authority, grants, required);
            && (forall scope :: scope in decision.effectiveScopes <==>
                  && (forall i :: 0 <= i < |grants| ==> scope in grants[i].scopes)
                  && (authority.scopes == {} || scope in authority.scopes))
            && (decision.allowed <==> forall scope :: scope in required ==> scope in decision.effectiveScopes)
            && decision.chainDepth == |grants|
  {
    forall i | 0 <= i < |grants| ensures grants[|grants| - 1].scopes <= grants[i].scopes {
      ScopesOnlyShrink(grants, i, |grants| - 1);
    }
  }

  /**
   The shortest chain: one grant from the principal to the delegate, the principal itself if there is none, from its
   start until before its expiry, and for its audience where both sides name one.
   */
  lemma SingleGrantIff(maxDepth: nat, authority: Authority, g: Grant, audience: Option<Id>, now: int)
    requires maxDepth >= 1
    ensures Accepted(maxDepth, authority, [g], audience, now) <==>
              && g.issuer == authority.principal
              && g.subject == (if authority.delegate == None then authority.principal else authority.delegate.value)
              && (g.notBefore == None || g.notBefore.value <= now)
              && (g.expiresAt == None || now < g.expiresAt.value)
              && (audience == None || g.audience == {} || audience.value in g.audience)
  {
    assert [g][0] == g;
  }

  /** Every refusal names a defect: no accepted chain has one. */
  lemma NoDefectWhenAccepted(
    error: PolicyError, maxDepth: nat, authority: Authority, grants: seq<Grant>, audience: Option<Id>, now: int)
    requires grants != [] && Accepted(maxDepth, authority, grants, audience, now)
    ensures !Justified(error, maxDepth, authority, grants, audience, now)
  {
    forall i | 0 <= i < |grants| - 1 ensures !grants[i].noFurtherDelegation {
      var next := i + 1;
      assert Follows(grants[next], grants[next - 1]);
    }
  }

  /**
   Chains compose: a chain is accepted exactly when its two halves are, the first ending at the delegate where the
   second starts, the depth allows both, and the seam neither widens nor follows a final grant.
   */
  lemma ChainsCompose(maxDepth: nat, authority: Authority, a: seq<Grant>, b: seq<Grant>, audience: Option<Id>, now: int)
    requires a != [] && b != []
    ensures var middle := a[|a| - 1].subject;
            Accepted(maxDepth, authority, a + b, audience, now)
            <==> |a| + |b| <= maxDepth
                 && Accepted(maxDepth, authority.(delegate := Some(middle)), a, audience, now)
                 && Accepted(maxDepth, authority.(principal := middle, delegate := Some(ActiveDelegate(authority))), b,
                             audience, now)
                 && b[0].scopes <= a[|a| - 1].scopes && !a[|a| - 1].noFurtherDelegation
  {
    var all := a + b;
    hide Follows, InForce;
    assert forall i :: 0 <= i < |a| ==> all[i] == a[i];
    assert forall i :: 0 <= i < |b| ==> all[|a| + i] == b[i];
    ChainedHalves(a, b);
    SeamNames(a, b);
    if forall i :: 0 <= i < |all| ==> InForce(all[i], audience, now) {
      forall i | 0 <= i < |b| ensures InForce(b[i], audience, now) {
        assert InForce(all[|a| + i], audience, now);
      }
      forall i | 0 <= i < |a| ensures InForce(a[i], audience, now) {
        assert InForce(all[i], audience, now);
      }
    }
  }

  lemma SeamNames(a: seq<Grant>, b: seq<Grant>)
    requires a != [] && b != []
    ensures Follows(b[0], a[|a| - 1]) <==>
              && b[0].issuer == a[|a| - 1].subject && b[0].scopes <= a[|a| - 1].scopes
              && !a[|a| - 1].noFurtherDelegation
  {
  }

  lemma ChainedHalves(a: seq<Grant>, b: seq<Grant>)
    requires a != [] && b != []
    ensures Chained(a + b) <==> Chained(a) && Chained(b) && Follows(b[0], a[|a| - 1])
  {
    hide Follows;
    var all := a + b;
    if Chained(all) {
      assert Follows(all[|a|], all[|a| - 1]);
      forall i | 0 < i < |a| ensures Follows(a[i], a[i - 1]) {
        assert Follows(all[i], all[i - 1]);
      }
      forall i | 0 < i < |b| ensures Follows(b[i], b[i - 1]) {
        assert Follows(all[|a| + i], all[|a| + i - 1]);
      }
    }
    if Chained(a) && Chained(b) && Follows(b[0], a[|a| - 1]) {
      forall i | 0 < i < |all| ensures Follows(all[i], all[i - 1]) {
        if i < |a| {
          assert Follows(a[i], a[i - 1]);
        } else if i > |a| {
          assert Follows(b[i - |a|], b[i - |a| - 1]);
        }
      }
    }
  }

  /**
   Acceptance is closed under prefixes: cut short, a chain is accepted for the delegate it then ends at, and
   confers at least the scopes of the whole.
   */
  lemma PrefixIsAccepted(
    maxDepth: nat, authority: Authority, grants: seq<Grant>, required: set<Id>, audience: Option<Id>, now: int, k: nat)
    requires 0 < k <= |grants| && Accepted(maxDepth, authority, grants, audience, now)
    ensures var shorter := authority.(delegate := Some(grants[k - 1].subject));
            && Accepted(maxDepth, shorter, grants[..k], audience, now)
            && EffectiveScopes(authority, grants) <= EffectiveScopes(shorter, grants[..k])
            && (DecisionOf(authority, grants, required).allowed ==> DecisionOf(shorter, grants[..k], required).allowed)
  {
    ScopesOnlyShrink(grants, k - 1, |grants| - 1);
    if k < |grants| {
      assert grants == grants[..k] + grants[k..];
      ChainsCompose(maxDepth, authority, grants[..k], grants[k..], audience, now);
    } else {
      assert grants[..k] == grants;
    }
  }

  /** A chain accepted at two times is accepted, with the same decision, at every time between them. */
  lemma AcceptanceIsConvexInTime(
    maxDepth: nat, authority: Authority, grants: seq<Grant>, audience: Option<Id>, early: int, now: int, late: int)
    requires grants != [] && early <= now <= late
    requires Accepted(maxDepth, authority, grants, audience, early)
             && Accepted(maxDepth, authority, grants, audience, late)
    ensures Accepted(maxDepth, authority, grants, audience, now)
  {
    forall i | 0 <= i < |grants| ensures InForce(grants[i], audience, now) {
      assert InForce(grants[i], audience, early) && InForce(grants[i], audience, late);
    }
  }

  /** Leaving the audience out asks for less: whatever is accepted for some audience is accepted without one. */
  lemma NoAudienceIsWeakest(maxDepth: nat, authority: Authority, grants: seq<Grant>, audience: Option<Id>, now: int)
    requires grants != [] && Accepted(maxDepth, authority, grants, audience, now)
    ensures Accepted(maxDepth, authority, grants, None, now)
  {
    forall i | 0 <= i < |grants| ensures InForce(grants[i], None, now) {
      assert InForce(grants[i], audience, now);
    }
  }
}
