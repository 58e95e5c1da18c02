/** What the overlap of two components measures, and when a component simply continues (attack_world_lines.py). */
module WorldLineScores {
  import opened Ordering
  import opened Reachability
  import opened AttackProgression
  import opened WorldLineGroups
  import opened WorldLineTick
  import opened WorldLineFacts
  import opened WorldLines
  import opened WorldLineLaws

  // ----- shares

  /** u is the share that k makes of m. */
  ghost predicate IsShare(u: real, k: nat, m: nat) {
    u * (m as real) == k as real && 0.0 <= u <= 1.0 && (m == 0 ==> u == 0.0)
  }

  /** x is the mean of u and v with weights w and w'. */
  ghost predicate IsMean(x: real, w: real, u: real, w': real, v: real) {
    Spreads(x, w + w', Part(w, u) + Part(w', v))
  }

  function Part(weight: real, share: real): real {
    weight * share
  }

  /** A sum that comes to x for each unit of the total. */
  ghost predicate Spreads(x: real, total: real, sum: real) {
    total * x == sum
  }

  /** The share two sets have in common, of what is in either: times the union it gives the intersection. */
  lemma JaccardMeaning(a: set<Id>, b: set<Id>)
    ensures IsShare(Jaccard(a, b), |a * b|, |a + b|)
  {
    JaccardInRange(a, b);
    if a + b == {} {
      assert a * b == {};
    } else {
      assert |a + b| > 0;
    }
  }

  lemma FullJaccardIff(a: set<Id>, b: set<Id>)
    ensures Jaccard(a, b) == 1.0 <==> a == b != {}
  {
    JaccardMeaning(a, b);
    if Jaccard(a, b) == 1.0 {
      WholeUnion(a, b);
    }
    if a == b != {} {
      SelfJaccard(a);
    }
  }

  lemma WholeUnion(a: set<Id>, b: set<Id>)
    requires |a * b| == |a + b|
    ensures a == b
  {
    var rest := (a + b) - a * b;
    assert a + b == a * b + rest;
    assert |rest| == 0;
    assert forall x :: x in a || x in b ==> x !in rest;
  }

  /** The overlap is the mean of the two shares by weight; the cap at 1 never acts. */
  lemma OverlapIsMean(a: ComponentReport, b: ComponentReport, policy: Policy)
    requires ValidPolicy(policy)
    ensures IsMean(OverlapScore(a, b, policy), policy.entityWeight, Jaccard(a.entityIds, b.entityIds),
                   policy.relationWeight, Jaccard(a.activeRelationIds, b.activeRelationIds))
  {
    JaccardInRange(a.entityIds, b.entityIds);
    JaccardInRange(a.activeRelationIds, b.activeRelationIds);
    hide Jaccard, WeightedMean, IsMean;
    MeanInUnit(policy, Jaccard(a.entityIds, b.entityIds), Jaccard(a.activeRelationIds, b.activeRelationIds));
  }

  lemma MeanInUnit(policy: Policy, u: real, v: real)
    requires ValidPolicy(policy) && 0.0 <= u <= 1.0 && 0.0 <= v <= 1.0
    ensures WeightedMean(policy, u, v) <= 1.0
    ensures IsMean(WeightedMean(policy, u, v), policy.entityWeight, u, policy.relationWeight, v)
  {
    MeanIs(policy, u, v);
    hide WeightedMean, IsMean;
    FullMeanIff(policy.entityWeight, u, policy.relationWeight, v, WeightedMean(policy, u, v));
  }

  lemma MeanIs(policy: Policy, u: real, v: real)
    requires ValidPolicy(policy)
    ensures IsMean(WeightedMean(policy, u, v), policy.entityWeight, u, policy.relationWeight, v)
  {
    Divided(policy.entityWeight * u + policy.relationWeight * v, policy.entityWeight + policy.relationWeight);
  }

  lemma AtMost(x: real, total: real, w: real, a: real, w': real, b: real)
    requires total == w + w' && total > 0.0 && Spreads(x, total, a + b) && a <= w && b <= w'
    ensures x <= 1.0
    ensures x == 1.0 <==> a == w && b == w'
  {
    Scaled(x, 1.0, total);
  }

  lemma Divided(x: real, y: real)
    requires y > 0.0
    ensures (x / y) * y == x
  {
  }

  lemma Scaled(a: real, b: real, total: real)
    requires total > 0.0
    ensures a <= b <==> total * a <= total * b
    ensures a == b <==> total * a == total * b
  {
    assert total * (b - a) == total * b - total * a;
    assert a < b ==> total * (b - a) > 0.0;
    assert a > b ==> total * (a - b) > 0.0;
  }

  /** In counts: weights times what the components share, over what they have together. */
  lemma OverlapInCounts(a: ComponentReport, b: ComponentReport, policy: Policy)
    requires ValidPolicy(policy)
    ensures MeanInCounts(OverlapScore(a, b, policy), policy, |a.entityIds * b.entityIds|, |a.entityIds + b.entityIds|,
                         |a.activeRelationIds * b.activeRelationIds|, |a.activeRelationIds + b.activeRelationIds|)
  {
    JaccardMeaning(a.entityIds, b.entityIds);
    JaccardMeaning(a.activeRelationIds, b.activeRelationIds);
    OverlapIsMean(a, b, policy);
    hide Jaccard, OverlapScore, IsShare, IsMean, MeanInCounts;
    MeanOfShares(policy, OverlapScore(a, b, policy),
                 Jaccard(a.entityIds, b.entityIds), |a.entityIds * b.entityIds|, |a.entityIds + b.entityIds|,
                 Jaccard(a.activeRelationIds, b.activeRelationIds), |a.activeRelationIds * b.activeRelationIds|,
                 |a.activeRelationIds + b.activeRelationIds|);
  }

  /** x is the overlap of components that share k of m entities and l of n active relations. */
  ghost predicate MeanInCounts(x: real, policy: Policy, k: nat, m: nat, l: nat, n: nat) {
    x * (policy.entityWeight + policy.relationWeight) * ((m * n) as real)
    == policy.entityWeight * ((k * n) as real) + policy.relationWeight * ((l * m) as real)
  }

  lemma MeanOfShares(policy: Policy, x: real, u: real, k: nat, m: nat, v: real, l: nat, n: nat)
    requires IsMean(x, policy.entityWeight, u, policy.relationWeight, v) && IsShare(u, k, m) && IsShare(v, l, n)
    ensures MeanInCounts(x, policy, k, m, l, n)
  {
    var a, b := m as real, n as real;
    Products(m, n);
    Products(k, n);
    Products(l, m);
    Expand(policy.entityWeight, u, a, b);
    Expand(policy.relationWeight, v, b, a);
  }

  lemma Products(a: nat, b: nat)
    ensures (a * b) as real == (a as real) * (b as real)
  {
  }

  lemma Expand(w: real, u: real, m: real, n: real)
    ensures (w * u) * (m * n) == w * ((u * m) * n)
  {
  }

  /** The overlap is full exactly when every side that has weight agrees and is not empty. */
  lemma FullOverlapIff(a: ComponentReport, b: ComponentReport, policy: Policy)
    requires ValidPolicy(policy)
    ensures OverlapScore(a, b, policy) == 1.0 <==>
              && (policy.entityWeight > 0.0 ==> a.entityIds == b.entityIds != {})
              && (policy.relationWeight > 0.0 ==> a.activeRelationIds == b.activeRelationIds != {})
  {
    FullJaccardIff(a.entityIds, b.entityIds);
    FullJaccardIff(a.activeRelationIds, b.activeRelationIds);
    JaccardInRange(a.entityIds, b.entityIds);
    JaccardInRange(a.activeRelationIds, b.activeRelationIds);
    OverlapIsMean(a, b, policy);
    hide Jaccard, OverlapScore, IsMean;
    FullMeanIff(policy.entityWeight, Jaccard(a.entityIds, b.entityIds), policy.relationWeight,
                Jaccard(a.activeRelationIds, b.activeRelationIds), OverlapScore(a, b, policy));
  }

  lemma FullMeanIff(w: real, u: real, w': real, v: real, mean: real)
    requires 0.0 <= u <= 1.0 && 0.0 <= v <= 1.0 && w >= 0.0 && w' >= 0.0 && w + w' > 0.0
    requires IsMean(mean, w, u, w', v)
    ensures mean <= 1.0
    ensures mean == 1.0 <==> (w > 0.0 ==> u == 1.0) && (w' > 0.0 ==> v == 1.0)
  {
    hide Spreads, Part;
    Missing(w, u);
    Missing(w', v);
    AtMost(mean, w + w', w, Part(w, u), w', Part(w', v));
  }

  lemma Missing(w: real, u: real)
    requires 0.0 <= u <= 1.0 && w >= 0.0
    ensures Part(w, u) <= w
    ensures Part(w, u) == w <==> (w > 0.0 ==> u == 1.0)
  {
    if w > 0.0 {
      Scaled(u, 1.0, w);
    }
  }

  /** Components with the same entities and no common relation overlap by the share of the entity weight. */
  lemma SameEntitiesOverlap(a: ComponentReport, b: ComponentReport, policy: Policy)
    requires ValidPolicy(policy) && a.entityIds == b.entityIds != {} && a.activeRelationIds !! b.activeRelationIds
    ensures OverlapScore(a, b, policy) == policy.entityWeight / (policy.entityWeight + policy.relationWeight)
  {
    SelfJaccard(a.entityIds);
    DisjointJaccard(a.activeRelationIds, b.activeRelationIds);
    OverlapIsMean(a, b, policy);
    hide Jaccard, OverlapScore, IsMean;
    OneSided(policy, OverlapScore(a, b, policy), 1.0, 0.0);
  }

  lemma OneSided(policy: Policy, x: real, u: real, v: real)
    requires ValidPolicy(policy) && IsMean(x, policy.entityWeight, u, policy.relationWeight, v)
    ensures u == 1.0 && v == 0.0 ==> x == policy.entityWeight / (policy.entityWeight + policy.relationWeight)
    ensures u == 0.0 && v == 1.0 ==> x == policy.relationWeight / (policy.entityWeight + policy.relationWeight)
  {
    var total := policy.entityWeight + policy.relationWeight;
    Divided(policy.entityWeight, total);
    Divided(policy.relationWeight, total);
    Scaled(x, policy.entityWeight / total, total);
    Scaled(x, policy.relationWeight / total, total);
  }

  /** Components with the same active relations and no common entity overlap by the share of the relation weight. */
  lemma SameRelationsOverlap(a: ComponentReport, b: ComponentReport, policy: Policy)
    requires ValidPolicy(policy) && a.entityIds !! b.entityIds && a.activeRelationIds == b.activeRelationIds != {}
    ensures OverlapScore(a, b, policy) == policy.relationWeight / (policy.entityWeight + policy.relationWeight)
  {
    DisjointJaccard(a.entityIds, b.entityIds);
    SelfJaccard(a.activeRelationIds);
    OverlapIsMean(a, b, policy);
    hide Jaccard, OverlapScore, IsMean;
    OneSided(policy, OverlapScore(a, b, policy), 0.0, 1.0);
  }

  /** Sharing more out of as much. */
  ghost predicate SharesMore(a: set<Id>, b: set<Id>, a': set<Id>, b': set<Id>) {
    |a + b| == |a' + b'| && |a * b| < |a' * b'|
  }

  ghost predicate SharesAlike(a: set<Id>, b: set<Id>, a': set<Id>, b': set<Id>) {
    |a + b| == |a' + b'| && |a * b| == |a' * b'|
  }

  lemma JaccardRises(a: set<Id>, b: set<Id>, a': set<Id>, b': set<Id>)
    ensures SharesMore(a, b, a', b') ==> Jaccard(a, b) < Jaccard(a', b')
    ensures SharesAlike(a, b, a', b') ==> Jaccard(a, b) == Jaccard(a', b')
  {
    JaccardMeaning(a, b);
    JaccardMeaning(a', b');
    SubsetCardinality(a' * b', a' + b');
    SubsetCardinality(a * b, a + b);
    if |a + b| == |a' + b'| && |a + b| > 0 {
      Scaled(Jaccard(a', b'), Jaccard(a, b), |a + b| as real);
    }
  }

  /**
   With the union as large, the overlap rises strictly with what two components share: with the entities when these
   have weight, with the relations when those have.
   */
  lemma OverlapRises(a: ComponentReport, b: ComponentReport, a': ComponentReport, b': ComponentReport, policy: Policy)
    requires ValidPolicy(policy)
    ensures SharesMore(a.entityIds, b.entityIds, a'.entityIds, b'.entityIds)
            && SharesAlike(a.activeRelationIds, b.activeRelationIds, a'.activeRelationIds, b'.activeRelationIds)
            && policy.entityWeight > 0.0
            ==> OverlapScore(a, b, policy) < OverlapScore(a', b', policy)
    ensures SharesAlike(a.entityIds, b.entityIds, a'.entityIds, b'.entityIds)
            && SharesMore(a.activeRelationIds, b.activeRelationIds, a'.activeRelationIds, b'.activeRelationIds)
            && policy.relationWeight > 0.0
            ==> OverlapScore(a, b, policy) < OverlapScore(a', b', policy)
  {
    JaccardRises(a.entityIds, b.entityIds, a'.entityIds, b'.entityIds);
    JaccardRises(a.activeRelationIds, b.activeRelationIds, a'.activeRelationIds, b'.activeRelationIds);
    OverlapIsMean(a, b, policy);
    OverlapIsMean(a', b', policy);
    hide Jaccard, OverlapScore, SharesMore, SharesAlike, IsMean;
    MeanRises(policy, Jaccard(a.entityIds, b.entityIds), Jaccard(a.activeRelationIds, b.activeRelationIds),
              Jaccard(a'.entityIds, b'.entityIds), Jaccard(a'.activeRelationIds, b'.activeRelationIds),
              OverlapScore(a, b, policy), OverlapScore(a', b', policy));
  }

  lemma MeanRises(policy: Policy, u: real, v: real, u': real, v': real, mean: real, mean': real)
    requires ValidPolicy(policy)
    requires IsMean(mean, policy.entityWeight, u, policy.relationWeight, v)
    requires IsMean(mean', policy.entityWeight, u', policy.relationWeight, v')
    ensures u < u' && v == v' && policy.entityWeight > 0.0 ==> mean < mean'
    ensures u == u' && v < v' && policy.relationWeight > 0.0 ==> mean < mean'
  {
    if v == v' && policy.entityWeight > 0.0 && u < u' {
      SideRises(policy.entityWeight, u, u', Part(policy.relationWeight, v), mean, mean',
                policy.entityWeight + policy.relationWeight);
    }
    if u == u' && policy.relationWeight > 0.0 && v < v' {
      SideRises(policy.relationWeight, v, v', Part(policy.entityWeight, u), mean, mean',
                policy.entityWeight + policy.relationWeight);
    }
  }

  lemma SideRises(w: real, u: real, u': real, rest: real, mean: real, mean': real, total: real)
    requires w > 0.0 && u < u' && total > 0.0
    requires Spreads(mean, total, Part(w, u) + rest) && Spreads(mean', total, Part(w, u') + rest)
    ensures mean < mean'
  {
    Scaled(u', u, w);
    SumRises(mean, mean', total, Part(w, u) + rest, Part(w, u') + rest);
  }

  lemma SumRises(mean: real, mean': real, total: real, sum: real, sum': real)
    requires total > 0.0 && Spreads(mean, total, sum) && Spreads(mean', total, sum') && sum < sum'
    ensures mean < mean'
  {
    Scaled(mean', mean, total);
  }

  // ----- when a pair of components continues

  /** Components p and c are linked to nothing but possibly each other. */
  ghost predicate Alone(x: TickContext, p: nat, c: nat)
    requires x.Valid()
  {
    && p < |x.step.previous| && c < |x.step.current|
    && (forall q: nat :: q != p ==> (q, c) !in x.step.Edges())
    && (forall d: nat :: d != c ==> (p, d) !in x.step.Edges())
  }

  lemma AloneTogether(x: TickContext, p: nat, c: nat)
    requires x.Valid() && Alone(x, p, c) && (p, c) in x.step.Edges()
    ensures x.Cohort(Prev(p)) == Group({p}, {c}) && x.Cohort(Curr(c)) == Group({p}, {c})
  {
    GraphIsSymmetric(x);
    EdgeReaches(x, p, c);
    hide x.Graph, Step.Edges, Step.Linked;
    var pair := {Prev(p), Curr(c)};
    forall n, m | n in pair && m in Neighbours(x.Graph(), n) ensures m in pair {
      assert Joined(x.step.Edges(), n, m);
    }
    SearchIsExact(x.Graph(), Prev(p), pair);
    CohortMeaning(x, Prev(p));
    SameMembersSameGroup(x.Cohort(Prev(p)), Group({p}, {c}));
    assert Has(x.Cohort(Prev(p)), Curr(c));
    CohortOfMember(x, Prev(p), Curr(c));
  }

  lemma AloneApart(x: TickContext, p: nat, c: nat)
    requires x.Valid() && Alone(x, p, c) && (p, c) !in x.step.Edges()
    ensures x.TransitionOf(Prev(p)).kind == ENDED && x.TransitionOf(Curr(c)).kind == NEW
  {
    GraphIsSymmetric(x);
    hide x.Graph, Step.Edges, Step.Linked;
    forall n, m | (n == Prev(p) || n == Curr(c)) ensures m !in Neighbours(x.Graph(), n) {
      assert Joined(x.step.Edges(), n, m) ==> (n == Prev(p) && m.Curr?) || (n == Curr(c) && m.Prev?);
    }
    NoNeighbours(x, Prev(p));
    NoNeighbours(x, Curr(c));
  }

  lemma LinkedHasNeighbour(x: TickContext, n: Node)
    requires x.Valid()
    ensures n in x.Graph() ==> exists m :: m in Neighbours(x.Graph(), n)
  {
    GraphIsSymmetric(x);
    hide x.Graph;
    if n in x.Graph() {
      var m :| m in x.Graph()[n];
      assert m in Neighbours(x.Graph(), n);
    }
  }

  lemma NoNeighbours(x: TickContext, n: Node)
    requires x.Valid() && x.IsNode(n) && forall m :: m !in Neighbours(x.Graph(), n)
    ensures x.TransitionOf(n).kind == if n.Prev? then ENDED else NEW
  {
    GraphIsSymmetric(x);
    hide x.Graph;
    LinkedHasNeighbour(x, n);
    UnlinkedIsAlone(x, n);
  }

  /**
   A previous and a current component that have nothing else to be linked to: the line continues iff their overlap
   reaches the threshold, is rerouted iff only the bonus for a shared anchor lifts it there, and otherwise the one ends
   and the other is new. Continued or rerouted, the current component carries the line.
   */
  lemma PairContinuesIff(x: TickContext, p: nat, c: nat)
    requires x.Valid() && ValidPolicy(x.step.policy) && Alone(x, p, c)
    ensures var overlap := OverlapScore(x.step.previous[p], x.step.current[c], x.step.policy);
            var lifted := x.step.SharedAnchors(p, c) != {}
                          && overlap + x.step.policy.anchorBonus >= x.step.policy.minOverlap;
            var kind := x.TransitionOf(Prev(p)).kind;
            && (kind == CONTINUED <==> overlap >= x.step.policy.minOverlap)
            && (kind == REROUTED <==> overlap < x.step.policy.minOverlap && lifted)
            && (kind == ENDED <==> overlap < x.step.policy.minOverlap && !lifted)
            && (kind != ENDED ==> x.NextLine(c) == x.lines[p])
            && (kind == ENDED <==> x.TransitionOf(Curr(c)).kind == NEW)
            && (kind == CONTINUED <==> x.TransitionOf(Curr(c)).kind == CONTINUED)
  {
    assert p < |x.step.previous| && c < |x.step.current| && x.IsNode(Prev(p)) && x.IsNode(Curr(c));
    hide x.TransitionOf, x.NextLine, Step.Edges, Step.AnchorOnly, Step.SharedAnchors, Alone, OverlapScore, x.IsNode;
    LinkedByOverlap(x, p, c);
    if (p, c) in x.step.Edges() {
      PairTogether(x, p, c);
    } else {
      AloneApart(x, p, c);
    }
  }

  lemma LinkedByOverlap(x: TickContext, p: nat, c: nat)
    requires x.Valid() && ValidPolicy(x.step.policy) && p < |x.step.previous| && c < |x.step.current|
    ensures var overlap := OverlapScore(x.step.previous[p], x.step.current[c], x.step.policy);
            var lifted := x.step.SharedAnchors(p, c) != {}
                          && overlap + x.step.policy.anchorBonus >= x.step.policy.minOverlap;
            && ((p, c) in x.step.Edges() <==> overlap >= x.step.policy.minOverlap || lifted)
            && (x.step.AnchorOnly(p, c) <==> overlap < x.step.policy.minOverlap && lifted)
  {
    OverlapInRange(x.step.previous[p], x.step.current[c], x.step.policy);
    hide OverlapScore;
  }

  lemma PairTogether(x: TickContext, p: nat, c: nat)
    requires x.Valid() && Alone(x, p, c) && (p, c) in x.step.Edges()
    ensures x.TransitionOf(Prev(p)).kind == if x.step.AnchorOnly(p, c) then REROUTED else CONTINUED
    ensures x.TransitionOf(Curr(c)).kind == x.TransitionOf(Prev(p)).kind
    ensures x.NextLine(c) == x.lines[p]
  {
    AloneTogether(x, p, c);
    KindOfPair(x, p, c);
    OnlyMember({p}, p);
    hide x.TransitionOf, x.Cohort, Alone, Step.AnchorOnly;
  }

  lemma KindOfPair(x: TickContext, p: nat, c: nat)
    requires x.Valid() && (p, c) in x.step.Edges()
    requires x.Cohort(Prev(p)) == Group({p}, {c}) && x.Cohort(Curr(c)) == Group({p}, {c})
    ensures x.TransitionOf(Prev(p)).kind == if x.step.AnchorOnly(p, c) then REROUTED else CONTINUED
    ensures x.TransitionOf(Curr(c)).kind == x.TransitionOf(Prev(p)).kind
  {
    hide x.Cohort;
    OnlyMember({p}, p);
    OnlyMember({c}, c);
    assert (p, c) in x.AnchorOnlyEdges() <==> x.step.AnchorOnly(p, c);
  }

  // ----- the same, said of a timeline

  /** Out of m entities k are shared, out of n active relations l, and that is enough for the policy's threshold. */
  ghost predicate Enough(policy: Policy, k: nat, m: nat, l: nat, n: nat) {
    policy.entityWeight * ((k * n) as real) + policy.relationWeight * ((l * m) as real)
    >= policy.minOverlap * (policy.entityWeight + policy.relationWeight) * ((m * n) as real)
  }

  lemma EnoughIff(x: real, policy: Policy, k: nat, m: nat, l: nat, n: nat)
    requires ValidPolicy(policy) && MeanInCounts(x, policy, k, m, l, n) && m > 0 && n > 0
    ensures Enough(policy, k, m, l, n) <==> x >= policy.minOverlap
  {
    var total, size := policy.entityWeight + policy.relationWeight, (m * n) as real;
    Positive(m, n);
    Scaled(policy.minOverlap, x, total);
    Scaled(policy.minOverlap * total, x * total, size);
  }

  lemma Positive(m: nat, n: nat)
    requires m > 0 && n > 0
    ensures m * n > 0
  {
  }

  lemma OverlapSuffices(a: ComponentReport, b: ComponentReport, policy: Policy)
    requires ValidPolicy(policy) && a.entityIds != {} && a.activeRelationIds != {}
    ensures OverlapScore(a, b, policy) >= policy.minOverlap <==>
              Enough(policy, |a.entityIds * b.entityIds|, |a.entityIds + b.entityIds|,
                     |a.activeRelationIds * b.activeRelationIds|, |a.activeRelationIds + b.activeRelationIds|)
  {
    OverlapInCounts(a, b, policy);
    hide OverlapScore, MeanInCounts, Enough;
    SubsetCardinality(a.entityIds, a.entityIds + b.entityIds);
    SubsetCardinality(a.activeRelationIds, a.activeRelationIds + b.activeRelationIds);
    assert |a.entityIds| > 0 && |a.activeRelationIds| > 0;
    EnoughIff(OverlapScore(a, b, policy), policy, |a.entityIds * b.entityIds|, |a.entityIds + b.entityIds|,
              |a.activeRelationIds * b.activeRelationIds|, |a.activeRelationIds + b.activeRelationIds|);
  }

  lemma LonePairIsAlone(run: Run, t: nat)
    requires run.Valid() && 0 < t < |run.ticks|
    requires |run.ticks[t - 1].components| == 1 && |run.ticks[t].components| == 1
    ensures Alone(run.ContextAt(t), 0, 0)
    ensures forall n :: run.ContextAt(t).IsNode(n) ==> n == Prev(0) || n == Curr(0)
  {
    hide run.Valid, Step.Edges;
    EdgesInRange(run.ContextAt(t));
  }

  lemma EdgesInRange(x: TickContext)
    requires x.Valid()
    ensures forall p: nat, c: nat :: (p, c) in x.step.Edges() ==> p < |x.step.previous| && c < |x.step.current|
  {
  }

  /**
   Two snapshots in a row with one component each: the line continues exactly when the entities and active relations
   the components share, weighed against those they have together, reach the threshold.
   */
  lemma LoneComponentContinuesIff(run: Run, timeline: Timeline, t: nat)
    requires run.Valid() && timeline == TimelineOf(run) && 0 < t < |run.ticks|
    requires |run.ticks[t - 1].components| == 1 && |run.ticks[t].components| == 1
    ensures var a, b := run.ticks[t - 1].components[0], run.ticks[t].components[0];
            && ((exists r :: r in timeline.transitions && r.toTick == t && r.kind == CONTINUED) <==>
                  Enough(run.policy, |a.entityIds * b.entityIds|, |a.entityIds + b.entityIds|,
                         |a.activeRelationIds * b.activeRelationIds|, |a.activeRelationIds + b.activeRelationIds|))
            && ((exists r :: r in timeline.transitions && r.toTick == t && r.kind == CONTINUED) ==>
                  run.LinesAt(t)[0] == run.KeptAt(t - 1)[0])
  {
    var x := run.ContextAt(t);
    var a, b := run.ticks[t - 1].components[0], run.ticks[t].components[0];
    LonePairIsAlone(run, t);
    PairContinuesIff(x, 0, 0);
    KeptBefore(run, t);
    OverlapSuffices(a, b, run.policy);
    PairKinds(run, timeline, t);
    hide Enough, OverlapScore, Alone, x.TransitionOf, x.NextLine, TimelineOf, run.KeptAt, x.NextLines;
  }

  lemma KeptBefore(run: Run, t: nat)
    requires run.Valid() && 0 < t < |run.ticks|
    ensures run.ContextAt(t).lines == run.KeptAt(t - 1) && run.LinesAt(t) == run.ContextAt(t).NextLines()
    ensures run.ContextAt(t).step.previous == run.ticks[t - 1].components
            && run.ContextAt(t).step.current == run.ticks[t].components && run.ContextAt(t).step.policy == run.policy
    ensures ValidPolicy(run.policy) && run.ticks[t - 1].components != [] ==>
              run.ticks[t - 1].components[0].entityIds != {} && run.ticks[t - 1].components[0].activeRelationIds != {}
  {
    hide run.KeptAt, AllDisjoint;
  }

  /** The kinds recorded for a tick with one component on either side are those of the two. */
  lemma PairKinds(run: Run, timeline: Timeline, t: nat)
    requires run.Valid() && timeline == TimelineOf(run) && 0 < t < |run.ticks|
    requires |run.ticks[t - 1].components| == 1 && |run.ticks[t].components| == 1
    ensures var x := run.ContextAt(t);
            && x.IsNode(Prev(0)) && x.IsNode(Curr(0))
            && ((exists r :: r in timeline.transitions && r.toTick == t && r.kind == CONTINUED) <==>
                  x.TransitionOf(Prev(0)).kind == CONTINUED || x.TransitionOf(Curr(0)).kind == CONTINUED)
  {
    var x := run.ContextAt(t);
    LonePairIsAlone(run, t);
    hide TimelineOf, run.Valid, x.TransitionOf, x.Valid, Alone;
    Transitions(run, timeline, t, Prev(0));
    Transitions(run, timeline, t, Curr(0));
    hide run.ContextAt, x.IsNode;
    if r :| r in timeline.transitions && r.toTick == t && r.kind == CONTINUED {
      var n := TransitionAt(run, timeline, r);
    }
  }
}
