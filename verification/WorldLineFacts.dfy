/** What one tick of the timeline keeps: line identity, lineage conservation, stuttering (attack_world_lines.py). */
module WorldLineFacts {
  import opened Ordering
  import opened Reachability
  import opened StageScoring
  import opened CutPoints
  import opened AttackProgression
  import opened WorldLineGroups
  import opened WorldLineTick

  // ----- line identifiers

  /** The line was minted at a tick before t. */
  ghost predicate BornBefore(stream: Id, digest: LineDigest, line: Id, t: nat) {
    exists b: nat, c, ps :: b < t && line == digest(stream, b, c, ps)
  }

  /** Distinct lines, all of them minted before the tick. */
  ghost predicate LinesSound(stream: Id, digest: LineDigest, lines: seq<Id>, t: nat) {
    && NoDuplicates(lines)
    && forall i :: 0 <= i < |lines| ==> BornBefore(stream, digest, lines[i], t)
  }

  ghost predicate Sound(x: TickContext) {
    && x.Valid() && x.Identified() && TicksDiffer(x.digest) && TellsApart(x.digest, x.step.current)
    && LinesSound(x.stream, x.digest, x.lines, x.tick)
  }

  lemma MintedIsNew(x: TickContext, group: Group, c: nat, p: nat)
    requires Sound(x) && x.InRange(group) && c < |x.step.current| && p < |x.lines|
    ensures x.MintedLine(group, c) != x.lines[p]
  {
    assert BornBefore(x.stream, x.digest, x.lines[p], x.tick);
    var b: nat, id, ps :| b < x.tick && x.lines[p] == x.digest(x.stream, b, id, ps);
  }

  lemma OnlyMember(s: set<nat>, a: nat)
    requires |s| == 1 && a in s
    ensures MinOf(s) == a
  {
    assert |s - {a}| == 0;
    assert MinOf(s) in s;
  }

  /** The carried line is the line of the one predecessor. */
  lemma CarriedLine(x: TickContext, c: nat)
    requires x.Valid() && c < |x.step.current| && OneToOne(x.Cohort(Curr(c)))
    ensures var p := MinOf(x.Cohort(Curr(c)).prev);
            p < |x.lines| && x.NextLine(c) == x.lines[p] && x.Cohort(Prev(p)) == x.Cohort(Curr(c))
  {
    var p := MinOf(x.Cohort(Curr(c)).prev);
    assert Has(x.Cohort(Curr(c)), Prev(p));
    CohortOfMember(x, Curr(c), Prev(p));
  }

  /** No two components of a tick share a world line. */
  lemma NextLinesDiffer(x: TickContext, i: nat, j: nat)
    requires Sound(x) && i < |x.step.current| && j < |x.step.current| && i != j
    ensures x.NextLine(i) != x.NextLine(j)
  {
    var a, b := x.Cohort(Curr(i)), x.Cohort(Curr(j));
    x.SelfInCohort(Curr(i));
    x.SelfInCohort(Curr(j));
    if OneToOne(a) && OneToOne(b) {
      CarriedLine(x, i);
      CarriedLine(x, j);
      OnlyMember(a.curr, i);
      OnlyMember(b.curr, j);
    } else if OneToOne(a) {
      CarriedLine(x, i);
      MintedIsNew(x, b, j, MinOf(a.prev));
    } else if OneToOne(b) {
      CarriedLine(x, j);
      MintedIsNew(x, a, i, MinOf(b.prev));
    } else {
      assert Different(x.step.current[i], x.step.current[j]);
    }
  }

  lemma NextLineIsBorn(x: TickContext, c: nat)
    requires Sound(x) && c < |x.step.current|
    ensures BornBefore(x.stream, x.digest, x.NextLine(c), x.tick + 1)
  {
    var cohort := x.Cohort(Curr(c));
    if OneToOne(cohort) {
      CarriedLine(x, c);
      assert BornBefore(x.stream, x.digest, x.NextLine(c), x.tick);
      var b: nat, id, ps :| b < x.tick && x.NextLine(c) == x.digest(x.stream, b, id, ps);
    } else {
      assert x.tick < x.tick + 1
             && x.NextLine(c) == x.digest(x.stream, x.tick, x.step.current[c].componentId, x.PredecessorLines(cohort));
    }
  }

  /** The tick keeps the soundness of the lines. */
  lemma NextLinesAreSound(x: TickContext)
    requires Sound(x)
    ensures LinesSound(x.stream, x.digest, x.NextLines(), x.tick + 1)
  {
    var next := x.NextLines();
    forall i, j | 0 <= i < j < |next| ensures next[i] != next[j] {
      NextLinesDiffer(x, i, j);
    }
    forall i | 0 <= i < |next| ensures BornBefore(x.stream, x.digest, next[i], x.tick + 1) {
      NextLineIsBorn(x, i);
    }
  }

  /** A line of the previous tick lives on iff its component is alone with one successor, and that one carries it. */
  lemma LineLivesOnIff(x: TickContext, p: nat)
    requires Sound(x) && p < |x.lines|
    ensures x.lines[p] in x.NextLines() <==> OneToOne(x.Cohort(Prev(p)))
  {
    var next := x.NextLines();
    var cohort := x.Cohort(Prev(p));
    x.SelfInCohort(Prev(p));
    if OneToOne(cohort) {
      var c := MinOf(cohort.curr);
      assert Has(cohort, Curr(c));
      CohortOfMember(x, Prev(p), Curr(c));
      CarriedLine(x, c);
      OnlyMember(cohort.prev, p);
      assert next[c] == x.lines[p];
    }
    if x.lines[p] in next {
      var c :| 0 <= c < |next| && next[c] == x.lines[p];
      if OneToOne(x.Cohort(Curr(c))) {
        CarriedLine(x, c);
      } else {
        MintedIsNew(x, x.Cohort(Curr(c)), c, p);
      }
    }
  }

  lemma MintedWasNeverBorn(x: TickContext, group: Group, c: nat, t: nat)
    requires Sound(x) && x.InRange(group) && c < |x.step.current| && t <= x.tick
    ensures !BornBefore(x.stream, x.digest, x.MintedLine(group, c), t)
  {
    forall b: nat, id, ps | b < t ensures x.MintedLine(group, c) != x.digest(x.stream, b, id, ps) {
    }
  }

  /** A current component either carries a line of the previous tick or has one never seen before. */
  lemma OldLineIsCarried(x: TickContext, c: nat, t: nat)
    requires Sound(x) && c < |x.step.current| && t <= x.tick && BornBefore(x.stream, x.digest, x.NextLine(c), t)
    ensures x.NextLine(c) in x.lines
  {
    var cohort := x.Cohort(Curr(c));
    if OneToOne(cohort) {
      CarriedLine(x, c);
    } else {
      MintedWasNeverBorn(x, cohort, c, t);
    }
  }

  lemma OldLineIsFromBefore(x: TickContext, line: Id, t: nat)
    requires Sound(x) && line in x.NextLines() && t <= x.tick && BornBefore(x.stream, x.digest, line, t)
    ensures line in x.lines
  {
    hide BornBefore, LinesSound, x.NextLine;
    var c :| 0 <= c < |x.NextLines()| && x.NextLines()[c] == line;
    OldLineIsCarried(x, c, t);
  }

  // ----- lineage conservation

  lemma SameIdSameIndex(components: seq<ComponentReport>, i: nat, j: nat)
    requires DistinctIds(components) && i < |components| && j < |components|
    requires components[i].componentId == components[j].componentId
    ensures i == j
  {
    assert Different(components[i], components[j]) <==> components[i].componentId != components[j].componentId;
  }

  lemma LinkedTransition(x: TickContext, n: Node)
    requires x.Valid() && x.IsNode(n) && x.Cohort(n).prev != {} && x.Cohort(n).curr != {}
    ensures x.TransitionOf(n).predecessors == IdsOf(x.step.previous, x.Cohort(n).prev)
    ensures x.TransitionOf(n).successors == IdsOf(x.step.current, x.Cohort(n).curr)
  {
  }

  lemma MembersOfTransition(x: TickContext, n: Node)
    requires x.Valid() && x.IsNode(n)
    ensures x.TransitionOf(n).predecessors == IdsOf(x.step.previous, x.Cohort(n).prev)
    ensures x.TransitionOf(n).successors == IdsOf(x.step.current, x.Cohort(n).curr)
  {
    if n in x.Graph() {
      LinkedHasBothSides(x, n);
      LinkedTransition(x, n);
    } else {
      UnlinkedIsAlone(x, n);
      LoneTransition(x, n);
    }
  }

  lemma NoIds(components: seq<ComponentReport>)
    ensures IdsOf(components, {}) == multiset{}
  {
    assert SortedIds({}) == [];
  }

  lemma LoneTransition(x: TickContext, n: Node)
    requires x.Valid() && x.IsNode(n) && x.Cohort(n) == Include(Group({}, {}), n)
    ensures x.TransitionOf(n).predecessors == IdsOf(x.step.previous, x.Cohort(n).prev)
    ensures x.TransitionOf(n).successors == IdsOf(x.step.current, x.Cohort(n).curr)
  {
    hide x.Cohort, x.NextLine, IdsOf;
    NoIds(x.step.previous);
    NoIds(x.step.current);
    match n
    case Prev(p) =>
      IdsOfOne(x.step.previous, p);
      assert x.Cohort(n).prev == {p} && x.Cohort(n).curr == {};
    case Curr(c) =>
      IdsOfOne(x.step.current, c);
      assert x.Cohort(n).curr == {c} && x.Cohort(n).prev == {};
  }

  lemma AloneOnItsSide(x: TickContext, n: Node)
    requires x.Valid() && x.IsNode(n) && (x.Cohort(n).prev == {} || x.Cohort(n).curr == {})
    ensures x.Cohort(n) == Include(Group({}, {}), n)
  {
    if n in x.Graph() {
      LinkedHasBothSides(x, n);
    } else {
      UnlinkedIsAlone(x, n);
    }
  }

  lemma MemberByPredecessor(x: TickContext, n: Node, p: nat)
    requires x.Valid() && x.Identified() && x.IsNode(n) && p < |x.step.previous|
    requires x.step.previous[p].componentId in x.TransitionOf(n).predecessors
    ensures x.TransitionOf(n) == x.TransitionOf(Prev(p)) && p in x.Cohort(n).prev
  {
    MembersOfTransition(x, n);
    IdsOfMeaning(x.step.previous, x.Cohort(n).prev);
    var q :| q in x.Cohort(n).prev && x.step.previous[q].componentId == x.step.previous[p].componentId;
    SameIdSameIndex(x.step.previous, q, p);
    SameCohortSameTransition(x, n, Prev(p));
  }

  lemma MemberBySuccessor(x: TickContext, n: Node, c: nat)
    requires x.Valid() && x.Identified() && x.IsNode(n) && c < |x.step.current|
    requires x.step.current[c].componentId in x.TransitionOf(n).successors
    ensures x.TransitionOf(n) == x.TransitionOf(Curr(c)) && c in x.Cohort(n).curr
  {
    MembersOfTransition(x, n);
    IdsOfMeaning(x.step.current, x.Cohort(n).curr);
    var q :| q in x.Cohort(n).curr && x.step.current[q].componentId == x.step.current[c].componentId;
    SameIdSameIndex(x.step.current, q, c);
    SameCohortSameTransition(x, n, Curr(c));
  }

  lemma SameCohortSameTransition(x: TickContext, n: Node, m: Node)
    requires x.Valid() && x.IsNode(n) && Has(x.Cohort(n), m)
    ensures x.IsNode(m) && x.TransitionOf(n) == x.TransitionOf(m)
  {
    CohortOfMember(x, n, m);
    x.SelfInCohort(n);
    if x.Cohort(n).prev == {} || x.Cohort(n).curr == {} {
      AloneOnItsSide(x, n);
      assert m == n;
    }
  }

  /** The transition kind holds exactly when the predecessor and successor counts have its shape. */
  lemma KindMatchesShape(x: TickContext, n: Node)
    requires x.Valid() && x.IsNode(n)
    ensures var t := x.TransitionOf(n); var before, after := |t.predecessors|, |t.successors|;
            && before + after > 0
            && (t.kind == NEW <==> before == 0)
            && (t.kind == ENDED <==> after == 0)
            && (t.kind == CONTINUED || t.kind == REROUTED <==> before == 1 && after == 1)
            && (t.kind == SPLIT <==> before == 1 && after > 1)
            && (t.kind == MERGED <==> before > 1 && after == 1)
            && (t.kind == RECONFIGURED <==> before > 1 && after > 1)
  {
    MembersOfTransition(x, n);
    KindOfTransition(x, n);
    x.CohortInRange(n);
    hide x.Cohort, x.TransitionOf, x.KindOf;
    IdsOfMeaning(x.step.previous, x.Cohort(n).prev);
    IdsOfMeaning(x.step.current, x.Cohort(n).curr);
    KindOfShape(x, x.Cohort(n));
  }

  lemma KindOfTransition(x: TickContext, n: Node)
    requires x.Valid() && x.IsNode(n)
    ensures Has(x.Cohort(n), n) && x.TransitionOf(n).kind == x.KindOf(x.Cohort(n))
  {
    x.SelfInCohort(n);
    hide x.Cohort;
    if x.Cohort(n).prev != {} && x.Cohort(n).curr != {} {
      KindOfLinked(x, n);
    }
  }

  lemma KindOfShape(x: TickContext, group: Group)
    requires x.Valid() && group.prev + group.curr != {}
    ensures var before, after := |group.prev|, |group.curr|;
            && before + after > 0
            && (x.KindOf(group) == NEW <==> before == 0)
            && (x.KindOf(group) == ENDED <==> after == 0)
            && (x.KindOf(group) == CONTINUED || x.KindOf(group) == REROUTED <==> before == 1 && after == 1)
            && (x.KindOf(group) == SPLIT <==> before == 1 && after > 1)
            && (x.KindOf(group) == MERGED <==> before > 1 && after == 1)
            && (x.KindOf(group) == RECONFIGURED <==> before > 1 && after > 1)
  {
    assert |group.prev| == 0 <==> group.prev == {};
    assert |group.curr| == 0 <==> group.curr == {};
  }

  /** Rerouted is told from continued by the one link: without the anchor bonus it would be missing. */
  lemma ReroutedIffAnchorOnly(x: TickContext, p: nat, c: nat)
    requires x.Valid() && p < |x.step.previous| && c < |x.step.current|
    requires OneToOne(x.Cohort(Prev(p))) && c in x.Cohort(Prev(p)).curr
    ensures x.TransitionOf(Prev(p)).kind == REROUTED <==>
            x.step.BaseScore(p, c) < x.step.policy.minOverlap <= x.step.Score(p, c) && x.step.SharedAnchors(p, c) != {}
  {
    x.SelfInCohort(Prev(p));
    OnlyMember(x.Cohort(Prev(p)).prev, p);
    OnlyMember(x.Cohort(Prev(p)).curr, c);
    assert (p, c) in x.AnchorOnlyEdges() <==> x.step.AnchorOnly(p, c);
  }

  lemma {:induction false} BestOverlapIsMaximum(scores: map<(nat, nat), real>, pairs: seq<(nat, nat)>)
    requires forall e :: e in scores ==> scores[e] >= 0.0
    ensures forall e :: e in pairs && e in scores ==> scores[e] <= BestOverlap(scores, pairs)
    ensures BestOverlap(scores, pairs) == 0.0
            || exists e :: e in pairs && e in scores && scores[e] == BestOverlap(scores, pairs)
  {
    if pairs != [] {
      BestOverlapIsMaximum(scores, pairs[1..]);
      assert pairs == [pairs[0]] + pairs[1..];
      if exists e :: e in pairs[1..] && e in scores && scores[e] == BestOverlap(scores, pairs[1..]) {
        var e :| e in pairs[1..] && e in scores && scores[e] == BestOverlap(scores, pairs[1..]);
        assert e in pairs;
      }
      assert pairs[0] in pairs;
    }
  }

  lemma ScoreInRange(x: TickContext, p: nat, c: nat)
    requires x.Valid() && ValidPolicy(x.step.policy) && p < |x.step.previous| && c < |x.step.current|
    ensures 0.0 <= x.step.Score(p, c) <= 1.0
  {
    OverlapInRange(x.step.previous[p], x.step.current[c], x.step.policy);
    ClampedSum(x.step.BaseScore(p, c), if x.step.SharedAnchors(p, c) != {} then x.step.policy.anchorBonus else 0.0);
  }

  lemma ClampedSum(base: real, bonus: real)
    requires base >= 0.0 && bonus >= 0.0
    ensures 0.0 <= Min(1.0, base + bonus) <= 1.0
  {
  }

  lemma OverlapInRange(a: ComponentReport, b: ComponentReport, policy: Policy)
    requires ValidPolicy(policy)
    ensures 0.0 <= OverlapScore(a, b, policy) <= 1.0
  {
    JaccardInRange(a.entityIds, b.entityIds);
    JaccardInRange(a.activeRelationIds, b.activeRelationIds);
    ClampedMean(policy, Jaccard(a.entityIds, b.entityIds), Jaccard(a.activeRelationIds, b.activeRelationIds));
  }

  lemma JaccardInRange(a: set<Id>, b: set<Id>)
    ensures 0.0 <= Jaccard(a, b) <= 1.0
  {
    if a + b != {} {
      SubsetCardinality(a * b, a + b);
      RatioInUnit(|a * b|, |a + b|);
    }
  }

  lemma ClampedMean(policy: Policy, u: real, v: real)
    requires ValidPolicy(policy) && u >= 0.0 && v >= 0.0
    ensures 0.0 <= Min(1.0, WeightedMean(policy, u, v)) <= 1.0
  {
    assert policy.entityWeight * u >= 0.0 && policy.relationWeight * v >= 0.0;
  }

  /** A linked component has a link inside its cohort. */
  lemma LinkInCohort(x: TickContext, n: Node) returns (p: nat, c: nat)
    requires x.Valid() && n in x.Graph()
    ensures x.IsNode(n) && p in x.Cohort(n).prev && c in x.Cohort(n).curr && (p, c) in x.step.Edges()
  {
    LinkedHasBothSides(x, n);
    GraphIsSymmetric(x);
    var m :| m in x.Graph()[n];
    assert m in Neighbours(x.Graph(), n);
    assert Joined(x.step.Edges(), n, m);
    ReachesItself(x.Graph(), n);
    ReachesNext(x.Graph(), n, n, m);
    CohortMeaning(x, n);
    assert Has(x.Cohort(n), n) && Has(x.Cohort(n), m);
    p, c := if n.Prev? then n.index else m.index, if n.Prev? then m.index else n.index;
  }

  /** Previous component p and current component c are linked inside the cohort of n. */
  ghost predicate LinkOf(x: TickContext, n: Node, p: nat, c: nat)
    requires x.Valid()
  {
    p in x.Cohort(n).prev && c in x.Cohort(n).curr && x.step.Linked(p, c)
  }

  /** The overlap a grouped transition reports is the score of its best link, so it reaches the threshold. */
  lemma GroupedOverlapReachesThreshold(x: TickContext, n: Node)
    requires x.Valid() && ValidPolicy(x.step.policy) && x.IsNode(n) && n in x.Graph()
    ensures forall p, c :: LinkOf(x, n, p, c) ==> x.step.Score(p, c) <= x.TransitionOf(n).maxOverlap
    ensures exists p, c :: LinkOf(x, n, p, c) && x.step.Score(p, c) == x.TransitionOf(n).maxOverlap
    ensures x.TransitionOf(n).maxOverlap >= x.step.policy.minOverlap
  {
    hide x.Graph;
    var cohort := x.Cohort(n);
    LinkedHasBothSides(x, n);
    GroupedOverlap(x, n);
    hide x.Cohort, x.TransitionOf, x.step.Score, PairsOf, BestOverlap, x.Scores;
    forall p, c | LinkOf(x, n, p, c) ensures x.step.Score(p, c) <= x.TransitionOf(n).maxOverlap {
      LinkBelowBest(x, cohort, p, c);
    }
    var p, c := LinkInCohort(x, n);
    BestIsAttained(x, cohort, p, c);
  }

  lemma GroupedOverlap(x: TickContext, n: Node)
    requires x.Valid() && x.IsNode(n) && x.Cohort(n).prev != {} && x.Cohort(n).curr != {}
    ensures x.TransitionOf(n).maxOverlap == BestOverlap(x.Scores(), PairsOf(x.Cohort(n)))
  {
    hide x.Cohort;
  }

  lemma ScoresAreNotNegative(x: TickContext)
    requires x.Valid() && ValidPolicy(x.step.policy)
    ensures forall e :: e in x.Scores() ==> x.Scores()[e] >= 0.0
  {
    forall e | e in x.Scores() ensures x.Scores()[e] >= 0.0 {
      ScoreInRange(x, e.0, e.1);
    }
  }

  /** Some link of a cohort that has a link attains the best overlap. */
  lemma BestIsAttained(x: TickContext, cohort: Group, p: nat, c: nat)
    requires x.Valid() && ValidPolicy(x.step.policy) && p in cohort.prev && c in cohort.curr && x.step.Linked(p, c)
    ensures exists q, d :: q in cohort.prev && d in cohort.curr && x.step.Linked(q, d)
                           && x.step.Score(q, d) == BestOverlap(x.Scores(), PairsOf(cohort))
  {
    var scores, pairs := x.Scores(), PairsOf(cohort);
    LinkBelowBest(x, cohort, p, c);
    ScoreInRange(x, p, c);
    ScoresAreNotNegative(x);
    BestOverlapIsMaximum(scores, pairs);
    if e :| e in pairs && e in scores && scores[e] == BestOverlap(scores, pairs) {
      PairsMeaning(SortedIds(cohort.prev), SortedIds(cohort.curr), e);
      assert e.0 in cohort.prev && e.1 in cohort.curr && x.step.Linked(e.0, e.1);
    }
  }

  lemma LinkBelowBest(x: TickContext, cohort: Group, p: nat, c: nat)
    requires x.Valid() && ValidPolicy(x.step.policy) && p in cohort.prev && c in cohort.curr && x.step.Linked(p, c)
    ensures x.step.Score(p, c) <= BestOverlap(x.Scores(), PairsOf(cohort))
  {
    ScoresAreNotNegative(x);
    BestOverlapIsMaximum(x.Scores(), PairsOf(cohort));
    PairsMeaning(SortedIds(cohort.prev), SortedIds(cohort.curr), (p, c));
    assert (p, c) in x.Scores();
  }

  // ----- repeating a snapshot

  /** The same components and anchors as at the previous tick. */
  ghost predicate Repeats(x: TickContext) {
    && x.step.previous == x.step.current && x.step.previousAnchors == x.step.currentAnchors
    && AllDisjoint(x.step.current) && Substantial(x.step.current) && ValidPolicy(x.step.policy)
  }

  lemma SelfOverlapIsFull(policy: Policy, c: ComponentReport)
    requires ValidPolicy(policy) && c.entityIds != {} && c.activeRelationIds != {}
    ensures OverlapScore(c, c, policy) == 1.0
  {
    SelfJaccard(c.entityIds);
    SelfJaccard(c.activeRelationIds);
    var total := policy.entityWeight + policy.relationWeight;
    assert policy.entityWeight * 1.0 + policy.relationWeight * 1.0 == total;
    assert total / total == 1.0;
  }

  lemma SelfJaccard(s: set<Id>)
    requires s != {}
    ensures Jaccard(s, s) == 1.0
  {
    assert s + s == s && s * s == s;
    assert |s| > 0;
  }

  lemma DisjointOverlapIsZero(policy: Policy, a: ComponentReport, b: ComponentReport)
    requires ValidPolicy(policy) && a.entityIds !! b.entityIds && a.activeRelationIds !! b.activeRelationIds
    ensures OverlapScore(a, b, policy) == 0.0
  {
    DisjointJaccard(a.entityIds, b.entityIds);
    DisjointJaccard(a.activeRelationIds, b.activeRelationIds);
    hide Jaccard;
    assert policy.entityWeight * 0.0 + policy.relationWeight * 0.0 == 0.0;
  }

  lemma DisjointJaccard(a: set<Id>, b: set<Id>)
    requires a !! b
    ensures Jaccard(a, b) == 0.0
  {
    assert a * b == {};
  }

  /** On a repeated snapshot two different components are linked only by a shared anchor or a zero threshold. */
  lemma CrossLinkIff(x: TickContext, i: nat, j: nat)
    requires x.Valid() && Repeats(x) && i < |x.step.previous| && j < |x.step.current|
    ensures i != j ==> (x.step.Linked(i, j) <==>
              x.step.policy.minOverlap == 0.0
              || (x.step.SharedAnchors(i, j) != {} && x.step.policy.anchorBonus >= x.step.policy.minOverlap))
    ensures i == j ==> x.step.Linked(i, j) && !x.step.AnchorOnly(i, j)
  {
    if i == j {
      SelfOverlapIsFull(x.step.policy, x.step.current[i]);
    } else {
      assert Disjoint(x.step.current[i], x.step.current[j]);
      DisjointOverlapIsZero(x.step.policy, x.step.previous[i], x.step.current[j]);
    }
  }

  ghost predicate NoCrossLinks(x: TickContext)
    requires x.Valid()
  {
    forall i: nat, j: nat :: i < |x.step.previous| && j < |x.step.current| && i != j ==> (i, j) !in x.step.Edges()
  }

  lemma PairIsClosed(x: TickContext, i: nat)
    requires x.Valid() && NoCrossLinks(x) && i < |x.step.current| && i < |x.step.previous|
    ensures Closed(x.Graph(), {Prev(i), Curr(i)})
  {
    GraphIsSymmetric(x);
    hide x.Graph, Step.Edges, Step.Linked;
    var pair := {Prev(i), Curr(i)};
    forall n, m | n in pair && m in Neighbours(x.Graph(), n) ensures m in pair {
      assert Joined(x.step.Edges(), n, m);
    }
  }

  lemma EdgeReaches(x: TickContext, i: nat, j: nat)
    requires x.Valid() && (i, j) in x.step.Edges()
    ensures Reaches(x.Graph(), Prev(i), Prev(i)) && Reaches(x.Graph(), Prev(i), Curr(j))
  {
    GraphIsSymmetric(x);
    ReachesItself(x.Graph(), Prev(i));
    assert Joined(x.step.Edges(), Prev(i), Curr(j));
    ReachesNext(x.Graph(), Prev(i), Prev(i), Curr(j));
  }

  lemma RepeatedPairsStayPaired(x: TickContext, i: nat)
    requires x.Valid() && Repeats(x) && NoCrossLinks(x) && i < |x.step.current|
    ensures x.Cohort(Prev(i)) == Group({i}, {i}) && x.Cohort(Curr(i)) == Group({i}, {i})
  {
    var pair := {Prev(i), Curr(i)};
    CrossLinkIff(x, i, i);
    PairIsClosed(x, i);
    EdgeReaches(x, i, i);
    SearchIsExact(x.Graph(), Prev(i), pair);
    CohortMeaning(x, Prev(i));
    SameMembersSameGroup(x.Cohort(Prev(i)), Group({i}, {i}));
    assert Has(x.Cohort(Prev(i)), Curr(i));
    CohortOfMember(x, Prev(i), Curr(i));
  }

  lemma RepeatedPairContinues(x: TickContext, n: Node)
    requires x.Valid() && Repeats(x) && NoCrossLinks(x) && x.IsNode(n)
    ensures x.TransitionOf(n).kind == CONTINUED
    ensures n.Curr? ==> x.NextLine(n.index) == x.lines[n.index]
  {
    var i := n.index;
    RepeatedPairsStayPaired(x, i);
    CrossLinkIff(x, i, i);
    OnlyMember({i}, i);
    assert (i, i) !in x.AnchorOnlyEdges();
  }

  /**
   Repeating a snapshot continues every line iff no two components are linked to each other; then
   every component keeps its line.
   */
  lemma StutterContinuesIff(x: TickContext)
    requires x.Valid() && Repeats(x)
    ensures (forall n :: x.IsNode(n) ==> x.TransitionOf(n).kind == CONTINUED) <==> NoCrossLinks(x)
    ensures NoCrossLinks(x) ==> x.NextLines() == x.lines
  {
    if NoCrossLinks(x) {
      forall n | x.IsNode(n) ensures x.TransitionOf(n).kind == CONTINUED {
        RepeatedPairContinues(x, n);
      }
      forall c | 0 <= c < |x.step.current| ensures x.NextLines()[c] == x.lines[c] {
        RepeatedPairContinues(x, Curr(c));
      }
    } else {
      var i: nat, j: nat :| i < |x.step.previous| && j < |x.step.current| && i != j && (i, j) in x.step.Edges();
      CrossLinkBreaks(x, i, j);
    }
  }

  lemma CrossLinkBreaks(x: TickContext, i: nat, j: nat)
    requires x.Valid() && Repeats(x) && i != j && (i, j) in x.step.Edges()
    ensures x.IsNode(Prev(i)) && x.TransitionOf(Prev(i)).kind != CONTINUED
  {
    CrossLinkIff(x, i, i);
    CohortMeaning(x, Prev(i));
    EdgeReaches(x, i, i);
    EdgeReaches(x, i, j);
    var cohort := x.Cohort(Prev(i));
    assert Has(cohort, Curr(i)) && Has(cohort, Curr(j)) && Has(cohort, Prev(i));
    TwoSuccessorsDoNotContinue(x, i, j);
  }

  lemma TwoSuccessorsDoNotContinue(x: TickContext, i: nat, j: nat)
    requires x.Valid() && i < |x.step.previous| && i != j
    requires i in x.Cohort(Prev(i)).prev && {i, j} <= x.Cohort(Prev(i)).curr
    ensures x.TransitionOf(Prev(i)).kind != CONTINUED
  {
    hide x.Cohort, x.Graph, x.TransitionOf, x.AnchorOnlyEdges;
    var cohort := x.Cohort(Prev(i));
    assert j in cohort.curr;
    KindOfLinked(x, Prev(i));
    AtLeastTwo(cohort.curr, i, j);
  }

  lemma AtLeastTwo(s: set<nat>, i: nat, j: nat)
    requires i != j && {i, j} <= s
    ensures |s| >= 2
  {
    SubsetCardinality({i, j}, s);
  }

  lemma KindOfLinked(x: TickContext, n: Node)
    requires x.Valid() && x.IsNode(n) && x.Cohort(n).prev != {} && x.Cohort(n).curr != {}
    ensures x.TransitionOf(n).kind == x.KindOf(x.Cohort(n))
  {
    hide x.Cohort;
  }
}
