/** What a defensive cut point reports and which candidates are returned (attack_progression.py). */
module CutPointLaws {
  import opened Ordering
  import opened StateGraph
  import opened Reachability
  import opened AttackComponents
  import opened CutPoints

  /** An active relation leads from one entity to the other. */
  ghost predicate LeadsTo(g: Graph, x: Id, y: Id) {
    exists r :: r in g.relations && (r.status == OBSERVED || r.status == INFERRED) && r.confidence >= 0.5
                && r.source == x && r.target == y
  }

  /** Downstream of an entity are the others at the end of a path of active relations, followed forwards. */
  lemma DownstreamMeaning(g: Graph)
    ensures forall x, y :: y in Neighbours(ActiveArrows(g), x) <==> LeadsTo(g, x, y)
  {
    DirectedLinksMeaning(ActiveRelations(g));
    FilterKeeps(g.relations, Active);
    forall x, y ensures y in Neighbours(ActiveArrows(g), x) <==> LeadsTo(g, x, y) {
      if y in Neighbours(ActiveArrows(g), x) {
        var r :| r in ActiveRelations(g) && r.source == x && r.target == y;
      }
      if LeadsTo(g, x, y) {
        var r :| r in g.relations && Active(r) && r.source == x && r.target == y;
        assert r in ActiveRelations(g);
      }
    }
  }

  // ----- what a cut point reports

  /** The relation is active and touches the entity. */
  predicate Supports(g: Graph, r: Relation, x: Id) {
    r in g.relations && (r.status == OBSERVED || r.status == INFERRED) && r.confidence >= 0.5
    && (r.source == x || r.target == x)
  }

  lemma TouchingSupports(g: Graph, x: Id)
    ensures forall r :: r in Touching(ActiveRelations(g), x) <==> Supports(g, r, x)
  {
    TouchingMeaning(ActiveRelations(g), x);
    FilterKeeps(g.relations, Active);
    hide Touching, Filter;
  }

  lemma {:induction false} MaxConfidenceIsGreatest(rs: seq<Relation>, strongest: Relation)
    requires rs != [] && strongest in rs && forall r :: r in rs ==> r.confidence <= strongest.confidence
    ensures MaxConfidence(rs) == strongest.confidence
  {
    if |rs| > 1 {
      var first, rest := rs[0], rs[1..];
      assert rs == [first] + rest;
      if strongest in rest {
        MaxConfidenceIsGreatest(rest, strongest);
      } else {
        MaxConfidenceBelow(rest, strongest.confidence);
      }
    }
  }

  lemma {:induction false} MaxConfidenceBelow(rs: seq<Relation>, limit: real)
    requires rs != [] && forall r :: r in rs ==> r.confidence <= limit
    ensures MaxConfidence(rs) <= limit
  {
    assert rs[0] in rs;
    if |rs| > 1 {
      MaxConfidenceBelow(rs[1..], limit);
    }
  }

  lemma CandidateOfCut(g: Graph, c: CutPoint) returns (e: Entity)
    requires c in DefensiveCutPoints(g)
    ensures e in g.entities && HasCandidate(ActiveRelations(g), e) && c == Candidate(g, e)
  {
    hide Candidates, DefensiveCutPoints, Candidate;
    CutPointsDominate(g);
    CandidatesMeaning(g, g.entities, c);
    e :| e in g.entities && HasCandidate(ActiveRelations(g), e) && c == Candidate(g, e);
  }

  /**
   A cut point sits on an entity of the graph and takes the action for its type. Its effect is half its share of the
   other entities downstream, plus 0.35 of the greatest confidence of an active relation at it, plus 0.15 if one of
   these was observed.
   */
  lemma EffectMeaning(g: Graph, c: CutPoint, strongest: Relation)
    requires Valid(g) && c in DefensiveCutPoints(g)
    requires Supports(g, strongest, c.entityId)
             && forall r :: Supports(g, r, c.entityId) ==> r.confidence <= strongest.confidence
    ensures exists e :: e in g.entities && e.id == c.entityId && e.kind == c.kind && ActionFor(e.kind) == Some(c.action)
    ensures c.downstream == |Downstream(g, c.entityId)| < |g.entities|
    ensures var others := if |g.entities| == 1 then 1 else |g.entities| - 1;
            var seen := exists r :: Supports(g, r, c.entityId) && r.status == OBSERVED;
            c.effect == 0.5 * ((c.downstream as real) / (others as real)) + 0.35 * strongest.confidence
                        + if seen then 0.15 else 0.0
  {
    var e := CandidateOfCut(g, c);
    EntityIsKnown(g, e);
    hide Valid, DefensiveCutPoints, Supports;
    DownstreamIsBounded(g, e.id);
    ClampsAreNoOps(g, e);
    TouchingSupports(g, e.id);
    MaxConfidenceIsGreatest(Touching(ActiveRelations(g), e.id), strongest);
    hide Effect, Downstream, Touching, MaxConfidence, ActiveRelations;
  }

  lemma EntityIsKnown(g: Graph, e: Entity)
    requires e in g.entities
    ensures e.id in EntityIds(g)
  {
  }

  /** How many ends of the relation are at the entity. */
  function Ends(r: Relation, x: Id): nat {
    (if r.source == x then 1 else 0) + (if r.target == x then 1 else 0)
  }

  lemma ListIdsFirst(rs: seq<Relation>)
    requires rs != []
    ensures ListIds(rs) == [rs[0].id] + ListIds(rs[1..])
  {
  }

  lemma {:induction false} ListIdsAppend(a: seq<Relation>, b: seq<Relation>)
    ensures ListIds(a + b) == ListIds(a) + ListIds(b)
  {
    if a == [] {
      assert a + b == b;
    } else {
      ListIdsAppend(a[1..], b);
      assert (a + b)[1..] == a[1..] + b && (a + b)[0] == a[0];
      ListIdsFirst(a);
      ListIdsFirst(a + b);
      hide ListIds;
      assert [a[0].id] + (ListIds(a[1..]) + ListIds(b)) == ([a[0].id] + ListIds(a[1..])) + ListIds(b);
    }
  }

  lemma TouchingIdsStep(init: seq<Relation>, last: Relation, x: Id)
    ensures ListIds(Touching(init + [last], x)) == ListIds(Touching(init, x)) + EndIds(last, x)
  {
    var rs := init + [last];
    assert rs[..|rs| - 1] == init;
    var a, b := if last.source == x then [last] else [], if last.target == x then [last] else [];
    assert Touching(rs, x) == Touching(init, x) + a + b;
    hide Touching;
    ListIdsAppend(Touching(init, x) + a, b);
    ListIdsAppend(Touching(init, x), a);
    ListIdsOfOne(last);
    assert ListIds([]) == [];
    hide ListIds;
    assert ListIds(a) + ListIds(b) == EndIds(last, x);
    assert ListIds(Touching(init, x)) + ListIds(a) + ListIds(b) == ListIds(Touching(init, x)) + EndIds(last, x);
  }

  /** The identifier, once for each end at the entity. */
  function EndIds(r: Relation, x: Id): seq<Id> {
    (if r.source == x then [r.id] else []) + (if r.target == x then [r.id] else [])
  }

  lemma ListIdsOfOne(r: Relation)
    ensures ListIds([r]) == [r.id]
  {
    assert [r][1..] == [];
  }

  ghost predicate IdsDiffer(rs: seq<Relation>) {
    forall i, j :: 0 <= i < j < |rs| ==> rs[i].id != rs[j].id
  }

  lemma {:induction false} TouchingIds(rs: seq<Relation>, x: Id, r: Relation)
    requires IdsDiffer(rs)
    ensures r in rs ==> multiset(ListIds(Touching(rs, x)))[r.id] == Ends(r, x)
    ensures (forall q :: q in rs ==> q.id != r.id) ==> multiset(ListIds(Touching(rs, x)))[r.id] == 0
  {
    if rs != [] {
      var init, last := rs[..|rs| - 1], rs[|rs| - 1];
      assert rs == init + [last];
      assert forall i :: 0 <= i < |init| ==> init[i] == rs[i] && rs[i].id != last.id;
      TouchingIds(init, x, r);
      TouchingIdsStep(init, last, x);
      EndIdsCount(last, x, r.id);
      hide Touching, ListIds, EndIds, Ends;
      if r in init {
        assert r.id != last.id;
      }
    }
  }

  lemma EndIdsCount(r: Relation, x: Id, id: Id)
    ensures multiset(EndIds(r, x))[id] == if id == r.id then Ends(r, x) else 0
  {
  }

  lemma ActiveIdsDiffer(g: Graph)
    requires Valid(g)
    ensures IdsDiffer(ActiveRelations(g))
  {
    var differ := (a: Relation, b: Relation) => a.id != b.id;
    assert Pairwise(g.relations, differ);
    FilterKeepsPairwise(g.relations, Active, differ);
    hide Filter;
  }

  /** A cut point lists the active relations at its entity by identifier, a self-loop twice. */
  lemma SupportingMeaning(g: Graph, c: CutPoint, r: Relation)
    requires Valid(g) && c in DefensiveCutPoints(g) && r in g.relations
    ensures forall i, j :: 0 <= i < j < |c.supporting| ==> c.supporting[i] <= c.supporting[j]
    ensures multiset(c.supporting)[r.id] == if Supports(g, r, c.entityId) then Ends(r, c.entityId) else 0
  {
    var e := CandidateOfCut(g, c);
    SupportingIs(g, e);
    ActiveIdsDiffer(g);
    TouchingIds(ActiveRelations(g), e.id, r);
    OnlyItsId(g, r);
    FilterKeeps(g.relations, Active);
    hide ListIds, Touching, Valid, Filter;
  }

  lemma SupportingIs(g: Graph, e: Entity)
    requires HasCandidate(ActiveRelations(g), e)
    ensures var c := Candidate(g, e);
            && c.entityId == e.id
            && (forall i, j :: 0 <= i < j < |c.supporting| ==> c.supporting[i] <= c.supporting[j])
            && multiset(c.supporting) == multiset(ListIds(Touching(ActiveRelations(g), e.id)))
  {
    var ids := ListIds(Touching(ActiveRelations(g), e.id));
    SortSorts<Id>(ids, IdOrder);
    SortPermutes<Id>(ids, IdOrder);
    hide Sort, Touching, ListIds;
  }

  lemma OnlyItsId(g: Graph, r: Relation)
    requires Valid(g) && r in g.relations
    ensures forall q :: q in g.relations && q.id == r.id ==> q == r
  {
    var i :| 0 <= i < |g.relations| && g.relations[i] == r;
    forall q | q in g.relations && q.id == r.id ensures q == r {
      var j :| 0 <= j < |g.relations| && g.relations[j] == q;
    }
  }

  // ----- which candidates come back

  /** More effect, or as much on an entity that comes first. */
  predicate Better(a: CutPoint, b: CutPoint) {
    a.effect > b.effect || (a.effect == b.effect && a.entityId < b.entityId)
  }

  ghost predicate OnDifferentEntities(cuts: seq<CutPoint>) {
    forall i, j :: 0 <= i < j < |cuts| ==> cuts[i].entityId != cuts[j].entityId
  }

  lemma {:induction false} CandidateIds(g: Graph, es: seq<Entity>)
    requires forall i, j :: 0 <= i < j < |es| ==> es[i].id != es[j].id
    ensures OnDifferentEntities(Candidates(g, es))
  {
    if es != [] {
      hide Candidate, HasCandidate;
      var init, last := es[..|es| - 1], es[|es| - 1];
      var earlier := Candidates(g, init);
      CandidateIds(g, init);
      forall i | 0 <= i < |earlier| ensures earlier[i].entityId != last.id {
        CandidatesMeaning(g, init, earlier[i]);
        assert earlier[i] in earlier;
        var e :| e in init && HasCandidate(ActiveRelations(g), e) && earlier[i] == Candidate(g, e);
        CandidateAt(g, e);
      }
      if HasCandidate(ActiveRelations(g), last) {
        CandidateAt(g, last);
      }
    }
  }

  lemma CandidateAt(g: Graph, e: Entity)
    requires HasCandidate(ActiveRelations(g), e)
    ensures Candidate(g, e).entityId == e.id
  {
  }

  /**
   The cut points come by falling effect and, at equal effect, by entity, never two on one; and a candidate is left out
   only when eight others are better.
   */
  lemma BestCutPoints(g: Graph)
    requires Valid(g)
    ensures var cuts := DefensiveCutPoints(g); forall i, j :: 0 <= i < j < |cuts| ==> Better(cuts[i], cuts[j])
    ensures forall c :: c in Candidates(g, g.entities) && c !in DefensiveCutPoints(g) ==>
              |DefensiveCutPoints(g)| == 8 && forall r :: r in DefensiveCutPoints(g) ==> Better(r, c)
  {
    var candidates := Candidates(g, g.entities);
    CandidateIds(g, g.entities);
    hide Valid, Candidates, OnDifferentEntities, FirstEight;
    DifferentAreDistinct(candidates);
    CutOrderIsTotal();
    SortSorts(candidates, CutOrder);
    SortPermutes(candidates, CutOrder);
    SortKeepsDistinct(candidates, CutOrder);
    SortedAreBetter(candidates, Sort(candidates, CutOrder));
    FirstAreBest(Sort(candidates, CutOrder));
  }

  lemma DifferentAreDistinct(cuts: seq<CutPoint>)
    requires OnDifferentEntities(cuts)
    ensures NoDuplicates(cuts)
  {
  }

  lemma SortedAreBetter(candidates: seq<CutPoint>, sorted: seq<CutPoint>)
    requires OnDifferentEntities(candidates)
    requires SortedBy(sorted, CutOrder) && NoDuplicates(sorted) && forall c :: c in sorted <==> c in candidates
    ensures forall i, j :: 0 <= i < j < |sorted| ==> Better(sorted[i], sorted[j])
  {
    forall i, j | 0 <= i < j < |sorted| ensures Better(sorted[i], sorted[j]) {
      assert sorted[i] in candidates && sorted[j] in candidates && CutOrder(sorted[i], sorted[j]);
      var a :| 0 <= a < |candidates| && candidates[a] == sorted[i];
      var b :| 0 <= b < |candidates| && candidates[b] == sorted[j];
    }
  }

  lemma FirstAreBest(sorted: seq<CutPoint>)
    requires forall i, j :: 0 <= i < j < |sorted| ==> Better(sorted[i], sorted[j])
    ensures var cuts := FirstEight(sorted);
            && (forall i, j :: 0 <= i < j < |cuts| ==> Better(cuts[i], cuts[j]))
            && (forall c, r :: c in sorted && c !in cuts && r in cuts ==> |cuts| == 8 && Better(r, c))
            && (forall c :: c in sorted && c !in cuts ==> |cuts| == 8)
  {
    hide Better;
    var cuts := FirstEight(sorted);
    forall c | c in sorted && c !in cuts ensures |cuts| == 8 && forall r :: r in cuts ==> Better(r, c) {
      var i :| 0 <= i < |sorted| && sorted[i] == c;
      assert forall k :: 0 <= k < |cuts| ==> sorted[k] in cuts;
      forall r | r in cuts ensures Better(r, c) {
        var j :| 0 <= j < |cuts| && cuts[j] == r;
        assert Better(sorted[j], sorted[i]);
      }
    }
  }
}
