/** What a compiled graph says about its observations, and how far their order matters. */
module PerceptionLaws {
  import opened Ordering
  import opened StateGraph
  import opened Perception

  // ----- membership

  lemma {:induction false} MentionsMeaning(os: seq<Observation>, m: Perceived)
    ensures m in Mentions(os) <==> exists o :: o in os && (m == o.source || m == o.target)
  {
    if os != [] {
      var init, last := os[..|os| - 1], os[|os| - 1];
      assert os == init + [last];
      MentionsMeaning(init, m);
      assert last in os && forall o :: o in init ==> o in os;
      if o :| o in os && (m == o.source || m == o.target) {
        assert o in init || o == last;
      }
    }
  }

  lemma {:induction false} FirstMeaning(os: seq<Observation>, key: RelationKey, id: Id)
    requires id in RelationIdsOf(os, key)
    ensures FirstOf(os, key, id) in os && RelationIdOf(FirstOf(os, key, id), key) == id
  {
    var init, last := os[..|os| - 1], os[|os| - 1];
    assert os == init + [last];
    if id in RelationIdsOf(init, key) {
      FirstMeaning(init, key, id);
    }
  }

  /** The confidence of a relation is the maximum over its observations. */
  lemma {:induction false} ConfidenceIsMaximum(os: seq<Observation>, key: RelationKey, id: Id)
    requires id in RelationIdsOf(os, key)
    ensures forall o :: o in os && RelationIdOf(o, key) == id ==> o.confidence <= MaxConfidence(os, key, id)
    ensures exists o :: o in os && RelationIdOf(o, key) == id && o.confidence == MaxConfidence(os, key, id)
  {
    var init, last := os[..|os| - 1], os[|os| - 1];
    assert os == init + [last];
    assert last in os && forall o :: o in init ==> o in os;
    if id in RelationIdsOf(init, key) {
      ConfidenceIsMaximum(init, key, id);
      var o :| o in init && RelationIdOf(o, key) == id && o.confidence == MaxConfidence(init, key, id);
      assert o in os;
    }
  }

  /** The evidence identifiers of a relation's observations. */
  ghost function EvidenceIdsFor(os: seq<Observation>, key: RelationKey, id: Id): set<Id> {
    set o | o in os && RelationIdOf(o, key) == id :: o.evidenceId
  }

  lemma RecordKeys(os: seq<Observation>, key: RelationKey, id: Id)
    ensures RecordsOf(os, key, id).Keys == EvidenceIdsFor(os, key, id)
  {
    RecordsMeaning(os, key, id);
  }

  // ----- what the graph says

  /**
   Each relation is observed, joins two entities of the graph, has the greatest confidence of its observations,
   and its evidence, in identifier order, holds one record for each of their evidence identifiers.
   */
  lemma RelationSummarisesObservations(os: seq<Observation>, key: RelationKey, id: Id)
    requires id in RelationMap(os, key)
    ensures var r := RelationMap(os, key)[id];
            && r.id == id && r.status == OBSERVED
            && r.source in EntityMap(Mentions(os)) && r.target in EntityMap(Mentions(os))
            && (forall o :: o in os && RelationIdOf(o, key) == id ==> o.confidence <= r.confidence)
            && (exists o :: o in os && RelationIdOf(o, key) == id && o.confidence == r.confidence)
            && StrictlyIncreasing(EvidenceIdList(r.evidence))
            && Elements(EvidenceIdList(r.evidence)) == EvidenceIdsFor(os, key, id) != {}
  {
    hide MaxConfidence, RecordsOf, FirstOf, Listed, EntityMap, EntityOf;
    var first := FirstOf(os, key, id);
    FirstMeaning(os, key, id);
    ConfidenceIsMaximum(os, key, id);
    MentionsMeaning(os, first.source);
    MentionsMeaning(os, first.target);
    EntityKeys(Mentions(os));
    RecordsMeaning(os, key, id);
    RecordKeys(os, key, id);
    ListedIds(RecordsOf(os, key, id));
    assert first.evidenceId in EvidenceIdsFor(os, key, id);
  }

  function EvidenceIdList(evidence: seq<EvidenceRef>): seq<Id> {
    seq(|evidence|, i requires 0 <= i < |evidence| => evidence[i].evidenceId)
  }

  lemma EntityKeys(ms: seq<Perceived>)
    ensures EntityMap(ms).Keys == MentionedIds(ms)
  {
  }

  lemma ListedIds(m: map<Id, EvidenceRef>)
    requires KeyedById(m)
    ensures EvidenceIdList(Listed(m)) == SortedIds(m.Keys)
    ensures Elements(EvidenceIdList(Listed(m))) == m.Keys
  {
    ListedAt(m);
  }

  lemma EntityAt(ms: seq<Perceived>, id: Id)
    requires id in EntityMap(ms)
    ensures EntityMap(ms)[id].id == id
  {
  }

  lemma RelationAt(os: seq<Observation>, key: RelationKey, id: Id)
    requires id in RelationMap(os, key)
    ensures RelationMap(os, key)[id].id == id && RelationMap(os, key)[id] == RelationOf(os, key, id)
  {
  }

  /** The entities are listed in identifier order, one for each mentioned identifier. */
  lemma ListedEntities(ms: seq<Perceived>)
    ensures var es := Listed(EntityMap(ms));
            && (forall i, j :: 0 <= i < j < |es| ==> es[i].id < es[j].id)
            && (forall id :: id in MentionedIds(ms) ==> EntityMap(ms)[id] in es && EntityMap(ms)[id].id == id)
  {
    hide Listed, SortedIds, EntityMap;
    var m := EntityMap(ms);
    var es, keys := Listed(m), SortedIds(m.Keys);
    EntityKeys(ms);
    ListedAt(m);
    forall i | 0 <= i < |es| ensures es[i].id == keys[i] {
      EntityAt(ms, keys[i]);
    }
    forall id | id in MentionedIds(ms) ensures m[id] in es && m[id].id == id {
      var i :| 0 <= i < |keys| && keys[i] == id;
      assert es[i] == m[id];
      EntityAt(ms, id);
    }
  }

  lemma ListedRelations(os: seq<Observation>, key: RelationKey)
    ensures var rs := Listed(RelationMap(os, key));
            && (forall i, j :: 0 <= i < j < |rs| ==> rs[i].id < rs[j].id)
            && (forall r :: r in rs ==> r.id in RelationMap(os, key) && r == RelationMap(os, key)[r.id])
  {
    hide Listed, SortedIds, RelationMap, RelationOf;
    var m := RelationMap(os, key);
    var rs, keys := Listed(m), SortedIds(m.Keys);
    ListedAt(m);
    forall i | 0 <= i < |rs| ensures rs[i].id == keys[i] && rs[i] == m[keys[i]] {
      RelationAt(os, key, keys[i]);
    }
    forall r | r in rs ensures r.id in m && r == m[r.id] {
      var i :| 0 <= i < |rs| && rs[i] == r;
      assert rs[i].id == keys[i];
    }
  }

  /** A compiled graph passes the graph's own validators exactly when its identifier fits. */
  lemma CompiledGraphIsValid(os: seq<Observation>, key: RelationKey, graphId: GraphId)
    requires forall o :: o in os ==> 0.0 <= o.confidence <= 1.0
    ensures Valid(GraphOf(os, key, graphId)) <==> FitsIdField(graphId.length)
  {
    hide Listed, RelationMap, EntityMap, Mentions, MentionedIds, EvidenceIdsFor, StrictlyIncreasing, RelationIdOf;
    var g := GraphOf(os, key, graphId);
    ListedEntities(Mentions(os));
    ListedRelations(os, key);
    forall r | r in g.relations ensures ValidRelation(r) && r.source in EntityIds(g) && r.target in EntityIds(g) {
      RelationIsValid(os, key, r.id, g);
    }
  }

  lemma SomeEvidence(evidence: seq<EvidenceRef>)
    ensures Elements(EvidenceIdList(evidence)) != {} ==> evidence != []
  {
    if Elements(EvidenceIdList(evidence)) != {} {
      var x := SomeElement(Elements(EvidenceIdList(evidence)));
      assert x in EvidenceIdList(evidence);
    }
  }

  lemma RelationIsValid(os: seq<Observation>, key: RelationKey, id: Id, g: Graph)
    requires id in RelationMap(os, key) && forall o :: o in os ==> 0.0 <= o.confidence <= 1.0
    requires forall x :: x in MentionedIds(Mentions(os)) ==>
               EntityMap(Mentions(os))[x] in g.entities && EntityMap(Mentions(os))[x].id == x
    ensures var r := RelationMap(os, key)[id]; ValidRelation(r) && r.source in EntityIds(g) && r.target in EntityIds(g)
  {
    RelationSummarisesObservations(os, key, id);
    hide Listed, RelationMap, EntityMap, Mentions, StrictlyIncreasing;
    var r := RelationMap(os, key)[id];
    var o :| o in os && RelationIdOf(o, key) == id && o.confidence == r.confidence;
    EntityKeys(Mentions(os));
    SomeEvidence(r.evidence);
    assert EntityMap(Mentions(os))[r.source] in g.entities && EntityMap(Mentions(os))[r.target] in g.entities;
  }

  // ----- what does not depend on the order

  ghost predicate SameObservations(a: seq<Observation>, b: seq<Observation>) {
    forall o :: o in a <==> o in b
  }

  lemma SameMentions(a: seq<Observation>, b: seq<Observation>)
    requires SameObservations(a, b)
    ensures forall m :: m in Mentions(a) <==> m in Mentions(b)
  {
    forall m ensures m in Mentions(a) <==> m in Mentions(b) {
      MentionsMeaning(a, m);
      MentionsMeaning(b, m);
    }
  }

  lemma SameEntities(a: seq<Perceived>, b: seq<Perceived>)
    requires MentionsAgree(a) && forall m :: m in a <==> m in b
    ensures EntityMap(a) == EntityMap(b)
  {
    assert MentionedIds(a) == MentionedIds(b);
    forall id | id in MentionedIds(a) ensures EntityOf(a, id) == EntityOf(b, id) {
      KindMeaning(a, id);
      KindMeaning(b, id);
      assert MentionsAgree(b);
      forall k: Id, v: Id ensures Labelled(LabelsOf(a, id), k, v) <==> Labelled(LabelsOf(b, id), k, v) {
        LabelsMeaning(a, id, k, v);
        LabelsMeaning(b, id, k, v);
      }
      SameLabels(LabelsOf(a, id), LabelsOf(b, id));
    }
  }

  predicate Labelled(labels: map<Id, Id>, k: Id, v: Id) {
    k in labels && labels[k] == v
  }

  lemma SameLabels(a: map<Id, Id>, b: map<Id, Id>)
    requires forall k: Id, v: Id :: Labelled(a, k, v) <==> Labelled(b, k, v)
    ensures a == b
  {
    forall k | k in a ensures k in b && b[k] == a[k] {
      assert Labelled(a, k, a[k]);
    }
    forall k | k in b ensures k in a {
      assert Labelled(b, k, b[k]);
    }
  }

  /**
   Whether a batch compiles, its entities, and each relation's confidence and evidence identifiers depend only
   on which observations it holds: not on their order, nor on repetitions.
   */
  lemma OrderIsImmaterial(a: seq<Observation>, b: seq<Observation>, key: RelationKey)
    requires SameObservations(a, b)
    ensures Consistent(a, key) <==> Consistent(b, key)
    ensures Consistent(a, key) ==> EntityMap(Mentions(a)) == EntityMap(Mentions(b))
    ensures RelationMap(a, key).Keys == RelationMap(b, key).Keys
    ensures forall id :: id in RelationMap(a, key) ==>
              && RelationMap(a, key)[id].confidence == RelationMap(b, key)[id].confidence
              && EvidenceIdList(RelationMap(a, key)[id].evidence) == EvidenceIdList(RelationMap(b, key)[id].evidence)
  {
    hide EntityMap, Mentions, MaxConfidence, RecordsOf, FirstOf, Listed;
    SameMentions(a, b);
    if Consistent(a, key) {
      SameEntities(Mentions(a), Mentions(b));
    }
    assert RelationIdsOf(a, key) == RelationIdsOf(b, key);
    forall id | id in RelationMap(a, key)
      ensures RelationMap(a, key)[id].confidence == RelationMap(b, key)[id].confidence
      ensures EvidenceIdList(RelationMap(a, key)[id].evidence) == EvidenceIdList(RelationMap(b, key)[id].evidence)
    {
      ConfidenceIsMaximum(a, key, id);
      ConfidenceIsMaximum(b, key, id);
      SameRecordKeys(a, b, key, id);
    }
  }

  lemma SameEvidenceIds(a: seq<Observation>, b: seq<Observation>, key: RelationKey, id: Id)
    requires SameObservations(a, b)
    ensures EvidenceIdsFor(a, key, id) == EvidenceIdsFor(b, key, id)
  {
  }

  lemma SameRecordKeys(a: seq<Observation>, b: seq<Observation>, key: RelationKey, id: Id)
    requires SameObservations(a, b)
    ensures RecordsOf(a, key, id).Keys == RecordsOf(b, key, id).Keys
    ensures EvidenceIdList(Listed(RecordsOf(a, key, id))) == EvidenceIdList(Listed(RecordsOf(b, key, id)))
  {
    hide RecordsOf, Listed, SortedIds, EvidenceIdsFor, SameObservations, RelationIdOf, EvidenceIdList;
    RecordKeys(a, key, id);
    RecordKeys(b, key, id);
    RecordsMeaning(a, key, id);
    RecordsMeaning(b, key, id);
    ListedIds(RecordsOf(a, key, id));
    ListedIds(RecordsOf(b, key, id));
    SameEvidenceIds(a, b, key, id);
  }

  // ----- when the whole graph does not depend on the order

  predicate Interchangeable(a: Observation, b: Observation, key: RelationKey) {
    RelationIdOf(a, key) == RelationIdOf(b, key) ==>
      && a.source.id == b.source.id && a.target.id == b.target.id && a.kind == b.kind
      && (a.evidenceId == b.evidenceId ==> EvidenceOf(a) == EvidenceOf(b))
  }

  /**
   Observations of one relation write its type alike, join the same entities, and repeat an evidence identifier
   only with the same source and timestamp.
   */
  ghost predicate Uniform(os: seq<Observation>, key: RelationKey) {
    forall a, b :: a in os && b in os ==> Interchangeable(a, b, key)
  }

  lemma UniformRelation(a: seq<Observation>, b: seq<Observation>, key: RelationKey, id: Id)
    requires SameObservations(a, b) && Uniform(a, key) && id in RelationIdsOf(a, key) && id in RelationIdsOf(b, key)
    ensures RelationOf(a, key, id) == RelationOf(b, key, id)
  {
    hide MaxConfidence, FirstOf, Listed, RecordsOf;
    FirstMeaning(a, key, id);
    FirstMeaning(b, key, id);
    assert Interchangeable(FirstOf(a, key, id), FirstOf(b, key, id), key);
    ConfidenceIsMaximum(a, key, id);
    ConfidenceIsMaximum(b, key, id);
    SameRecordKeys(a, b, key, id);
    RecordsMeaning(a, key, id);
    RecordsMeaning(b, key, id);
    forall k | k in RecordsOf(a, key, id) ensures RecordsOf(a, key, id)[k] == RecordsOf(b, key, id)[k] {
      var o :| o in a && RelationIdOf(o, key) == id && o.evidenceId == k && EvidenceOf(o) == RecordsOf(a, key, id)[k];
      var p :| p in b && RelationIdOf(p, key) == id && p.evidenceId == k && EvidenceOf(p) == RecordsOf(b, key, id)[k];
      assert Interchangeable(o, p, key);
    }
    assert RecordsOf(a, key, id) == RecordsOf(b, key, id);
  }

  lemma UniformGraph(a: seq<Observation>, b: seq<Observation>, key: RelationKey, graphId: GraphId)
    requires SameObservations(a, b) && Consistent(a, key) && Uniform(a, key)
    ensures GraphOf(a, key, graphId) == GraphOf(b, key, graphId)
  {
    hide RelationOf, EntityMap, Mentions, Listed;
    SameMentions(a, b);
    SameEntities(Mentions(a), Mentions(b));
    assert RelationIdsOf(a, key) == RelationIdsOf(b, key);
    forall id | id in RelationIdsOf(a, key) ensures RelationOf(a, key, id) == RelationOf(b, key, id) {
      UniformRelation(a, b, key, id);
    }
    assert RelationMap(a, key) == RelationMap(b, key);
  }

  function ToFront(os: seq<Observation>, i: nat): seq<Observation>
    requires i < |os|
  {
    [os[i]] + (os[..i] + os[i + 1..])
  }

  function ToBack(os: seq<Observation>, i: nat): seq<Observation>
    requires i < |os|
  {
    os[..i] + os[i + 1..] + [os[i]]
  }

  lemma Moved(os: seq<Observation>, i: nat)
    requires i < |os|
    ensures multiset(ToFront(os, i)) == multiset(os) && multiset(ToBack(os, i)) == multiset(os)
  {
    assert os == os[..i] + [os[i]] + os[i + 1..];
  }

  lemma {:induction false} FirstOfFront(first: Observation, rest: seq<Observation>, key: RelationKey)
    ensures var id := RelationIdOf(first, key);
            id in RelationIdsOf([first] + rest, key) && FirstOf([first] + rest, key, id) == first
  {
    var all := [first] + rest;
    assert first in all;
    if rest == [] {
      assert all[..0] == [] && all[0] == first;
    } else {
      FirstOfFront(first, rest[..|rest| - 1], key);
      assert all[..|all| - 1] == [first] + rest[..|rest| - 1];
    }
  }

  lemma RecordOfBack(os: seq<Observation>, i: nat, key: RelationKey)
    requires i < |os|
    ensures var id := RelationIdOf(os[i], key);
            && id in RelationIdsOf(ToBack(os, i), key)
            && os[i].evidenceId in RecordsOf(ToBack(os, i), key, id)
            && RecordsOf(ToBack(os, i), key, id)[os[i].evidenceId] == EvidenceOf(os[i])
  {
    var all := ToBack(os, i);
    assert all[|all| - 1] == os[i] && all[|all| - 1] in all;
  }

  /** Dictionaries over the same keys with the same listing are the same. */
  lemma ListingFixesMap<T(!new)>(a: map<Id, T>, b: map<Id, T>)
    requires a.Keys == b.Keys && Listed(a) == Listed(b)
    ensures a == b
  {
    hide Listed, SortedIds;
    ListedAt(a);
    ListedAt(b);
    forall k | k in a ensures a[k] == b[k] {
      var i :| 0 <= i < |SortedIds(a.Keys)| && SortedIds(a.Keys)[i] == k;
      assert Listed(a)[i] == a[k] && Listed(b)[i] == b[k];
    }
  }

  lemma SameRelationIds(a: seq<Observation>, b: seq<Observation>, key: RelationKey)
    requires SameObservations(a, b)
    ensures RelationIdsOf(a, key) == RelationIdsOf(b, key)
  {
  }

  /** A graph determines its relations and their records. */
  lemma GraphFixesRelation(a: seq<Observation>, b: seq<Observation>, key: RelationKey, graphId: GraphId, id: Id)
    requires SameObservations(a, b) && GraphOf(a, key, graphId) == GraphOf(b, key, graphId)
    requires id in RelationIdsOf(a, key)
    ensures id in RelationIdsOf(b, key) && RelationOf(a, key, id) == RelationOf(b, key, id)
    ensures RecordsOf(a, key, id) == RecordsOf(b, key, id)
  {
    hide RelationOf, Mentions, EntityMap, Listed, SortedIds, RelationIdsOf, SameObservations, RecordsOf;
    SameRelationIds(a, b, key);
    assert RelationMap(a, key).Keys == RelationIdsOf(a, key) && RelationMap(b, key).Keys == RelationIdsOf(b, key);
    ListingFixesMap(RelationMap(a, key), RelationMap(b, key));
    RelationAt(a, key, id);
    RelationAt(b, key, id);
    RelationFixesRecords(a, b, key, id);
  }

  lemma RelationFixesRecords(a: seq<Observation>, b: seq<Observation>, key: RelationKey, id: Id)
    requires id in RelationIdsOf(a, key) && id in RelationIdsOf(b, key)
             && RelationOf(a, key, id) == RelationOf(b, key, id)
    ensures RecordsOf(a, key, id) == RecordsOf(b, key, id)
  {
    hide RecordsOf, Listed, FirstOf, MaxConfidence, ById;
    RecordsMeaning(a, key, id);
    RecordsMeaning(b, key, id);
    ByIdOfListed(RecordsOf(a, key, id));
    ByIdOfListed(RecordsOf(b, key, id));
  }

  ghost predicate OrderFree(os: seq<Observation>, key: RelationKey, graphId: GraphId) {
    forall other: seq<Observation> ::
      multiset(other) == multiset(os) ==> GraphOf(other, key, graphId) == GraphOf(os, key, graphId)
  }

  lemma SameMultisetSameObservations(a: seq<Observation>, b: seq<Observation>)
    requires multiset(a) == multiset(b)
    ensures SameObservations(a, b)
  {
    forall o ensures o in a <==> o in b {
      assert o in multiset(a) <==> o in multiset(b);
    }
  }

  lemma OrderFreeIsUniform(os: seq<Observation>, key: RelationKey, graphId: GraphId, i: nat, j: nat)
    requires OrderFree(os, key, graphId) && i < |os| && j < |os|
    ensures Interchangeable(os[i], os[j], key)
  {
    var id := RelationIdOf(os[i], key);
    if RelationIdOf(os[j], key) == id {
      hide GraphOf, RelationOf, FirstOf, RecordsOf, RelationIdsOf;
      FixedByMoving(os, key, graphId, i);
      FixedByMoving(os, key, graphId, j);
      FirstShows(os, key, i);
      FirstShows(os, key, j);
      RecordOfBack(os, i, key);
      RecordOfBack(os, j, key);
    }
  }

  /** Moving an observation to the front or to the back leaves an order-free batch's relation alone. */
  lemma FixedByMoving(os: seq<Observation>, key: RelationKey, graphId: GraphId, i: nat)
    requires OrderFree(os, key, graphId) && i < |os|
    ensures var id := RelationIdOf(os[i], key);
            && id in RelationIdsOf(os, key) && id in RelationIdsOf(ToFront(os, i), key)
            && RelationOf(os, key, id) == RelationOf(ToFront(os, i), key, id)
            && RecordsOf(os, key, id) == RecordsOf(ToBack(os, i), key, id)
  {
    var id := RelationIdOf(os[i], key);
    assert os[i] in os && id in RelationIdsOf(os, key);
    hide GraphOf, RelationOf, RecordsOf, RelationIdsOf;
    Moved(os, i);
    SameMultisetSameObservations(os, ToFront(os, i));
    SameMultisetSameObservations(os, ToBack(os, i));
    GraphFixesRelation(os, ToFront(os, i), key, graphId, id);
    GraphFixesRelation(os, ToBack(os, i), key, graphId, id);
  }

  lemma FirstShows(os: seq<Observation>, key: RelationKey, i: nat)
    requires i < |os|
    ensures var id := RelationIdOf(os[i], key);
            && id in RelationIdsOf(ToFront(os, i), key)
            && var r := RelationOf(ToFront(os, i), key, id);
            r.source == os[i].source.id && r.target == os[i].target.id && r.kind == os[i].kind
  {
    hide MaxConfidence, RecordsOf, Listed;
    FirstOfFront(os[i], os[..i] + os[i + 1..], key);
  }

  /** The compiled graph is independent of the order of a consistent batch if and only if the batch is uniform. */
  lemma OrderFreeIffUniform(os: seq<Observation>, key: RelationKey, graphId: GraphId)
    requires Consistent(os, key)
    ensures OrderFree(os, key, graphId) <==> Uniform(os, key)
  {
    hide Consistent, GraphOf;
    if Uniform(os, key) {
      forall other: seq<Observation> | multiset(other) == multiset(os)
        ensures GraphOf(other, key, graphId) == GraphOf(os, key, graphId)
      {
        SameMultisetSameObservations(os, other);
        UniformGraph(os, other, key, graphId);
      }
    }
    if OrderFree(os, key, graphId) {
      forall a, b | a in os && b in os ensures Interchangeable(a, b, key) {
        var i :| 0 <= i < |os| && os[i] == a;
        var j :| 0 <= j < |os| && os[j] == b;
        OrderFreeIsUniform(os, key, graphId, i, j);
      }
    }
  }

  // ----- two batches

  const HOST := Perceived(1, DEVICE, map[])
  const SERVER := Perceived(2, DEVICE, map[])

  /**
   All mentions and digests agree, and the batch is still refused: the source text is too long for an evidence
   record.
   */
  lemma AgreementIsNotEnough(key: RelationKey)
    ensures var o := Observation(10, 20, 129, HOST, SERVER, RelationType(30, 30, None), 0.5, 40, 50, None);
            MentionsAgree(Mentions([o])) && DigestsAgree([o], key) && !Consistent([o], key)
  {
    var o := Observation(10, 20, 129, HOST, SERVER, RelationType(30, 30, None), 0.5, 40, 50, None);
    assert [o][..0] == [] && Mentions([o]) == [HOST, SERVER];
    assert o in [o];
  }

  /** A relation type written in two ways: the batch compiles, and its graph depends on which came first. */
  lemma SpellingMakesOrderMatter(key: RelationKey, graphId: GraphId)
    ensures var a := Observation(10, 20, 9, HOST, SERVER, RelationType(30, 30, None), 0.5, 40, 50, None);
            var b := Observation(11, 20, 9, HOST, SERVER, RelationType(31, 30, None), 0.5, 41, 51, None);
            Consistent([a, b], key) && !OrderFree([a, b], key, graphId)
  {
    var a := Observation(10, 20, 9, HOST, SERVER, RelationType(30, 30, None), 0.5, 40, 50, None);
    var b := Observation(11, 20, 9, HOST, SERVER, RelationType(31, 30, None), 0.5, 41, 51, None);
    var os := [a, b];
    assert [a][..0] == [] && Mentions([a]) == [HOST, SERVER];
    assert os[..|os| - 1] == [a] && Mentions(os) == Mentions([a]) + [HOST, SERVER];
    assert a in os && b in os && !Interchangeable(a, b, key);
    OrderFreeIffUniform(os, key, graphId);
  }
}
