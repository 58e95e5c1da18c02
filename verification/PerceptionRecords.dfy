/** What a compiled graph records of each observation (cyber_perception.py). */
module PerceptionRecords {
  import opened Ordering
  import opened StateGraph
  import opened Perception
  import opened PerceptionLaws

  /** Observation i tells of the relation that this identifier was computed for. */
  predicate TellsOf(os: seq<Observation>, key: RelationKey, id: Id, i: int) {
    0 <= i < |os| && key(os[i].source.id, os[i].kind.folded, os[i].target.id) == id
  }

  /** Observation i is the last on the relation with this evidence. */
  ghost predicate LastWith(os: seq<Observation>, key: RelationKey, id: Id, evidenceId: Id, i: int) {
    && TellsOf(os, key, id, i) && os[i].evidenceId == evidenceId
    && forall j :: i < j < |os| && TellsOf(os, key, id, j) ==> os[j].evidenceId != evidenceId
  }

  /** The record repeats evidence, source, digest and time of the observation. */
  predicate Repeats(e: EvidenceRef, o: Observation) {
    && e.evidenceId == o.evidenceId && e.source == o.origin && e.contentSha256 == o.evidenceSha
    && e.timestamp == o.observedAt
  }

  lemma LastWithPrefix(os: seq<Observation>, key: RelationKey, id: Id, evidenceId: Id, i: int)
    requires os != [] && 0 <= i < |os| - 1
    requires !(TellsOf(os, key, id, |os| - 1) && os[|os| - 1].evidenceId == evidenceId)
    ensures LastWith(os, key, id, evidenceId, i) <==> LastWith(os[..|os| - 1], key, id, evidenceId, i)
  {
    var init := os[..|os| - 1];
    assert forall j :: 0 <= j < |init| ==> init[j] == os[j] && (TellsOf(init, key, id, j) <==> TellsOf(os, key, id, j));
  }

  lemma {:induction false} RecordIsLast(os: seq<Observation>, key: RelationKey, id: Id, evidenceId: Id)
    ensures evidenceId in RecordsOf(os, key, id) ==>
              exists i :: LastWith(os, key, id, evidenceId, i) && Repeats(RecordsOf(os, key, id)[evidenceId], os[i])
    ensures forall i :: LastWith(os, key, id, evidenceId, i) ==>
              evidenceId in RecordsOf(os, key, id) && Repeats(RecordsOf(os, key, id)[evidenceId], os[i])
  {
    if os != [] {
      hide LastWith, Repeats;
      var n := |os| - 1;
      var init, last := os[..n], os[n];
      RecordIsLast(init, key, id, evidenceId);
      RecordOfLast(os, key, id, evidenceId);
      forall i | LastWith(os, key, id, evidenceId, i)
        ensures evidenceId in RecordsOf(os, key, id) && Repeats(RecordsOf(os, key, id)[evidenceId], os[i])
      {
        LastIsInRange(os, key, id, evidenceId, i);
        if i < n {
          LastWithPrefix(os, key, id, evidenceId, i);
          assert init[i] == os[i];
        }
      }
      if evidenceId in RecordsOf(os, key, id) && !LastWith(os, key, id, evidenceId, n) {
        var i :| LastWith(init, key, id, evidenceId, i) && Repeats(RecordsOf(init, key, id)[evidenceId], init[i]);
        LastIsInRange(init, key, id, evidenceId, i);
        LastWithPrefix(os, key, id, evidenceId, i);
        assert init[i] == os[i];
      }
    }
  }

  lemma LastIsInRange(os: seq<Observation>, key: RelationKey, id: Id, evidenceId: Id, i: int)
    requires LastWith(os, key, id, evidenceId, i)
    ensures 0 <= i < |os|
    ensures i < |os| - 1 ==> !(TellsOf(os, key, id, |os| - 1) && os[|os| - 1].evidenceId == evidenceId)
  {
  }

  lemma LastAreInRange(os: seq<Observation>, key: RelationKey, id: Id, evidenceId: Id)
    ensures forall i :: LastWith(os, key, id, evidenceId, i) ==> 0 <= i < |os|
  {
  }

  /** The last observation either is the record for this evidence or leaves the earlier record alone. */
  lemma RecordOfLast(os: seq<Observation>, key: RelationKey, id: Id, evidenceId: Id)
    requires os != []
    ensures var n := |os| - 1; var records, before := RecordsOf(os, key, id), RecordsOf(os[..n], key, id);
            && (LastWith(os, key, id, evidenceId, n) <==> TellsOf(os, key, id, n) && os[n].evidenceId == evidenceId)
            && if LastWith(os, key, id, evidenceId, n)
               then evidenceId in records && Repeats(records[evidenceId], os[n])
               else (evidenceId in records <==> evidenceId in before)
                    && (evidenceId in before ==> records[evidenceId] == before[evidenceId])
  {
  }

  /**
   The evidence of a relation: for every evidence identifier of its observations one record, which repeats source,
   digest and time of the last observation that brought it.
   */
  lemma EvidenceMeaning(os: seq<Observation>, key: RelationKey, id: Id, e: EvidenceRef)
    requires id in RelationMap(os, key)
    ensures e in RelationMap(os, key)[id].evidence <==>
              exists i :: LastWith(os, key, id, e.evidenceId, i) && Repeats(e, os[i])
  {
    LastAreInRange(os, key, id, e.evidenceId);
    hide RecordsOf, LastWith, Listed, MaxConfidence, FirstOf, Repeats;
    RecordIsLast(os, key, id, e.evidenceId);
    RecordsMeaning(os, key, id);
    ListedRecord(RecordsOf(os, key, id), e);
    if i :| LastWith(os, key, id, e.evidenceId, i) && Repeats(e, os[i]) {
      OneRecord(e, RecordsOf(os, key, id)[e.evidenceId], os[i]);
    }
  }

  lemma OneRecord(a: EvidenceRef, b: EvidenceRef, o: Observation)
    requires Repeats(a, o) && Repeats(b, o)
    ensures a == b
  {
  }

  lemma ListedRecord(records: map<Id, EvidenceRef>, e: EvidenceRef)
    requires KeyedById(records)
    ensures e in Listed(records) <==> e.evidenceId in records && records[e.evidenceId] == e
  {
    hide Listed, SortedIds;
    ListedAt(records);
    var keys := SortedIds(records.Keys);
    if e in Listed(records) {
      var j :| 0 <= j < |Listed(records)| && Listed(records)[j] == e;
      assert records[keys[j]] == e;
    }
    if e.evidenceId in records {
      var j :| 0 <= j < |keys| && keys[j] == e.evidenceId;
      assert Listed(records)[j] == records[e.evidenceId];
    }
  }

  /** Observation i is the first on the relation. */
  ghost predicate FirstWith(os: seq<Observation>, key: RelationKey, id: Id, i: int) {
    TellsOf(os, key, id, i) && forall j :: 0 <= j < i ==> !TellsOf(os, key, id, j)
  }

  lemma {:induction false} FirstIsFirst(os: seq<Observation>, key: RelationKey, id: Id)
    requires id in RelationIdsOf(os, key)
    ensures exists i :: FirstWith(os, key, id, i) && FirstOf(os, key, id) == os[i]
  {
    var n := |os| - 1;
    var init := os[..n];
    assert os == init + [os[n]];
    if id in RelationIdsOf(init, key) {
      FirstIsFirst(init, key, id);
      var i :| FirstWith(init, key, id, i) && FirstOf(init, key, id) == init[i];
      assert forall j :: 0 <= j <= i ==> (TellsOf(os, key, id, j) <==> TellsOf(init, key, id, j));
      assert FirstWith(os, key, id, i) && os[i] == init[i];
    } else {
      assert forall j :: 0 <= j < n ==> init[j] in init && RelationIdOf(init[j], key) != id;
      assert forall j :: 0 <= j < n ==> !TellsOf(os, key, id, j);
      assert FirstWith(os, key, id, n);
    }
  }

  /** A relation joins the ends of its first observation and keeps that observation's spelling of its type. */
  lemma RelationIsOfFirst(os: seq<Observation>, key: RelationKey, id: Id)
    requires id in RelationMap(os, key)
    ensures var r := RelationMap(os, key)[id];
            exists i :: FirstWith(os, key, id, i)
                        && r.source == os[i].source.id && r.target == os[i].target.id && r.kind == os[i].kind
  {
    hide FirstOf, MaxConfidence, RecordsOf, Listed, FirstWith;
    FirstIsFirst(os, key, id);
  }

  // ----- entities

  /** An observation names the entity as one of its ends, with these particulars. */
  ghost predicate Names(os: seq<Observation>, m: Perceived) {
    exists o :: o in os && (m == o.source || m == o.target)
  }

  lemma MentionsAreNamed(os: seq<Observation>)
    ensures forall m :: m in Mentions(os) <==> Names(os, m)
  {
    hide Mentions;
    forall m ensures m in Mentions(os) <==> Names(os, m) {
      MentionsMeaning(os, m);
    }
  }

  /** When the mentions agree, the entities are those named, and an entity has the type of each of its mentions. */
  lemma EntityMeaning(os: seq<Observation>, id: Id)
    requires MentionsAgree(Mentions(os))
    ensures id in EntityMap(Mentions(os)) <==> exists m :: Names(os, m) && m.id == id
    ensures id in EntityMap(Mentions(os)) ==>
              && EntityMap(Mentions(os))[id].id == id
              && forall m :: Names(os, m) && m.id == id ==> EntityMap(Mentions(os))[id].kind == m.kind
  {
    MentionsAreNamed(os);
    hide Mentions, Names, LabelsOf, KindOf, MentionsAgree;
    if id in EntityMap(Mentions(os)) {
      KindMeaning(Mentions(os), id);
    }
  }

  /** It carries exactly the labels of its mentions. */
  lemma LabelIff(os: seq<Observation>, id: Id, k: Id, v: Id)
    requires MentionsAgree(Mentions(os)) && id in EntityMap(Mentions(os))
    ensures var labels := EntityMap(Mentions(os))[id].labels;
            k in labels && labels[k] == v <==> exists m :: Names(os, m) && HasLabel(m, id, k, v)
  {
    MentionsAreNamed(os);
    hide Mentions, Names, LabelsOf, KindOf, MentionsAgree;
    LabelsMeaning(Mentions(os), id, k, v);
    if m :| Names(os, m) && HasLabel(m, id, k, v) {
      assert m in Mentions(os);
    }
  }

  predicate HasLabel(m: Perceived, id: Id, k: Id, v: Id) {
    m.id == id && k in m.labels && m.labels[k] == v
  }
}
