/** Compiling telemetry observations into a state graph (cyber_perception.py). */
module Perception {
  import opened Ordering
  import opened StateGraph

  datatype Perceived = Perceived(id: Id, kind: EntityType, labels: map<Id, Id>)

  /** `origin` is the text "type:instance" of the reporting source, and `originLength` its length. */
  datatype Observation = Observation(
    id: Id, origin: Id, originLength: nat, source: Perceived, target: Perceived, kind: RelationType,
    confidence: real, evidenceId: Id, evidenceSha: Id, observedAt: Option<Id>)

  /** The digest of the joined text "source|type|target"; distinct triples may join to the same text. */
  type RelationKey = (Id, Id, Id) -> Id

  const MAX_SOURCE_LENGTH := 128

  datatype CompileError =
    | TYPE_CONFLICT | LABEL_CONFLICT | DIGEST_CONFLICT | SOURCE_TOO_LONG | BAD_GRAPH_ID

  function RelationIdOf(o: Observation, key: RelationKey): Id {
    key(o.source.id, o.kind.folded, o.target.id)
  }

  function EvidenceOf(o: Observation): EvidenceRef {
    EvidenceRef(o.evidenceId, o.origin, o.evidenceSha, o.observedAt)
  }

  // ----- entities

  function Mentions(os: seq<Observation>): seq<Perceived> {
    if os == [] then [] else
    Mentions(os[..|os| - 1]) + [os[|os| - 1].source, os[|os| - 1].target]
  }

  predicate LabelsAgree(a: map<Id, Id>, b: map<Id, Id>) {
    forall k :: k in a && k in b ==> a[k] == b[k]
  }

  predicate Agree(a: Perceived, b: Perceived) {
    a.id == b.id ==> a.kind == b.kind && LabelsAgree(a.labels, b.labels)
  }

  /** Any two mentions of an entity agree on its type and on the labels they share. */
  ghost predicate MentionsAgree(ms: seq<Perceived>) {
    forall a, b :: a in ms && b in ms ==> Agree(a, b)
  }

  function MentionedIds(ms: seq<Perceived>): set<Id> {
    set m | m in ms :: m.id
  }

  /** The type at the first mention. */
  function KindOf(ms: seq<Perceived>, id: Id): EntityType
    requires id in MentionedIds(ms)
  {
    var init, last := ms[..|ms| - 1], ms[|ms| - 1];
    assert ms == init + [last];
    if id in MentionedIds(init) then KindOf(init, id) else last.kind
  }

  /** All labels of the mentions, merged. */
  function LabelsOf(ms: seq<Perceived>, id: Id): map<Id, Id> {
    if ms == [] then map[] else
    var init, last := ms[..|ms| - 1], ms[|ms| - 1];
    if last.id == id then LabelsOf(init, id) + last.labels else LabelsOf(init, id)
  }

  function EntityOf(ms: seq<Perceived>, id: Id): Entity
    requires id in MentionedIds(ms)
  {
    Entity(id, KindOf(ms, id), LabelsOf(ms, id))
  }

  function EntityMap(ms: seq<Perceived>): map<Id, Entity> {
    map id | id in MentionedIds(ms) :: EntityOf(ms, id)
  }

  /** A mention the accumulated entities can take in. */
  predicate Mergeable(entities: map<Id, Entity>, m: Perceived) {
    m.id in entities ==> entities[m.id].kind == m.kind && LabelsAgree(entities[m.id].labels, m.labels)
  }

  function WithMention(entities: map<Id, Entity>, m: Perceived): map<Id, Entity> {
    entities[m.id := if m.id in entities then entities[m.id].(labels := entities[m.id].labels + m.labels)
                     else Entity(m.id, m.kind, m.labels)]
  }

  // ----- relations

  function RelationIdsOf(os: seq<Observation>, key: RelationKey): set<Id> {
    set o | o in os :: RelationIdOf(o, key)
  }

  /** The observation that introduced a relation. */
  function FirstOf(os: seq<Observation>, key: RelationKey, id: Id): Observation
    requires id in RelationIdsOf(os, key)
  {
    var init, last := os[..|os| - 1], os[|os| - 1];
    assert os == init + [last];
    if id in RelationIdsOf(init, key) then FirstOf(init, key, id) else last
  }

  function MaxConfidence(os: seq<Observation>, key: RelationKey, id: Id): real
    requires id in RelationIdsOf(os, key)
  {
    var init, last := os[..|os| - 1], os[|os| - 1];
    assert os == init + [last];
    if id !in RelationIdsOf(init, key) then last.confidence
    else if RelationIdOf(last, key) == id && last.confidence > MaxConfidence(init, key, id) then last.confidence
    else MaxConfidence(init, key, id)
  }

  /** The evidence records of a relation, by evidence identifier; a repeated identifier keeps the last record. */
  function RecordsOf(os: seq<Observation>, key: RelationKey, id: Id): map<Id, EvidenceRef> {
    if os == [] then map[] else
    var init, last := os[..|os| - 1], os[|os| - 1];
    if RelationIdOf(last, key) == id then RecordsOf(init, key, id)[last.evidenceId := EvidenceOf(last)]
    else RecordsOf(init, key, id)
  }

  /** `[m[k] for k in sorted(m)]`. */
  function Listed<T>(m: map<Id, T>): (r: seq<T>)
    ensures |r| == |m.Keys|
  {
    var keys := SortedIds(m.Keys);
    seq(|keys|, i requires 0 <= i < |keys| => m[keys[i]])
  }

  function RelationOf(os: seq<Observation>, key: RelationKey, id: Id): Relation
    requires id in RelationIdsOf(os, key)
  {
    var first := FirstOf(os, key, id);
    Relation(id, first.source.id, first.target.id, first.kind, OBSERVED, MaxConfidence(os, key, id),
             Listed(RecordsOf(os, key, id)))
  }

  function RelationMap(os: seq<Observation>, key: RelationKey): map<Id, Relation> {
    map id | id in RelationIdsOf(os, key) :: RelationOf(os, key, id)
  }

  function GraphOf(os: seq<Observation>, key: RelationKey, graphId: GraphId): Graph {
    Graph(graphId, Listed(EntityMap(Mentions(os))), Listed(RelationMap(os, key)))
  }

  /** Two observations of one relation that share an evidence identifier. */
  predicate SameEvidence(a: Observation, b: Observation, key: RelationKey) {
    RelationIdOf(a, key) == RelationIdOf(b, key) && a.evidenceId == b.evidenceId
  }

  /** Within a relation an evidence identifier always comes with the same content digest. */
  ghost predicate DigestsAgree(os: seq<Observation>, key: RelationKey) {
    forall a, b :: a in os && b in os && SameEvidence(a, b, key) ==> a.evidenceSha == b.evidenceSha
  }

  ghost predicate OriginsFit(os: seq<Observation>) {
    forall o :: o in os ==> o.originLength <= MAX_SOURCE_LENGTH
  }

  ghost predicate Consistent(os: seq<Observation>, key: RelationKey) {
    MentionsAgree(Mentions(os)) && DigestsAgree(os, key) && OriginsFit(os)
  }

  // ----- one step of each

  /** Some mention of the entity carries the label. */
  ghost predicate Mentioned(ms: seq<Perceived>, id: Id, k: Id, v: Id) {
    exists m :: m in ms && m.id == id && k in m.labels && m.labels[k] == v
  }

  lemma {:induction false} LabelsAreMentioned(ms: seq<Perceived>, id: Id, k: Id)
    ensures k in LabelsOf(ms, id) ==> Mentioned(ms, id, k, LabelsOf(ms, id)[k])
    ensures k in LabelsOf(ms, id) <==> exists v :: Mentioned(ms, id, k, v)
  {
    if ms != [] {
      var init, last := ms[..|ms| - 1], ms[|ms| - 1];
      assert ms == init + [last];
      LabelsAreMentioned(init, id, k);
      assert last in ms && forall m :: m in init ==> m in ms;
      if last.id == id && k in last.labels {
        assert Mentioned(ms, id, k, last.labels[k]);
      } else {
        forall v ensures Mentioned(ms, id, k, v) <==> Mentioned(init, id, k, v) {}
      }
    }
  }

  /** Merged labels are the labels of the mentions, and with agreeing mentions each keeps its value. */
  lemma LabelsMeaning(ms: seq<Perceived>, id: Id, k: Id, v: Id)
    requires MentionsAgree(ms)
    ensures k in LabelsOf(ms, id) && LabelsOf(ms, id)[k] == v <==> Mentioned(ms, id, k, v)
  {
    LabelsAreMentioned(ms, id, k);
    if Mentioned(ms, id, k, v) {
      var m :| m in ms && m.id == id && k in m.labels && m.labels[k] == v;
      var n :| n in ms && n.id == id && k in n.labels && n.labels[k] == LabelsOf(ms, id)[k];
      assert Agree(m, n);
    }
  }

  lemma {:induction false} KindMeaning(ms: seq<Perceived>, id: Id)
    requires id in MentionedIds(ms)
    ensures exists m :: m in ms && m.id == id && m.kind == KindOf(ms, id)
    ensures MentionsAgree(ms) ==> forall m :: m in ms && m.id == id ==> m.kind == KindOf(ms, id)
  {
    var init, last := ms[..|ms| - 1], ms[|ms| - 1];
    assert ms == init + [last];
    if id in MentionedIds(init) {
      KindMeaning(init, id);
      var m :| m in init && m.id == id && m.kind == KindOf(init, id);
      assert m in ms;
    }
    var m :| m in ms && m.id == id && m.kind == KindOf(ms, id);
    forall n | MentionsAgree(ms) && n in ms && n.id == id ensures n.kind == KindOf(ms, id) {
      assert Agree(m, n);
    }
  }

  /** Taking in one more mention, when the earlier ones agree. */
  lemma MentionStep(ms: seq<Perceived>, m: Perceived)
    requires MentionsAgree(ms)
    ensures MentionsAgree(ms + [m]) <==> Mergeable(EntityMap(ms), m)
    ensures EntityMap(ms + [m]) == WithMention(EntityMap(ms), m)
  {
    var all := ms + [m];
    assert all[..|ms|] == ms;
    MergeableIffAgrees(ms, m);
    forall a, b | a in all && b in all && (forall n :: n in ms ==> Agree(n, m)) ensures Agree(a, b) {
      assert a in ms || a == m;
      assert b in ms || b == m;
    }
    assert MentionsAgree(all) ==> forall n :: n in ms ==> n in all && m in all && Agree(n, m);
    assert MentionedIds(all) == MentionedIds(ms) + {m.id} by {
      assert forall x :: x in MentionedIds(all) ==> x in MentionedIds(ms) + {m.id};
      assert m in all;
      assert forall n :: n in ms ==> n in all;
    }
    forall id | id in MentionedIds(all) ensures EntityMap(all)[id] == WithMention(EntityMap(ms), m)[id] {
      if id !in MentionedIds(ms) {
        NoLabels(ms, id);
        assert map[] + m.labels == m.labels;
      }
    }
  }

  lemma {:induction false} NoLabels(ms: seq<Perceived>, id: Id)
    requires id !in MentionedIds(ms)
    ensures LabelsOf(ms, id) == map[]
  {
    if ms != [] {
      var init := ms[..|ms| - 1];
      assert ms == init + [ms[|ms| - 1]];
      assert ms[|ms| - 1] in ms;
      assert forall m :: m in init ==> m in ms;
      NoLabels(init, id);
    }
  }

  lemma MergeableIffAgrees(ms: seq<Perceived>, m: Perceived)
    requires MentionsAgree(ms)
    ensures Mergeable(EntityMap(ms), m) <==> forall n :: n in ms ==> Agree(n, m)
  {
    if m.id in MentionedIds(ms) {
      KindMeaning(ms, m.id);
      if forall n :: n in ms ==> Agree(n, m) {
        forall k | k in LabelsOf(ms, m.id) && k in m.labels ensures LabelsOf(ms, m.id)[k] == m.labels[k] {
          LabelsAreMentioned(ms, m.id, k);
          var n :| n in ms && n.id == m.id && k in n.labels && n.labels[k] == LabelsOf(ms, m.id)[k];
          assert Agree(n, m);
        }
        var n :| n in ms && n.id == m.id && n.kind == KindOf(ms, m.id);
        assert Agree(n, m);
      }
      if Mergeable(EntityMap(ms), m) {
        forall n | n in ms ensures Agree(n, m) {
          if n.id == m.id {
            forall k | k in n.labels && k in m.labels ensures n.labels[k] == m.labels[k] {
              assert Mentioned(ms, m.id, k, n.labels[k]);
              LabelsMeaning(ms, m.id, k, n.labels[k]);
            }
          }
        }
      }
    } else {
      assert forall n :: n in ms ==> n.id in MentionedIds(ms);
      assert forall n :: n in ms ==> n.id != m.id;
    }
  }

  /** `{item.evidence_id: item for item in evidence}`. */
  function ById(evidence: seq<EvidenceRef>): map<Id, EvidenceRef> {
    if evidence == [] then map[] else
    ById(evidence[..|evidence| - 1])[evidence[|evidence| - 1].evidenceId := evidence[|evidence| - 1]]
  }

  ghost predicate KeyedById(m: map<Id, EvidenceRef>) {
    forall k :: k in m ==> m[k].evidenceId == k
  }

  lemma {:induction false} ByIdAt(evidence: seq<EvidenceRef>, k: Id)
    ensures k in ById(evidence) ==> ById(evidence)[k] in evidence && ById(evidence)[k].evidenceId == k
    ensures forall i :: 0 <= i < |evidence| && evidence[i].evidenceId == k ==> k in ById(evidence)
  {
    if evidence != [] {
      var n := |evidence| - 1;
      ByIdAt(evidence[..n], k);
      forall i | 0 <= i < |evidence| && evidence[i].evidenceId == k ensures k in ById(evidence) {
        if i < n {
          assert evidence[..n][i].evidenceId == k;
        }
      }
    }
  }

  lemma ListedAt<T(!new)>(m: map<Id, T>)
    ensures var keys := SortedIds(m.Keys);
            && |keys| == |Listed(m)| && (forall i :: 0 <= i < |keys| ==> keys[i] in m && Listed(m)[i] == m[keys[i]])
            && (forall k :: k in m <==> exists i :: 0 <= i < |keys| && keys[i] == k)
  {
    forall k | k in m ensures exists i :: 0 <= i < |SortedIds(m.Keys)| && SortedIds(m.Keys)[i] == k {
      assert k in SortedIds(m.Keys);
    }
  }

  /** Listing a dictionary keyed by evidence identifier and reading the list back gives the dictionary. */
  lemma ByIdOfListed(m: map<Id, EvidenceRef>)
    requires KeyedById(m)
    ensures ById(Listed(m)) == m
  {
    hide ById, Listed, SortedIds;
    ListedAt(m);
    forall k ensures k in ById(Listed(m)) <==> k in m {
      ListedEntry(m, k);
    }
    forall k | k in m ensures ById(Listed(m))[k] == m[k] {
      ListedEntry(m, k);
    }
  }

  lemma ListedEntry(m: map<Id, EvidenceRef>, k: Id)
    requires KeyedById(m)
    ensures k in ById(Listed(m)) <==> k in m
    ensures k in m ==> ById(Listed(m))[k] == m[k]
  {
    hide ById, Listed, SortedIds;
    var keys, evidence := SortedIds(m.Keys), Listed(m);
    ByIdAt(evidence, k);
    ListedAt(m);
    if k in m {
      var i :| 0 <= i < |keys| && keys[i] == k;
      assert evidence[i].evidenceId == k;
    }
    if k in ById(evidence) {
      var i :| 0 <= i < |evidence| && evidence[i] == ById(evidence)[k];
      assert keys[i] == k;
    }
  }

  lemma ListedOne(m: map<Id, EvidenceRef>, k: Id)
    requires m.Keys == {k}
    ensures Listed(m) == [m[k]]
  {
    var keys := SortedIds(m.Keys);
    assert |keys| == 1 && keys[0] in m.Keys;
  }

  /** An observation whose evidence identifier is new to its relation, or repeats the recorded digest. */
  predicate Recordable(relations: map<Id, Relation>, o: Observation, key: RelationKey) {
    var id := RelationIdOf(o, key);
    id in relations && o.evidenceId in ById(relations[id].evidence) ==>
      ById(relations[id].evidence)[o.evidenceId].contentSha256 == o.evidenceSha
  }

  function WithObservation(relations: map<Id, Relation>, o: Observation, key: RelationKey): map<Id, Relation> {
    var id := RelationIdOf(o, key);
    if id in relations then
      var existing := relations[id];
      relations[id := existing.(
        evidence := Listed(ById(existing.evidence)[o.evidenceId := EvidenceOf(o)]),
        confidence := if o.confidence > existing.confidence then o.confidence else existing.confidence)]
    else
      relations[id := Relation(id, o.source.id, o.target.id, o.kind, OBSERVED, o.confidence, [EvidenceOf(o)])]
  }

  /** Which records a relation has: one per evidence identifier, each from one of its observations. */
  lemma {:induction false} RecordsMeaning(os: seq<Observation>, key: RelationKey, id: Id)
    ensures KeyedById(RecordsOf(os, key, id))
    ensures forall o :: o in os && RelationIdOf(o, key) == id ==> o.evidenceId in RecordsOf(os, key, id)
    ensures forall k :: k in RecordsOf(os, key, id) ==>
              exists o :: o in os && RelationIdOf(o, key) == id && o.evidenceId == k
                && EvidenceOf(o) == RecordsOf(os, key, id)[k]
  {
    if os != [] {
      var init, last := os[..|os| - 1], os[|os| - 1];
      assert os == init + [last];
      RecordsMeaning(init, key, id);
      assert last in os && forall o :: o in init ==> o in os;
      var records := RecordsOf(os, key, id);
      forall k | k in records
        ensures exists o :: o in os && RelationIdOf(o, key) == id && o.evidenceId == k && EvidenceOf(o) == records[k]
      {
        if RelationIdOf(last, key) == id && k == last.evidenceId {
          assert EvidenceOf(last) == records[k];
        } else {
          var o :| o in init && RelationIdOf(o, key) == id && o.evidenceId == k
            && EvidenceOf(o) == RecordsOf(init, key, id)[k];
          assert o in os;
        }
      }
    }
  }

  lemma {:induction false} NoRecords(os: seq<Observation>, key: RelationKey, id: Id)
    requires id !in RelationIdsOf(os, key)
    ensures RecordsOf(os, key, id) == map[]
  {
    if os != [] {
      var init, last := os[..|os| - 1], os[|os| - 1];
      assert os == init + [last];
      assert last in os && forall o :: o in init ==> o in os;
      NoRecords(init, key, id);
    }
  }

  lemma RecordableIffAgrees(os: seq<Observation>, o: Observation, key: RelationKey)
    requires DigestsAgree(os, key)
    ensures Recordable(RelationMap(os, key), o, key)
            <==> forall p :: p in os && SameEvidence(p, o, key) ==> p.evidenceSha == o.evidenceSha
  {
    var id := RelationIdOf(o, key);
    RecordsMeaning(os, key, id);
    ByIdOfListed(RecordsOf(os, key, id));
    var records := RecordsOf(os, key, id);
    if o.evidenceId in records {
      var p :| p in os && RelationIdOf(p, key) == id && p.evidenceId == o.evidenceId
        && EvidenceOf(p) == records[o.evidenceId];
      assert SameEvidence(p, o, key);
      forall q | q in os && SameEvidence(q, o, key) ensures q.evidenceSha == p.evidenceSha {
        assert SameEvidence(q, p, key);
      }
    }
  }

  lemma DigestsStep(os: seq<Observation>, o: Observation, key: RelationKey)
    requires DigestsAgree(os, key)
    ensures DigestsAgree(os + [o], key) <==> Recordable(RelationMap(os, key), o, key)
  {
    hide RelationMap, Recordable;
    RecordableIffAgrees(os, o, key);
    var all := os + [o];
    if forall p :: p in os && SameEvidence(p, o, key) ==> p.evidenceSha == o.evidenceSha {
      forall a, b | a in all && b in all && SameEvidence(a, b, key) ensures a.evidenceSha == b.evidenceSha {
        assert a in os || a == o;
        assert b in os || b == o;
        assert SameEvidence(b, a, key);
      }
    }
    if DigestsAgree(all, key) {
      forall p | p in os && SameEvidence(p, o, key) ensures p.evidenceSha == o.evidenceSha {
        assert p in all && o in all;
      }
    }
  }

  lemma RelationIdsStep(os: seq<Observation>, o: Observation, key: RelationKey)
    ensures RelationIdsOf(os + [o], key) == RelationIdsOf(os, key) + {RelationIdOf(o, key)}
  {
    var all := os + [o];
    assert o in all && forall p :: p in os ==> p in all;
    assert forall p :: p in all ==> p in os || p == o;
  }

  lemma OneRelationStep(os: seq<Observation>, o: Observation, key: RelationKey, id: Id)
    requires id in RelationIdsOf(os, key) || id == RelationIdOf(o, key)
    ensures id in RelationIdsOf(os + [o], key)
    ensures RelationOf(os + [o], key, id) ==
            if id !in RelationIdsOf(os, key) then
              Relation(id, o.source.id, o.target.id, o.kind, OBSERVED, o.confidence, [EvidenceOf(o)])
            else if id != RelationIdOf(o, key) then RelationOf(os, key, id)
            else RelationOf(os, key, id).(
              evidence := Listed(RecordsOf(os, key, id)[o.evidenceId := EvidenceOf(o)]),
              confidence := if o.confidence > MaxConfidence(os, key, id) then o.confidence
                            else MaxConfidence(os, key, id))
  {
    var all := os + [o];
    assert all[..|os|] == os && all[|os|] == o;
    RelationIdsStep(os, o, key);
    if id !in RelationIdsOf(os, key) {
      NoRecords(os, key, id);
      ListedOne(map[o.evidenceId := EvidenceOf(o)], o.evidenceId);
    }
    hide Listed, RelationIdsOf;
  }

  lemma RelationsStep(os: seq<Observation>, o: Observation, key: RelationKey)
    ensures RelationMap(os + [o], key) == WithObservation(RelationMap(os, key), o, key)
  {
    var all := os + [o];
    RelationIdsStep(os, o, key);
    forall id | id in RelationIdsOf(all, key)
      ensures RelationMap(all, key)[id] == WithObservation(RelationMap(os, key), o, key)[id]
    {
      OneRelationStep(os, o, key, id);
      RecordsMeaning(os, key, id);
      ByIdOfListed(RecordsOf(os, key, id));
      hide RecordsOf, MaxConfidence, FirstOf, Listed, ById;
    }
  }

  // ----- the compiler

  /** The state of one compilation: the two dictionaries it fills. */
  class Compiler {
    var entityMap: map<Id, Entity>
    var relationMap: map<Id, Relation>

    constructor ()
      ensures entityMap == map[] && relationMap == map[]
    {
      entityMap, relationMap := map[], map[];
    }

    /** `merge_entity`. */
    method MergeEntity(m: Perceived) returns (error: Option<CompileError>)
      modifies `entityMap
      ensures error.None? <==> Mergeable(old(entityMap), m)
      ensures error.None? ==> entityMap == WithMention(old(entityMap), m)
      ensures error.Some? ==> entityMap == old(entityMap)
                              && error.value ==
                                 if old(entityMap)[m.id].kind != m.kind then TYPE_CONFLICT else LABEL_CONFLICT
    {
      if m.id !in entityMap {
        entityMap := entityMap[m.id := Entity(m.id, m.kind, m.labels)];
        return None;
      }
      var existing := entityMap[m.id];
      if existing.kind != m.kind {
        return Some(TYPE_CONFLICT);
      }
      var merged, rest := existing.labels, m.labels.Keys;
      while rest != {}
        invariant rest <= m.labels.Keys
        invariant merged.Keys == existing.labels.Keys + (m.labels.Keys - rest)
        invariant forall k :: k in m.labels && k !in rest ==> merged[k] == m.labels[k]
        invariant forall k :: k in m.labels && k !in rest && k in existing.labels ==> existing.labels[k] == m.labels[k]
        invariant forall k :: k in existing.labels && (k in rest || k !in m.labels) ==> merged[k] == existing.labels[k]
        decreases rest
      {
        var k := MinOf(rest);
        if k in merged && merged[k] != m.labels[k] {
          return Some(LABEL_CONFLICT);
        }
        merged := merged[k := m.labels[k]];
        rest := rest - {k};
      }
      assert merged == existing.labels + m.labels;
      entityMap := entityMap[m.id := existing.(labels := merged)];
      error := None;
    }

    /** The relation half of the loop body. */
    method RecordObservation(o: Observation, key: RelationKey) returns (error: Option<CompileError>)
      modifies `relationMap
      ensures error.None? <==> o.originLength <= MAX_SOURCE_LENGTH && Recordable(old(relationMap), o, key)
      ensures error.None? ==> relationMap == WithObservation(old(relationMap), o, key)
      ensures error.Some? ==> relationMap == old(relationMap)
    {
      var id := RelationIdOf(o, key);
      if o.originLength > MAX_SOURCE_LENGTH {
        return Some(SOURCE_TOO_LONG);
      }
      var evidence := EvidenceOf(o);
      if id !in relationMap {
        relationMap := relationMap[id := Relation(id, o.source.id, o.target.id, o.kind, OBSERVED, o.confidence,
                                                  [evidence])];
        return None;
      }
      var existing := relationMap[id];
      var byId := ById(existing.evidence);
      if evidence.evidenceId in byId && byId[evidence.evidenceId].contentSha256 != evidence.contentSha256 {
        return Some(DIGEST_CONFLICT);
      }
      byId := byId[evidence.evidenceId := evidence];
      relationMap := relationMap[id := existing.(
        evidence := Listed(byId),
        confidence := if o.confidence > existing.confidence then o.confidence else existing.confidence)];
      error := None;
    }

    ghost predicate Holds(os: seq<Observation>, key: RelationKey)
      reads this
    {
      entityMap == EntityMap(Mentions(os)) && relationMap == RelationMap(os, key) && Consistent(os, key)
    }

    /** One observation: both of its entities, then its relation. */
    method TakeIn(ghost before: seq<Observation>, o: Observation, key: RelationKey)
      returns (error: Option<CompileError>)
      requires Holds(before, key)
      modifies this
      ensures error.None? <==> Consistent(before + [o], key)
      ensures error.None? ==> Holds(before + [o], key)
    {
      hide EntityMap, RelationMap, Mergeable, Recordable, WithMention, WithObservation, Consistent, MentionsAgree;
      hide Mentions, DigestsAgree;
      ghost var ms := Mentions(before);
      ObservationStep(before, o, key);
      MentionStep(ms, o.source);
      error := MergeEntity(o.source);
      if error.Some? {
        return;
      }
      MentionStep(ms + [o.source], o.target);
      error := MergeEntity(o.target);
      if error.Some? {
        return;
      }
      RelationsStep(before, o, key);
      error := RecordObservation(o, key);
    }
  }

  /** When a consistent batch stays consistent. */
  lemma ObservationStep(os: seq<Observation>, o: Observation, key: RelationKey)
    ensures Mentions(os + [o]) == Mentions(os) + [o.source] + [o.target]
    ensures Consistent(os, key) ==> MentionsAgree(Mentions(os)) && DigestsAgree(os, key)
    ensures Consistent(os, key) ==>
              (Consistent(os + [o], key) <==>
                 MentionsAgree(Mentions(os) + [o.source]) && MentionsAgree(Mentions(os) + [o.source] + [o.target])
                 && o.originLength <= MAX_SOURCE_LENGTH && Recordable(RelationMap(os, key), o, key))
  {
    var all := os + [o];
    assert all[..|os|] == os;
    var ms := Mentions(os) + [o.source];
    assert Mentions(all) == ms + [o.target];
    if MentionsAgree(Mentions(all)) {
      assert forall a :: a in ms ==> a in Mentions(all);
    }
    if Consistent(os, key) {
      DigestsStep(os, o, key);
    }
    assert o in all && forall p :: p in os ==> p in all;
    assert forall p :: p in all ==> p in os || p == o;
    hide RelationMap, Recordable, MentionsAgree, DigestsAgree, Mentions;
  }

  /** `compile_perception_batch`. */
  method CompilePerceptionBatch(os: seq<Observation>, key: RelationKey,
                                graphId: GraphId) returns (result: Result<Graph, CompileError>)
    ensures result.Ok? <==> Consistent(os, key) && FitsIdField(graphId.length)
    ensures result.Ok? ==> result.value == GraphOf(os, key, graphId)
    ensures Consistent(os, key) && !FitsIdField(graphId.length) ==> result == Err(BAD_GRAPH_ID)
  {
    var compiler := new Compiler();
    assert os[..0] == [];
    var i := 0;
    while i < |os|
      invariant 0 <= i <= |os|
      invariant compiler.Holds(os[..i], key)
    {
      assert os[..i + 1] == os[..i] + [os[i]];
      var error := compiler.TakeIn(os[..i], os[i], key);
      if error.Some? {
        PrefixIsConsistent(os, i + 1, key);
        return Err(error.value);
      }
      i := i + 1;
    }
    assert os[..i] == os;
    if !FitsIdField(graphId.length) {
      return Err(BAD_GRAPH_ID);
    }
    result := Ok(Graph(graphId, Listed(compiler.entityMap), Listed(compiler.relationMap)));
  }

  lemma PrefixIsConsistent(os: seq<Observation>, n: nat, key: RelationKey)
    requires n <= |os|
    ensures Consistent(os, key) ==> Consistent(os[..n], key)
  {
    forall o | o in os[..n] ensures o in os {}
    MentionsOfPrefix(os, n);
  }

  lemma {:induction false} MentionsOfPrefix(os: seq<Observation>, n: nat)
    requires n <= |os|
    ensures forall m :: m in Mentions(os[..n]) ==> m in Mentions(os)
    decreases |os|
  {
    if n < |os| {
      MentionsOfPrefix(os[..|os| - 1], n);
      assert os[..|os| - 1][..n] == os[..n];
    } else {
      assert os[..n] == os;
    }
  }
}
