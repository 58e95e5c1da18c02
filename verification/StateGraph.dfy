/** The cyber state graph and its own validators (cyber_state_graph.py, defense_authority.py). */
module StateGraph {
  import opened Ordering

  datatype EvidenceStatus = OBSERVED | INFERRED | PREDICTED | DISPROVED

  datatype EntityType =
    | IDENTITY | DEVICE | PROCESS | CREDENTIAL | REPOSITORY | PIPELINE | ARTIFACT
    | CLOUD_RESOURCE | WALLET | TRANSACTION | PROTOCOL | NETWORK_ENDPOINT | THREAT_ACTOR | MALWARE

  /**
   The attack stages in `_STAGE_ORDER`, from RECONNAISSANCE (0) to IMPACT (13); a stage is its rank.
   */
  type Stage = rank: nat | rank < 14

  /**
   A relation type: its text, the stripped lower-case text that relation identifiers are built from,
   and the attack stage its keywords hint at (the keyword table itself is not modelled).
   */
  datatype RelationType = RelationType(text: Id, folded: Id, stage: Option<Stage>)

  datatype EvidenceRef = EvidenceRef(evidenceId: Id, source: Id, contentSha256: Id, timestamp: Option<Id>)

  datatype Entity = Entity(id: Id, kind: EntityType, labels: map<Id, Id>)

  datatype Relation = Relation(
    id: Id, source: Id, target: Id, kind: RelationType, status: EvidenceStatus,
    confidence: real, evidence: seq<EvidenceRef>)

  /** The text that names a graph, and its length. */
  datatype GraphId = GraphId(text: Id, length: nat)

  const MAX_ID_LENGTH := 256

  predicate FitsIdField(length: nat) {
    3 <= length <= MAX_ID_LENGTH
  }

  datatype Graph = Graph(id: GraphId, entities: seq<Entity>, relations: seq<Relation>)

  function EntityIds(g: Graph): set<Id> {
    set e | e in g.entities :: e.id
  }

  ghost predicate ValidRelation(r: Relation) {
    && 0.0 <= r.confidence <= 1.0
    && (r.status.OBSERVED? ==> r.evidence != [])
    && (r.status.DISPROVED? ==> r.confidence <= 0.5)
  }

  /** `CyberStateGraph.graph_integrity` together with the field ranges. */
  ghost predicate Valid(g: Graph) {
    && FitsIdField(g.id.length)
    && (forall i, j :: 0 <= i < j < |g.entities| ==> g.entities[i].id != g.entities[j].id)
    && (forall i, j :: 0 <= i < j < |g.relations| ==> g.relations[i].id != g.relations[j].id)
    && (forall r :: r in g.relations ==> ValidRelation(r))
    && (forall r :: r in g.relations ==> r.source in EntityIds(g) && r.target in EntityIds(g))
  }
}
