/** The part of the store that Memory maintenance reads and writes: Objects,
    connections, the journal of a run, and the batch a plan was reviewed against.
    Rows are values; the store itself is a class (DreamStore). */
module MemoryGraph {
  import opened Wrappers

  const DREAM_ACTOR := "context-memory-dream"
  const GENERATORS: set<string> := {"context-curator", "context-memory-capture"}
  const MAINTAINERS: set<string> := {"context-curator", "context-memory-capture", "context-memory-dream"}

  datatype ActorType = System | Human | Agent

  /** The provenance keys maintenance looks at or writes. */
  datatype Provenance = Provenance(
    sourceType: string,
    sourceEvent: Option<Id>,
    messages: seq<Id>,
    chat: Option<Id>,
    locked: bool,
    mergedMemories: seq<Id>,
    mergedInto: Option<Id>)

  datatype ObjectRow = ObjectRow(
    kind: string,
    title: string,
    description: string,
    provenance: Provenance,
    happenedAt: Option<int>,
    archived: bool,
    protected: bool,
    revision: int,
    createdByType: ActorType,
    createdBy: string,
    updatedByType: ActorType,
    updatedBy: string)

  datatype ConnRow = ConnRow(
    source: Id,
    kind: string,
    target: Id,
    description: string,
    archived: bool,
    protected: bool,
    revision: int,
    createdByType: ActorType,
    updatedByType: ActorType,
    updatedBy: string)

  datatype Graph = Graph(objects: map<Id, ObjectRow>, connections: map<Id, ConnRow>)

  /** A completed capture run that observed a Git movement for one Object. */
  datatype Receipt = Receipt(run: Id, subject: Id, actor: string, evidence: Provenance)

  /** One row of the object event ledger. `was` and `wasEdge` hold the row before the change, absent for a creation. */
  datatype Entry =
    | ObjectEntry(run: Id, seqNo: nat, id: Id, was: Option<ObjectRow>, toRevision: int)
    | ConnEntry(run: Id, seqNo: nat, id: Id, wasEdge: Option<ConnRow>, toRevision: int)

  // ----- graph predicates -----

  predicate Live(g: Graph, id: Id) {
    id in g.objects && !g.objects[id].archived
  }

  predicate ActiveEdge(g: Graph, c: Id) {
    c in g.connections && !g.connections[c].archived
  }

  predicate Touches(row: ConnRow, id: Id) {
    row.source == id || row.target == id
  }

  predicate EndsLive(g: Graph, row: ConnRow) {
    row.source != row.target && Live(g, row.source) && Live(g, row.target)
  }

  predicate SameTriple(a: ConnRow, b: ConnRow) {
    a.source == b.source && a.kind == b.kind && a.target == b.target
  }

  /** Some active connection already links source to target with this kind. */
  predicate Linked(g: Graph, source: Id, kind: string, target: Id) {
    exists c :: c in g.connections && !g.connections[c].archived
             && g.connections[c].source == source && g.connections[c].kind == kind && g.connections[c].target == target
  }

  /** The database's unique index over active (source, kind, target). */
  ghost predicate UniqueActive(g: Graph) {
    forall c, d :: ActiveEdge(g, c) && ActiveEdge(g, d) && SameTriple(g.connections[c], g.connections[d]) ==> c == d
  }

  /** No active connection is a self-edge or ends in a missing or archived Object. */
  ghost predicate NoDangling(g: Graph) {
    forall c :: ActiveEdge(g, c) ==> EndsLive(g, g.connections[c])
  }

  ghost predicate Sound(g: Graph) {
    UniqueActive(g) && NoDangling(g)
  }

  function ActiveEdgesOf(g: Graph, id: Id): (edges: set<Id>)
    ensures forall c :: c in edges <==> ActiveEdge(g, c) && Touches(g.connections[c], id)
  {
    set c | c in g.connections && !g.connections[c].archived && Touches(g.connections[c], id)
  }

  // ----- evidence and eligibility -----

  datatype EvidenceKey = EventKey(id: Id) | MessageKey(id: Id) | ReceiptKey(id: Id)

  /** The receipt, lowest run first, that created this exact Memory. */
  function FindReceipt(receipts: seq<Receipt>, id: Id, o: ObjectRow): (found: Option<Id>)
    ensures found.Some? ==> exists r :: r in receipts && r.run == found.value && r.subject == id
                                     && r.actor == o.createdBy && r.evidence == o.provenance
  {
    if o.provenance.sourceType != "codex_git_commit" || receipts == [] then None
    else if receipts[0].subject == id && receipts[0].actor == o.createdBy && receipts[0].evidence == o.provenance
    then Some(receipts[0].run)
    else FindReceipt(receipts[1..], id, o)
  }

  function EvidenceKeys(o: ObjectRow, receipt: Option<Id>): set<EvidenceKey> {
    (if receipt.Some? then {ReceiptKey(receipt.value)} else {})
    + (if o.provenance.sourceEvent.Some? then {EventKey(o.provenance.sourceEvent.value)} else {})
    + (set m | m in o.provenance.messages :: MessageKey(m))
  }

  predicate Eligible(o: ObjectRow, receipt: Option<Id>) {
    && o.kind == "memory" && !o.archived && !o.protected
    && o.createdByType == System && (o.createdBy in GENERATORS || receipt.Some?)
    && o.updatedByType == System
    && (o.updatedBy in MAINTAINERS || (receipt.Some? && o.updatedBy == o.createdBy))
    && !o.provenance.locked
  }

  predicate Editable(c: ConnRow) {
    c.createdByType == System && c.updatedByType == System && c.updatedBy in MAINTAINERS && !c.protected && !c.archived
  }

  predicate SameEvent(a: ObjectRow, ra: Option<Id>, b: ObjectRow, rb: Option<Id>) {
    && EvidenceKeys(a, ra) != {}
    && EvidenceKeys(a, ra) == EvidenceKeys(b, rb)
    && a.happenedAt == b.happenedAt
    && a.provenance.chat == b.provenance.chat
  }

  // ----- the reviewed batch and the plan -----

  datatype MemorySnap = MemorySnap(
    id: Id, row: ObjectRow, receipt: Option<Id>,
    fingerprint: Option<string>,
    approvedEdges: Option<map<Id, int>>)
  datatype ConnSnap = ConnSnap(id: Id, revision: int)
  datatype TargetSnap = TargetSnap(id: Id, kind: string, revision: int)
  datatype EvidenceItem =
    | Message(id: Id)
    | CommittedEvent(id: Id, subject: Option<Id>)
    | GitObservation(id: Id)
    | ContextConnection(id: Id, revision: int)

  datatype Batch = Batch(
    memories: seq<MemorySnap>, connections: seq<ConnSnap>,
    evidence: seq<EvidenceItem>, targets: seq<TargetSnap>)

  datatype Change =
    | Rewrite(memory: Id, title: string, description: string, reason: string)
    | Retire(memory: Id, reason: string)
    | Merge(memory: Id, survivor: Id, title: string, description: string, reason: string)
    | Disconnect(connection: Id, reason: string)
    | Connect(memory: Id, target: Id, kind: string, description: string, reason: string)

  /** Text rules and the review fingerprint, which the proofs treat as arbitrary. */
  datatype Policy = Policy(
    memoryText: (string, string) -> bool,
    reasonText: string -> bool,
    edgeText: string -> bool,
    fingerprint: (Graph, Id) -> string)

  function FindMemory(memories: seq<MemorySnap>, id: Id): (m: Option<MemorySnap>)
    ensures m.Some? ==> m.value in memories && m.value.id == id
    ensures m.None? ==> forall x :: x in memories ==> x.id != id
  {
    if memories == [] then None
    else if memories[0].id == id then Some(memories[0])
    else FindMemory(memories[1..], id)
  }

  function FindConn(conns: seq<ConnSnap>, id: Id): (c: Option<ConnSnap>)
    ensures c.Some? ==> c.value in conns && c.value.id == id
    ensures c.None? ==> forall x :: x in conns ==> x.id != id
  {
    if conns == [] then None
    else if conns[0].id == id then Some(conns[0])
    else FindConn(conns[1..], id)
  }

  function FindTarget(targets: seq<TargetSnap>, id: Id): (t: Option<TargetSnap>)
    ensures t.Some? ==> t.value in targets && t.value.id == id
  {
    if targets == [] then None
    else if targets[0].id == id then Some(targets[0])
    else FindTarget(targets[1..], id)
  }

  /** The supplied endpoint of a new connection: a target first, else a batch Memory. */
  function Endpoint(batch: Batch, id: Id): Option<TargetSnap> {
    match FindTarget(batch.targets, id)
    case Some(t) => Some(t)
    case None =>
      match FindMemory(batch.memories, id)
      case Some(m) => Some(TargetSnap(id, m.row.kind, m.row.revision))
      case None => None
  }

  predicate ProvenanceEdge(batch: Batch, c: ConnRow) {
    c.kind == "derived_from" ||
    exists m :: m in batch.memories && Touches(c, m.id)
        && OriginLink(batch, m, if c.source == m.id then c.target else c.source)
  }

  predicate OriginLink(batch: Batch, m: MemorySnap, other: Id) {
    m.row.provenance.chat == Some(other) ||
    exists e :: e in batch.evidence && e.CommittedEvent? && Some(e.id) == m.row.provenance.sourceEvent
        && e.subject == Some(other)
  }
}
