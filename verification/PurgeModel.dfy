/** Rows, keys and policy tables of the reviewed purge. A row is the JSON object of one table row;
    the digest of a row is taken to be collision free, so a row stands for its own hash. */
module PurgeModel {

  datatype Json =
    | Null
    | Bool(b: bool)
    | Num(n: int)
    | Str(s: string)
    | Arr(items: seq<Json>)
    | Obj(fields: seq<(string, Json)>)

  /** The tables the purge policy names; any other relation is unmanaged. */
  datatype Table =
    | Objects | Connections | TaskRoutineRuns | TaskRoutines | Tasks | Chats | ChatMessages | Users
    | Entities | RealWorldEvents | EntityCategoryAssignments | Memories | Sources | Notes | Themes
    | Artifacts | Runs | Embeddings | ObjectEvents | ContextApplyRequests
    | EvidenceCorrections | ArtifactBinaryPayloads | VisualUploadRequests
    | Unmanaged(name: string)

  /** The columns the policy names. */
  datatype Column =
    | IdCol | ObjectId | EntityObjectId | CategoryId | PrincipalId | IdempotencyKey
    | ActorTypeCol | ActorId | ArtifactId
    | TaskId | SourceObjectId | TargetObjectId | TargetType | TargetId | ChatObjectId | RunId | Status
    | QueuedThrough | CuratedThrough
    | OtherCol(name: string)

  type Row = map<Column, Json>
  type Key = seq<(Column, Json)>

  /** A row of one table, and the name under which the selection knows it. */
  datatype Item = Item(table: Table, row: Row)
  datatype Ref = Ref(table: Table, key: Key)

  /** src rows name dst rows: column sc[i] of src holds column dc[i] of dst. */
  datatype ForeignKey = ForeignKey(src: Table, dst: Table, sc: seq<Column>, dc: seq<Column>)

  const DELETE_ORDER: seq<Table> := [
    ContextApplyRequests, ObjectEvents, Embeddings, Connections, Runs, ChatMessages,
    TaskRoutineRuns, TaskRoutines, Tasks, Notes, Sources, Artifacts, Chats,
    EntityCategoryAssignments, RealWorldEvents, Entities, Memories, Themes, Users, Objects]

  /** Tables whose rows the preview sees: the purgeable ones and three inspected by key only. */
  predicate Managed(t: Table) {
    !t.Unmanaged?
  }

  /** Tables of which the preview reads some columns only. */
  predicate KeyOnly(t: Table) {
    t.EvidenceCorrections? || t.ArtifactBinaryPayloads? || t.VisualUploadRequests?
  }

  function VisibleColumns(t: Table): set<Column>
    requires KeyOnly(t)
  {
    match t
    case EvidenceCorrections => {IdCol, ObjectId, TargetType, TargetId}
    case ArtifactBinaryPayloads => {ArtifactId}
    case VisualUploadRequests => {ActorTypeCol, ActorId, IdempotencyKey, ArtifactId}
  }

  /** A stored row as the preview sees it. */
  function Seen(item: Item): Item {
    if KeyOnly(item.table) then
      item.(row := map c | c in item.row && c in VisibleColumns(item.table) :: item.row[c])
    else item
  }

  function SeenRows(stored: seq<Item>): (items: seq<Item>)
    ensures |items| == |stored| && forall k :: 0 <= k < |stored| ==> items[k] == Seen(stored[k])
  {
    seq(|stored|, k requires 0 <= k < |stored| => Seen(stored[k]))
  }

  predicate Subtype(t: Table) {
    t.Tasks? || t.Chats? || t.Users? || t.Entities? || t.Memories? || t.Sources? || t.Notes? || t.Themes?
        || t.RealWorldEvents?
  }

  /** A missing column reads as null. */
  function Col(row: Row, column: Column): Json {
    if column in row then row[column] else Null
  }

  function KeyColumns(table: Table): seq<Column> {
    match table
    case EntityCategoryAssignments => [EntityObjectId, CategoryId]
    case ContextApplyRequests => [PrincipalId, IdempotencyKey]
    case VisualUploadRequests => [ActorTypeCol, ActorId, IdempotencyKey]
    case ArtifactBinaryPayloads => [ArtifactId]
    case TaskRoutines => [TaskId]
    case _ => if Subtype(table) then [ObjectId] else [IdCol]
  }

  function KeyOf(table: Table, row: Row): (key: Key)
    ensures |key| == |KeyColumns(table)|
    ensures forall i :: 0 <= i < |key| ==> key[i] == (KeyColumns(table)[i], Col(row, KeyColumns(table)[i]))
  {
    var columns := KeyColumns(table);
    seq(|columns|, i requires 0 <= i < |columns| => (columns[i], Col(row, columns[i])))
  }

  function RefOf(item: Item): Ref {
    Ref(item.table, KeyOf(item.table, item.row))
  }

  /** The row of `table` with this id, as the ownership rules name it. */
  function IdRef(table: Table, id: Json): Ref {
    Ref(table, [(IdCol, id)])
  }

  /** Primary keys identify rows. */
  ghost predicate UniqueKeys(items: seq<Item>) {
    forall i, j :: 0 <= i < j < |items| ==> RefOf(items[i]) != RefOf(items[j])
  }
}
