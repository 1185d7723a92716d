/** Carrying out an approved purge: Runs are detached, the cursors of selected Chats are cleared, and
    rows are deleted table by table. With no foreign key blocker no row is ever left with a dangling key. */
module PurgeDelete {
  import opened PurgeModel

  // ----- foreign keys -----

  predicate NonNull(fk: ForeignKey, row: Row) {
    forall c :: c in fk.sc ==> Col(row, c) != Null
  }

  /** The row names that destination row, column by column. */
  predicate Matches(fk: ForeignKey, row: Row, dst: Row) {
    forall i :: 0 <= i < |fk.sc| && i < |fk.dc| ==>
        Col(row, fk.sc[i]) != Null && Col(row, fk.sc[i]) == Col(dst, fk.dc[i])
  }

  predicate HasTarget(rows: set<Item>, fk: ForeignKey, row: Row) {
    exists d :: d in rows && d.table == fk.dst && Matches(fk, row, d.row)
  }

  /** Referential integrity: a key with a null column refers to nothing. */
  ghost predicate Intact(rows: set<Item>, fks: set<ForeignKey>) {
    forall fk, item :: fk in fks && item in rows && item.table == fk.src && NonNull(fk, item.row) ==>
        HasTarget(rows, fk, item.row)
  }

  function Position(table: Table, order: seq<Table>): (i: nat)
    ensures i <= |order| && (i < |order| ==> order[i] == table) && forall k :: 0 <= k < i ==> order[k] != table
  {
    if order == [] || order[0] == table then 0 else 1 + Position(table, order[1..])
  }

  /** When the rows of a table are deleted; tables outside the order come last. */
  function Turn(table: Table): nat {
    Position(table, DELETE_ORDER)
  }

  /** Only rows of tables in the order are selected. */
  ghost predicate Purgeable(refs: set<Ref>) {
    forall ref :: ref in refs ==> Turn(ref.table) < |DELETE_ORDER|
  }

  predicate CursorKey(fk: ForeignKey) {
    fk.src == Chats && fk.dst == ChatMessages && (QueuedThrough in fk.sc || CuratedThrough in fk.sc)
  }

  /** The schema the policy was reviewed for: keys of purgeable tables point to tables deleted no earlier, except
      from a Chat to the messages its cursors name; and no key refers to a column the purge clears. */
  predicate Follows(fk: ForeignKey) {
    && |fk.sc| == |fk.dc|
    && (Turn(fk.src) == |DELETE_ORDER| || Turn(fk.src) <= Turn(fk.dst) || CursorKey(fk))
    && !(fk.dst == Runs && ChatObjectId in fk.dc)
    && !(fk.dst == Chats && (QueuedThrough in fk.dc || CuratedThrough in fk.dc))
  }

  // ----- the live schema -----

  function Single(src: Table, column: Column, dst: Table, key: Column): ForeignKey {
    ForeignKey(src, dst, [column], [key])
  }

  /** A subtype row shares the id and the kind of its Object. */
  function SubtypeKey(src: Table): ForeignKey {
    ForeignKey(src, Objects, [ObjectId, OtherCol("object_kind")], [IdCol, OtherCol("kind")])
  }

  /** The foreign keys of the migrated schema: of the graph, of subtypes, of evidence, of Chats and runs, and of the
      tables that are never purged. */
  const OBJECT_KEYS: seq<ForeignKey> := [
    Single(Connections, SourceObjectId, Objects, IdCol), Single(Connections, TargetObjectId, Objects, IdCol),
    Single(Tasks, OtherCol("owner_object_id"), Users, ObjectId),
    Single(TaskRoutines, TaskId, Tasks, ObjectId), Single(TaskRoutineRuns, TaskId, TaskRoutines, TaskId),
    Single(Entities, OtherCol("primary_category_id"), Unmanaged("entity_categories"), IdCol),
    Single(EntityCategoryAssignments, EntityObjectId, Entities, ObjectId),
    Single(EntityCategoryAssignments, CategoryId, Unmanaged("entity_categories"), IdCol)]

  const SUBTYPE_KEYS: seq<ForeignKey> := [
    SubtypeKey(Tasks), SubtypeKey(Chats), SubtypeKey(Users), SubtypeKey(Entities), SubtypeKey(Memories),
    SubtypeKey(Sources), SubtypeKey(Notes), SubtypeKey(Themes), SubtypeKey(RealWorldEvents)]

  const EVIDENCE_KEYS: seq<ForeignKey> := [
    Single(Artifacts, ObjectId, Objects, IdCol),
    Single(Artifacts, OtherCol("supersedes_artifact_id"), Artifacts, IdCol),
    ForeignKey(Sources, Artifacts, [ObjectId, OtherCol("current_artifact_id")], [ObjectId, IdCol]),
    Single(Notes, OtherCol("source_artifact_id"), Artifacts, IdCol),
    Single(Embeddings, ObjectId, Objects, IdCol), Single(Embeddings, ArtifactId, Artifacts, IdCol),
    ForeignKey(Embeddings, Artifacts, [ObjectId, ArtifactId], [ObjectId, IdCol])]

  const EXECUTION_KEYS: seq<ForeignKey> := [
    Single(ChatMessages, ChatObjectId, Chats, ObjectId),
    Single(ChatMessages, OtherCol("sender_user_object_id"), Users, ObjectId),
    ForeignKey(Chats, ChatMessages, [ObjectId, QueuedThrough], [ChatObjectId, IdCol]),
    ForeignKey(Chats, ChatMessages, [ObjectId, CuratedThrough], [ChatObjectId, IdCol]),
    Single(Runs, OtherCol("parent_run_id"), Runs, IdCol), Single(Runs, ChatObjectId, Chats, ObjectId),
    Single(Runs, OtherCol("primary_object_id"), Objects, IdCol),
    Single(ObjectEvents, RunId, Runs, IdCol), Single(ContextApplyRequests, RunId, Runs, IdCol)]

  const RETAINED_KEYS: seq<ForeignKey> := [
    Single(ArtifactBinaryPayloads, ArtifactId, Artifacts, IdCol),
    Single(VisualUploadRequests, ArtifactId, Artifacts, IdCol),
    Single(EvidenceCorrections, ObjectId, Objects, IdCol),
    Single(EvidenceCorrections, OtherCol("supersedes_correction_id"), EvidenceCorrections, IdCol),
    Single(Unmanaged("entity_category_names"), CategoryId, Unmanaged("entity_categories"), IdCol)]

  const LIVE_KEYS: seq<ForeignKey> := OBJECT_KEYS + SUBTYPE_KEYS + EVIDENCE_KEYS + EXECUTION_KEYS + RETAINED_KEYS

  /** The schema is one the policy was reviewed for: what is proved of such schemas holds of it. */
  lemma LiveKeysFollow()
    ensures forall fk :: fk in LIVE_KEYS ==> Follows(fk)
  {
    hide Follows, OBJECT_KEYS, SUBTYPE_KEYS, EVIDENCE_KEYS, EXECUTION_KEYS, RETAINED_KEYS;
    ObjectKeysFollow();
    SubtypeKeysFollow();
    EvidenceKeysFollow();
    ExecutionKeysFollow();
    RetainedKeysFollow();
  }

  lemma ObjectKeysFollow()
    ensures forall fk :: fk in OBJECT_KEYS ==> Follows(fk)
  {
    Turns();
    LateTurns();
    hide Turn, DELETE_ORDER;
  }

  lemma SubtypeKeysFollow()
    ensures forall fk :: fk in SUBTYPE_KEYS ==> Follows(fk)
  {
    Turns();
    hide Turn, DELETE_ORDER;
  }

  lemma EvidenceKeysFollow()
    ensures forall fk :: fk in EVIDENCE_KEYS ==> Follows(fk)
  {
    Turns();
    LateTurns();
    hide Turn, DELETE_ORDER;
  }

  lemma ExecutionKeysFollow()
    ensures forall fk :: fk in EXECUTION_KEYS ==> Follows(fk)
  {
    Turns();
    LateTurns();
    hide Turn, DELETE_ORDER;
  }

  lemma RetainedKeysFollow()
    ensures forall fk :: fk in RETAINED_KEYS ==> Follows(fk)
  {
    Turns();
    LateTurns();
    hide Turn, DELETE_ORDER;
  }

  lemma Turns()
    ensures |DELETE_ORDER| == 20
    ensures Turn(ContextApplyRequests) == 0 && Turn(ObjectEvents) == 1 && Turn(Embeddings) == 2
        && Turn(Connections) == 3
    ensures Turn(Runs) == 4 && Turn(ChatMessages) == 5 && Turn(TaskRoutineRuns) == 6 && Turn(TaskRoutines) == 7
    ensures Turn(Tasks) == 8 && Turn(Notes) == 9 && Turn(Sources) == 10 && Turn(Artifacts) == 11 && Turn(Chats) == 12
    ensures Turn(EntityCategoryAssignments) == 13 && Turn(RealWorldEvents) == 14 && Turn(Entities) == 15
    ensures Turn(Memories) == 16 && Turn(Themes) == 17 && Turn(Users) == 18 && Turn(Objects) == 19
  {
    hide Turn;
    TurnAt(0); TurnAt(1); TurnAt(2); TurnAt(3); TurnAt(4); TurnAt(5); TurnAt(6); TurnAt(7); TurnAt(8); TurnAt(9);
    TurnAt(10); TurnAt(11); TurnAt(12); TurnAt(13); TurnAt(14);
    TurnAt(15); TurnAt(16); TurnAt(17); TurnAt(18); TurnAt(19);
  }

  lemma LateTurns()
    ensures Turn(ArtifactBinaryPayloads) == Turn(VisualUploadRequests) == Turn(EvidenceCorrections) == |DELETE_ORDER|
    ensures forall name :: Turn(Unmanaged(name)) == |DELETE_ORDER|
  {
    hide Turn;
    hide DELETE_ORDER;
    NeverDeleted(ArtifactBinaryPayloads);
    NeverDeleted(VisualUploadRequests);
    NeverDeleted(EvidenceCorrections);
    forall name ensures Turn(Unmanaged(name)) == |DELETE_ORDER| { NeverDeleted(Unmanaged(name)); }
  }

  lemma NeverDeleted(table: Table)
    requires table.ArtifactBinaryPayloads? || table.VisualUploadRequests? || table.EvidenceCorrections?
        || table.Unmanaged?
    ensures Turn(table) == |DELETE_ORDER|
  {
    hide Turn;
    assert table !in DELETE_ORDER;
    OutsideOrder(table);
  }

  lemma OutsideOrder(table: Table)
    requires table !in DELETE_ORDER
    ensures Turn(table) == |DELETE_ORDER|
  {
    hide DELETE_ORDER;
    forall i | 0 <= i < |DELETE_ORDER| ensures DELETE_ORDER[i] != table { assert DELETE_ORDER[i] in DELETE_ORDER; }
  }

  // ----- what blocks a purge -----

  /** A retained Run about to be detached is checked without its Chat. */
  function Projected(item: Item, detached: set<Json>): Item {
    if item.table == Runs && Col(item.row, IdCol) in detached then item.(row := item.row[ChatObjectId := Null])
        else item
  }

  /** The preview lists a blocker for this key. */
  predicate Blocked(rows: set<Item>, refs: set<Ref>, detached: set<Json>, fk: ForeignKey) {
    if !Managed(fk.src) then exists d :: d in rows && d.table == fk.dst && RefOf(d) in refs
    else exists d, o :: d in rows && d.table == fk.dst && RefOf(d) in refs
                     && o in rows && o.table == fk.src && RefOf(o) !in refs
                         && Matches(fk, Projected(o, detached).row, d.row)
  }

  /** A row of a table that is never purged blocks the deletion of whatever it names: a visual's payload its
      artifact, a correction its Object. */
  lemma NeverPurgedBlocks(rows: set<Item>, refs: set<Ref>, detached: set<Json>, fk: ForeignKey, o: Item, d: Item)
    requires Turn(fk.src) == |DELETE_ORDER| && Purgeable(refs)
    requires o in rows && o.table == fk.src && d in rows && d.table == fk.dst && Matches(fk, o.row, d.row)
    requires RefOf(d) in refs
    ensures Blocked(rows, refs, detached, fk)
  {
    Turns();
    hide Turn, DELETE_ORDER, KeyOf;
    assert RefOf(o).table == o.table && o.table != Runs;
    assert Projected(o, detached) == o;
  }

  // ----- the rows while a purge runs -----

  /** A row after detaching and cursor clearing. */
  function Prepared(item: Item, refs: set<Ref>, detached: set<Json>): Item {
    if item.table == Chats
        && RefOf(item) in refs then item.(row := item.row[QueuedThrough := Null][CuratedThrough := Null])
    else Projected(item, detached)
  }

  ghost function Detached(rows: set<Item>, detached: set<Json>): set<Item> {
    set item | item in rows :: Projected(item, detached)
  }

  ghost function PreparedRows(rows: set<Item>, refs: set<Ref>, detached: set<Json>): set<Item> {
    set item | item in rows :: Prepared(item, refs, detached)
  }

  /** The rows once the first k tables of the order have been handled. */
  ghost function Stage(rows: set<Item>, refs: set<Ref>, detached: set<Json>, k: nat): set<Item> {
    set item | item in PreparedRows(rows, refs, detached) && !(RefOf(item) in refs && Turn(item.table) < k)
  }

  /** What an approved purge leaves: every unselected row, unchanged but for the detached Runs. */
  ghost function Left(rows: set<Item>, refs: set<Ref>, detached: set<Json>): set<Item> {
    set item | item in rows && RefOf(item) !in refs :: Projected(item, detached)
  }

  // ----- the same in terms of columns -----

  /** The columns of a row that a purge sets to null before it deletes anything. */
  function Cleared(o: Item, refs: set<Ref>, detached: set<Json>): set<Column> {
    if o.table == Chats && RefOf(o) in refs then {QueuedThrough, CuratedThrough}
    else if o.table == Runs && Col(o.row, IdCol) in detached then {ChatObjectId}
    else {}
  }

  /** x is row o with these columns null and all others as they were. */
  ghost predicate WithNulls(o: Item, x: Item, cleared: set<Column>) {
    && x.table == o.table && (forall c :: Col(x.row, c) == if c in cleared then Null else Col(o.row, c))
    && (cleared == {} ==> x == o)
  }

  /** The rows afterwards are the rows before, but for the nulls: cursors of selected Chats, the Chat of reviewed
      Runs. */
  ghost predicate OnlyCleared(before: set<Item>, after: set<Item>, refs: set<Ref>, detached: set<Json>) {
    && (forall o :: o in before ==> exists x :: x in after && WithNulls(o, x, Cleared(o, refs, detached)))
    && (forall x :: x in after ==> exists o :: o in before && WithNulls(o, x, Cleared(o, refs, detached)))
  }

  lemma PreparedNulls(o: Item, refs: set<Ref>, detached: set<Json>)
    ensures WithNulls(o, Prepared(o, refs, detached), Cleared(o, refs, detached))
  {
    hide RefOf;
  }

  lemma PreparedColumns(rows: set<Item>, refs: set<Ref>, detached: set<Json>)
    ensures OnlyCleared(rows, PreparedRows(rows, refs, detached), refs, detached)
  {
    hide RefOf, Prepared, Cleared, WithNulls;
    var after := PreparedRows(rows, refs, detached);
    forall o | o in rows ensures exists x :: x in after && WithNulls(o, x, Cleared(o, refs, detached)) {
      assert Prepared(o, refs, detached) in after;
      PreparedNulls(o, refs, detached);
    }
    forall x | x in after ensures exists o :: o in rows && WithNulls(o, x, Cleared(o, refs, detached)) {
      var o :| o in rows && x == Prepared(o, refs, detached);
      PreparedNulls(o, refs, detached);
    }
  }

  ghost function Unselected(rows: set<Item>, refs: set<Ref>): set<Item> {
    set item | item in rows && RefOf(item) !in refs
  }

  /** The rows not selected, as they were, but for the Chat of the reviewed Runs. */
  lemma LeftColumns(rows: set<Item>, refs: set<Ref>, detached: set<Json>)
    ensures OnlyCleared(Unselected(rows, refs), Left(rows, refs, detached), {}, detached)
  {
    hide RefOf;
    var kept := Unselected(rows, refs);
    assert forall item :: Prepared(item, {}, detached) == Projected(item, detached);
    hide Prepared, Projected, OnlyCleared;
    assert Left(rows, refs, detached) == PreparedRows(kept, {}, detached);
    PreparedColumns(kept, {}, detached);
  }

  /** What blocks, column by column: a deleted row d, and a retained row o whose key columns are not null and hold what
      d has, not counting the Chat of a reviewed Run. A table the preview cannot see blocks whatever it refers to. */
  lemma BlockedColumns(rows: set<Item>, refs: set<Ref>, detached: set<Json>, fk: ForeignKey)
    requires |fk.sc| == |fk.dc|
    ensures Blocked(rows, refs, detached, fk) <==>
      exists d :: d in rows && d.table == fk.dst && RefOf(d) in refs &&
        (fk.src.Unmanaged?
         || exists o :: o in rows && o.table == fk.src && RefOf(o) !in refs && NamesRow(fk, o, d, detached))
  {
    hide RefOf;
    forall d, o ensures NamesRow(fk, o, d, detached) <==> Matches(fk, Projected(o, detached).row, d.row) {
      NamesColumns(fk, o, d, detached);
    }
  }

  predicate NamesRow(fk: ForeignKey, o: Item, d: Item, detached: set<Json>)
    requires |fk.sc| == |fk.dc|
  {
    forall i :: 0 <= i < |fk.sc| ==>
      && Col(o.row, fk.sc[i]) != Null && Col(o.row, fk.sc[i]) == Col(d.row, fk.dc[i])
      && !(fk.sc[i] == ChatObjectId && o.table == Runs && Col(o.row, IdCol) in detached)
  }

  lemma NamesColumns(fk: ForeignKey, o: Item, d: Item, detached: set<Json>)
    requires |fk.sc| == |fk.dc|
    ensures NamesRow(fk, o, d, detached) <==> Matches(fk, Projected(o, detached).row, d.row)
  {
    forall i | 0 <= i < |fk.sc|
      ensures Col(Projected(o, detached).row, fk.sc[i])
          == if fk.sc[i] == ChatObjectId && o.table == Runs && Col(o.row, IdCol) in detached then Null
              else Col(o.row, fk.sc[i])
    {
    }
  }

  // ----- how keys and columns move -----

  lemma PreparedKeepsRef(item: Item, refs: set<Ref>, detached: set<Json>)
    ensures RefOf(Prepared(item, refs, detached)) == RefOf(item)
    ensures RefOf(Projected(item, detached)) == RefOf(item)
  {
  }

  /** Clearing columns can only cut references. */
  lemma NonNullBefore(o: Item, refs: set<Ref>, detached: set<Json>, fk: ForeignKey)
    requires NonNull(fk, Prepared(o, refs, detached).row)
    ensures NonNull(fk, o.row)
    ensures forall c :: c in fk.sc ==> Col(Prepared(o, refs, detached).row, c) == Col(o.row, c)
  {
  }

  /** It cuts none that is still held. */
  lemma PreparedTarget(o: Item, d: Item, refs: set<Ref>, detached: set<Json>, fk: ForeignKey)
    requires Follows(fk) && d.table == fk.dst && NonNull(fk, Prepared(o, refs, detached).row)
        && Matches(fk, o.row, d.row)
    ensures Matches(fk, Prepared(o, refs, detached).row, Prepared(d, refs, detached).row)
    ensures Matches(fk, Prepared(o, refs, detached).row, d.row)
  {
    hide Turn, RefOf;
    NonNullBefore(o, refs, detached, fk);
    var p, e := Prepared(o, refs, detached), Prepared(d, refs, detached);
    assert forall i :: 0 <= i < |fk.sc| ==> fk.sc[i] in fk.sc && Col(p.row, fk.sc[i]) == Col(o.row, fk.sc[i]);
    forall i | 0 <= i < |fk.dc| ensures Col(e.row, fk.dc[i]) == Col(d.row, fk.dc[i]) {
      assert fk.dc[i] in fk.dc;
      TargetColumnKept(d, refs, detached, fk, fk.dc[i]);
    }
  }

  lemma TargetColumnKept(d: Item, refs: set<Ref>, detached: set<Json>, fk: ForeignKey, c: Column)
    requires Follows(fk) && d.table == fk.dst && c in fk.dc
    ensures Col(Prepared(d, refs, detached).row, c) == Col(d.row, c)
  {
    hide Turn, RefOf;
  }

  lemma CursorsCleared(o: Item, refs: set<Ref>, detached: set<Json>, fk: ForeignKey)
    requires CursorKey(fk) && o.table == fk.src && RefOf(o) in refs
    ensures !NonNull(fk, Prepared(o, refs, detached).row)
  {
  }

  /** The row a key names is still there as long as the row holding the key is. */
  lemma TargetStays(rows: set<Item>, refs: set<Ref>, detached: set<Json>, fk: ForeignKey, k: nat, o: Item, d: Item)
    requires Follows(fk) && !Blocked(rows, refs, detached, fk) && Purgeable(refs)
    requires o in rows && d in rows && o.table == fk.src && d.table == fk.dst && Matches(fk, o.row, d.row)
    requires NonNull(fk, Prepared(o, refs, detached).row)
    requires !(RefOf(o) in refs && Turn(o.table) < k)
    ensures !(RefOf(d) in refs && Turn(d.table) < k)
  {
    PreparedTarget(o, d, refs, detached, fk);
    assert RefOf(o).table == o.table;
    if RefOf(o) in refs {
      if CursorKey(fk) { CursorsCleared(o, refs, detached, fk); }
    } else {
      assert Prepared(o, refs, detached) == Projected(o, detached);
    }
  }

  lemma RowIntact(rows: set<Item>, refs: set<Ref>, detached: set<Json>, fk: ForeignKey, k: nat, o: Item)
    requires Follows(fk) && !Blocked(rows, refs, detached, fk) && Purgeable(refs)
    requires o in rows && o.table == fk.src && HasTarget(rows, fk, o.row)
    requires NonNull(fk, Prepared(o, refs, detached).row)
    requires !(RefOf(o) in refs && Turn(o.table) < k)
    ensures HasTarget(Stage(rows, refs, detached, k), fk, Prepared(o, refs, detached).row)
  {
    hide Turn, KeyOf;
    var d :| d in rows && d.table == fk.dst && Matches(fk, o.row, d.row);
    PreparedTarget(o, d, refs, detached, fk);
    PreparedKeepsRef(d, refs, detached);
    TargetStays(rows, refs, detached, fk, k, o, d);
    assert Prepared(d, refs, detached) in PreparedRows(rows, refs, detached);
    assert Prepared(d, refs, detached) in Stage(rows, refs, detached, k);
  }

  /** Main theorem: without a blocker the rows are intact before, between and after the table deletions. */
  lemma StageIntact(rows: set<Item>, refs: set<Ref>, detached: set<Json>, fks: set<ForeignKey>, k: nat)
    requires Intact(rows, fks) && Purgeable(refs)
    requires forall fk :: fk in fks ==> Follows(fk) && !Blocked(rows, refs, detached, fk)
    ensures Intact(Stage(rows, refs, detached, k), fks)
  {
    hide Turn, KeyOf, Blocked, Follows, NonNull, HasTarget, Purgeable;
    var stage := Stage(rows, refs, detached, k);
    forall fk, item | fk in fks && item in stage && item.table == fk.src && NonNull(fk, item.row)
      ensures HasTarget(stage, fk, item.row)
    {
      var o :| o in rows && item == Prepared(o, refs, detached);
      PreparedKeepsRef(o, refs, detached);
      NonNullBefore(o, refs, detached, fk);
      RowIntact(rows, refs, detached, fk, k, o);
    }
  }

  // ----- row counts -----

  ghost function RowsNamed(rows: set<Item>, named: set<Ref>): set<Item> {
    set item | item in rows && RefOf(item) in named
  }

  /** The keys in `named` identify rows. */
  ghost predicate Distinct(rows: set<Item>, named: set<Ref>) {
    forall i, j :: i in rows && j in rows && RefOf(i) == RefOf(j) && RefOf(i) in named ==> i == j
  }

  /** With unique keys, as many rows as keys. */
  lemma {:induction false} CountNamed(rows: set<Item>, named: set<Ref>)
    requires Distinct(rows, named)
    requires forall ref :: ref in named ==> exists item :: item in rows && RefOf(item) == ref
    ensures |RowsNamed(rows, named)| == |named|
    decreases |named|
  {
    hide RefOf;
    if named == {} {
      assert RowsNamed(rows, named) == {};
    } else {
      var ref :| ref in named;
      var item :| item in rows && RefOf(item) == ref;
      CountNamed(rows, named - {ref});
      AlsoNamed(rows, named, item);
    }
  }

  lemma AlsoNamed(rows: set<Item>, named: set<Ref>, item: Item)
    requires Distinct(rows, named) && item in rows && RefOf(item) in named
    ensures RowsNamed(rows, named) == RowsNamed(rows, named - {RefOf(item)}) + {item}
    ensures item !in RowsNamed(rows, named - {RefOf(item)})
  {
    hide RefOf;
  }

  // ----- the purge itself -----

  /** What the locked tables and the approved selection are: exactly one row behind each selected key, only purgeable
      tables selected, an intact database and no foreign key blocker. */
  ghost predicate Approved(rows: set<Item>, refs: set<Ref>, detached: set<Json>, fks: set<ForeignKey>) {
    && Distinct(rows, refs)
    && (forall ref :: ref in refs ==> exists item :: item in rows && RefOf(item) == ref)
    && Purgeable(refs)
    && Intact(rows, fks)
    && (forall fk :: fk in fks ==> Follows(fk) && !Blocked(rows, refs, detached, fk))
  }

  function RunSet(runs: seq<Json>): set<Json> {
    set r | r in runs
  }

  function OfTable(refs: set<Ref>, table: Table): set<Ref> {
    set ref | ref in refs && ref.table == table
  }

  lemma TurnAt(k: nat)
    requires k < |DELETE_ORDER|
    ensures Turn(DELETE_ORDER[k]) == k
  {
    OrderDistinct();
    hide DELETE_ORDER, Position;
  }

  lemma OrderDistinct()
    ensures forall i, j :: 0 <= i < j < |DELETE_ORDER| ==> DELETE_ORDER[i] != DELETE_ORDER[j]
  {
  }

  lemma PreparedUnique(rows: set<Item>, refs: set<Ref>, detached: set<Json>, named: set<Ref>)
    requires Distinct(rows, named)
    ensures Distinct(PreparedRows(rows, refs, detached), named)
  {
    hide RefOf, Projected;
    forall i, j | i in PreparedRows(rows, refs, detached) && j in PreparedRows(rows, refs, detached)
        && RefOf(i) == RefOf(j) && RefOf(i) in named
      ensures i == j
    {
      var o :| o in rows && i == Prepared(o, refs, detached);
      var q :| q in rows && j == Prepared(q, refs, detached);
      PreparedKeepsRef(o, refs, detached);
      PreparedKeepsRef(q, refs, detached);
    }
  }

  lemma StageCount(rows: set<Item>, refs: set<Ref>, detached: set<Json>, fks: set<ForeignKey>, k: nat)
    requires Approved(rows, refs, detached, fks) && k < |DELETE_ORDER|
    ensures |RowsNamed(Stage(rows, refs, detached, k), OfTable(refs, DELETE_ORDER[k]))|
        == |OfTable(refs, DELETE_ORDER[k])|
  {
    hide Intact, Blocked, Follows, RefOf, Projected;
    PreparedUnique(rows, refs, detached, refs);
    TurnAt(k);
    var stage, named := Stage(rows, refs, detached, k), OfTable(refs, DELETE_ORDER[k]);
    forall ref | ref in named ensures exists item :: item in stage && RefOf(item) == ref {
      var o :| o in rows && RefOf(o) == ref;
      PreparedKeepsRef(o, refs, detached);
      assert Prepared(o, refs, detached) in PreparedRows(rows, refs, detached);
      RefTable(o);
      RefTable(Prepared(o, refs, detached));
      assert Prepared(o, refs, detached) in stage;
    }
    CountNamed(stage, named);
  }

  lemma RefTable(item: Item)
    ensures RefOf(item).table == item.table
  {
  }

  lemma StageStep(rows: set<Item>, refs: set<Ref>, detached: set<Json>, k: nat)
    requires k < |DELETE_ORDER|
    ensures Stage(rows, refs, detached, k + 1)
        == Stage(rows, refs, detached, k) - RowsNamed(Stage(rows, refs, detached, k), OfTable(refs, DELETE_ORDER[k]))
  {
  }

  lemma DetachMore(rows: set<Item>, detached: set<Json>, run: Json)
    ensures Detached(Detached(rows, detached), {run}) == Detached(rows, detached + {run})
  {
    forall item ensures Projected(Projected(item, detached), {run}) == Projected(item, detached + {run}) {
    }
    forall x | x in Detached(rows, detached + {run}) ensures x in Detached(Detached(rows, detached), {run}) {
      var o :| o in rows && x == Projected(o, detached + {run});
      assert Projected(o, detached) in Detached(rows, detached);
    }
  }

  lemma ClearAfterDetach(rows: set<Item>, refs: set<Ref>, detached: set<Json>)
    ensures PreparedRows(Detached(rows, detached), refs, {}) == PreparedRows(rows, refs, detached)
  {
    forall item ensures Prepared(Projected(item, detached), refs, {}) == Prepared(item, refs, detached) {
      PreparedKeepsRef(item, refs, detached);
    }
    forall x | x in PreparedRows(rows, refs, detached) ensures x in PreparedRows(Detached(rows, detached), refs, {}) {
      var o :| o in rows && x == Prepared(o, refs, detached);
      assert Projected(o, detached) in Detached(rows, detached);
    }
  }

  class Database {
    var rows: set<Item>

    constructor (rows: set<Item>)
      ensures this.rows == rows
    {
      this.rows := rows;
    }

    /** Sets the Chat of one retained Run to null. */
    method Detach(run: Json)
      modifies this
      ensures rows == Detached(old(rows), {run})
    {
      rows := set item | item in rows :: Projected(item, {run});
    }

    /** Clears both cursors of every selected Chat; the affected row count comes back. */
    method ClearCursors(refs: set<Ref>) returns (count: nat)
      modifies this
      ensures rows == PreparedRows(old(rows), refs, {})
      ensures count == |RowsNamed(old(rows), OfTable(refs, Chats))|
    {
      var hit := set item | item in rows && item.table == Chats && RefOf(item) in refs;
      assert hit == RowsNamed(rows, OfTable(refs, Chats));
      count := |hit|;
      rows := set item | item in rows :: Prepared(item, refs, {});
    }

    /** Deletes the selected rows of one table; the affected row count comes back. */
    method DeleteFrom(table: Table, refs: set<Ref>) returns (count: nat)
      modifies this
      ensures rows == old(rows) - RowsNamed(old(rows), OfTable(refs, table))
      ensures count == |RowsNamed(old(rows), OfTable(refs, table))|
    {
      var hit := set item | item in rows && item.table == table && RefOf(item) in refs;
      assert hit == RowsNamed(rows, OfTable(refs, table));
      count := |hit|;
      rows := rows - hit;
    }

    /** Detaches the reviewed Runs one by one, then clears the cursors of the selected Chats; a surprising row count
        stops it. */
    method Prepare(refs: set<Ref>, detached: seq<Json>, ghost fks: set<ForeignKey>) returns (ok: bool)
      modifies this
      ensures Approved(old(rows), refs, RunSet(detached), fks) ==> ok
      ensures ok <==> ChatsCounted(old(rows), refs, RunSet(detached))
      ensures ok ==> rows == PreparedRows(old(rows), refs, RunSet(detached))
      ensures ok ==> OnlyCleared(old(rows), rows, refs, RunSet(detached))
    {
      hide PreparedRows, Detached, RowsNamed, OfTable, Approved;
      ghost var before := rows;
      PreparedColumns(before, refs, RunSet(detached));
      hide OnlyCleared;
      DetachNone(before);
      for i := 0 to |detached|
        invariant rows == Detached(before, RunSet(detached[..i]))
      {
        Detach(detached[i]);
        DetachMore(before, RunSet(detached[..i]), detached[i]);
        assert RunSet(detached[..i + 1]) == RunSet(detached[..i]) + {detached[i]};
      }
      assert detached[..|detached|] == detached;
      if Approved(before, refs, RunSet(detached), fks) { ChatCount(before, refs, RunSet(detached), fks); }
      ClearAfterDetach(before, refs, RunSet(detached));
      if OfTable(refs, Chats) == {} {
        NoChatCleared(rows, refs);
      } else {
        var count := ClearCursors(refs);
        if count != |OfTable(refs, Chats)| { return false; }
      }
      ok := true;
    }

    /** The deletions in order, on rows already prepared from `before`; a surprising row count stops them. */
    method DeleteSelected(refs: set<Ref>, ghost before: set<Item>, ghost detached: set<Json>,
                          ghost fks: set<ForeignKey>)
      returns (ok: bool, ghost stages: seq<set<Item>>)
      requires rows == PreparedRows(before, refs, detached)
      modifies this
      ensures Approved(before, refs, detached, fks) ==> ok && forall k :: 0 <= k < |stages| ==> Intact(stages[k], fks)
      ensures ok ==> |stages| == |DELETE_ORDER| + 1 && stages[|DELETE_ORDER|] == rows
      ensures ok ==> rows == Stage(before, refs, detached, |DELETE_ORDER|)
      ensures ok <==> RowsCounted(old(rows), refs, |DELETE_ORDER|)
      ensures ok ==> forall k :: 0 <= k < |DELETE_ORDER| ==>
                stages[k + 1] == stages[k] - RowsNamed(stages[k], OfTable(refs, DELETE_ORDER[k]))
    {
      hide *;
      StageNone(before, refs, detached);
      NoneCounted(rows, refs);
      if Approved(before, refs, detached, fks) { ApprovedStage(before, refs, detached, fks, 0); }
      stages := [rows];
      for k := 0 to |DELETE_ORDER|
        invariant rows == Stage(before, refs, detached, k)
        invariant |stages| == k + 1 && stages[k] == rows
        invariant RowsCounted(old(rows), refs, k)
        invariant Approved(before, refs, detached, fks) ==> forall j :: 0 <= j <= k ==> Intact(stages[j], fks)
        invariant forall j :: 0 <= j < k ==>
            stages[j + 1] == stages[j] - RowsNamed(stages[j], OfTable(refs, DELETE_ORDER[j]))
      {
        StageStep(before, refs, detached, k);
        CountedBefore(old(rows), refs, k + 1);
        CountedNext(before, refs, detached, k);
        if Approved(before, refs, detached, fks) {
          StageCount(before, refs, detached, fks, k);
          ApprovedStage(before, refs, detached, fks, k + 1);
        }
        var keys := OfTable(refs, DELETE_ORDER[k]);
        if keys == {} {
          NothingNamed(rows);
          NoneNamed(rows);
        } else {
          var count := DeleteFrom(DELETE_ORDER[k], refs);
          if count != |keys| { return false, stages; }
        }
        stages := stages + [rows];
      }
      ok := true;
    }

    /** One transaction. An approved purge always completes: no row count surprises it, the database is intact
        after every table, and what remains is every unselected row, unchanged but for the detached Runs. */
    method Execute(refs: set<Ref>, detached: seq<Json>, ghost fks: set<ForeignKey>)
        returns (ok: bool, ghost stages: seq<set<Item>>)
      modifies this
      ensures !ok ==> rows == old(rows)
      ensures Approved(old(rows), refs, RunSet(detached), fks) ==>
                && ok && |stages| == |DELETE_ORDER| + 1 && stages[|DELETE_ORDER|] == rows
                && (forall k :: 0 <= k < |stages| ==> Intact(stages[k], fks))
                && rows == Left(old(rows), refs, RunSet(detached))
      ensures ok <==> Counted(old(rows), refs, RunSet(detached))
      ensures ok && Purgeable(refs) ==>
                OnlyCleared(Unselected(old(rows), refs), rows, {}, RunSet(detached))
      ensures ok ==> |stages| == |DELETE_ORDER| + 1 && forall k :: 0 <= k < |DELETE_ORDER| ==>
                stages[k + 1] == stages[k] - RowsNamed(stages[k], OfTable(refs, DELETE_ORDER[k]))
    {
      hide Intact, RowsNamed, Projected, OnlyCleared;
      var saved := rows;
      stages := [];
      ok := Prepare(refs, detached, fks);
      if ok { ok, stages := DeleteSelected(refs, saved, RunSet(detached), fks); }
      if !ok { rows := saved; }
      if Purgeable(refs) {
        Remaining(saved, refs, RunSet(detached));
        LeftColumns(saved, refs, RunSet(detached));
      }
    }
  }

  /** Clearing the cursors meets as many Chats as are selected. */
  ghost predicate ChatsCounted(rows: set<Item>, refs: set<Ref>, detached: set<Json>) {
    OfTable(refs, Chats) == {}
    || |RowsNamed(Detached(rows, detached), OfTable(refs, Chats))| == |OfTable(refs, Chats)|
  }

  /** Deleting from the first k tables meets as many rows of each as are selected. */
  ghost predicate RowsCounted(rows: set<Item>, refs: set<Ref>, k: nat)
    requires k <= |DELETE_ORDER|
  {
    forall j :: 0 <= j < k ==>
      |RowsNamed(rows, OfTable(refs, DELETE_ORDER[j]))| == |OfTable(refs, DELETE_ORDER[j])|
  }

  /** No row count surprises the purge. */
  ghost predicate Counted(rows: set<Item>, refs: set<Ref>, detached: set<Json>) {
    && ChatsCounted(rows, refs, detached)
    && RowsCounted(PreparedRows(rows, refs, detached), refs, |DELETE_ORDER|)
  }

  lemma NoneCounted(rows: set<Item>, refs: set<Ref>)
    ensures RowsCounted(rows, refs, 0)
  {
  }

  lemma CountedBefore(rows: set<Item>, refs: set<Ref>, k: nat)
    requires k <= |DELETE_ORDER|
    ensures RowsCounted(rows, refs, |DELETE_ORDER|) ==> RowsCounted(rows, refs, k)
  {
  }

  lemma NoneNamed(rows: set<Item>)
    ensures |RowsNamed(rows, {})| == 0
  {
  }

  /** Deleting from one table does not change what another one is asked for. */
  lemma CountedNext(before: set<Item>, refs: set<Ref>, detached: set<Json>, k: nat)
    requires k < |DELETE_ORDER|
    ensures RowsNamed(Stage(before, refs, detached, k), OfTable(refs, DELETE_ORDER[k]))
         == RowsNamed(PreparedRows(before, refs, detached), OfTable(refs, DELETE_ORDER[k]))
    ensures var rows := PreparedRows(before, refs, detached);
      RowsCounted(rows, refs, k + 1) <==>
      (RowsCounted(rows, refs, k)
       && |RowsNamed(rows, OfTable(refs, DELETE_ORDER[k]))| == |OfTable(refs, DELETE_ORDER[k])|)
  {
    TurnAt(k);
    hide PreparedRows, KeyOf, Turn, DELETE_ORDER;
  }

  lemma NoChatCleared(rows: set<Item>, refs: set<Ref>)
    requires OfTable(refs, Chats) == {}
    ensures PreparedRows(rows, refs, {}) == rows
  {
    forall item ensures Prepared(item, refs, {}) == item {
      assert RefOf(item) !in OfTable(refs, Chats);
    }
  }

  lemma ChatCount(rows: set<Item>, refs: set<Ref>, detached: set<Json>, fks: set<ForeignKey>)
    requires Approved(rows, refs, detached, fks)
    ensures |RowsNamed(Detached(rows, detached), OfTable(refs, Chats))| == |OfTable(refs, Chats)|
  {
    hide Intact, Blocked, Follows, RefOf, Turn, Projected, RowsNamed;
    DetachedIsPrepared(rows, detached);
    PreparedUnique(rows, {}, detached, refs);
    forall ref | ref in OfTable(refs, Chats)
      ensures exists item :: item in Detached(rows, detached) && RefOf(item) == ref
    {
      var o :| o in rows && RefOf(o) == ref;
      PreparedKeepsRef(o, {}, detached);
      assert Projected(o, detached) in Detached(rows, detached);
    }
    CountNamed(Detached(rows, detached), OfTable(refs, Chats));
  }

  lemma DetachedIsPrepared(rows: set<Item>, detached: set<Json>)
    ensures PreparedRows(rows, {}, detached) == Detached(rows, detached)
  {
  }

  lemma DetachNone(rows: set<Item>)
    ensures Detached(rows, RunSet([])) == rows
  {
  }

  lemma StageNone(rows: set<Item>, refs: set<Ref>, detached: set<Json>)
    ensures Stage(rows, refs, detached, 0) == PreparedRows(rows, refs, detached)
  {
  }

  lemma NothingNamed(rows: set<Item>)
    ensures rows - RowsNamed(rows, {}) == rows
  {
  }

  lemma ApprovedStage(rows: set<Item>, refs: set<Ref>, detached: set<Json>, fks: set<ForeignKey>, k: nat)
    requires Approved(rows, refs, detached, fks)
    ensures Intact(Stage(rows, refs, detached, k), fks)
  {
    StageIntact(rows, refs, detached, fks, k);
  }

  lemma Remaining(rows: set<Item>, refs: set<Ref>, detached: set<Json>)
    requires forall ref :: ref in refs ==> Turn(ref.table) < |DELETE_ORDER|
    ensures Stage(rows, refs, detached, |DELETE_ORDER|) == Left(rows, refs, detached)
  {
    hide KeyOf, Turn;
    var stage := Stage(rows, refs, detached, |DELETE_ORDER|);
    forall x | x in stage ensures exists o :: o in rows && RefOf(o) !in refs && x == Projected(o, detached) {
      var o :| o in rows && x == Prepared(o, refs, detached);
      PreparedKeepsRef(o, refs, detached);
    }
    forall o | o in rows && RefOf(o) !in refs ensures Projected(o, detached) in stage {
      PreparedKeepsRef(o, refs, detached);
      assert Prepared(o, refs, detached) in PreparedRows(rows, refs, detached);
    }
  }
}
