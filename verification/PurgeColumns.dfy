/** The reviewed purge in terms of tables and columns: what a selection sweeps along, what a manifest lists and which
    rows stand in its way, said without the functions that compute it. */
module PurgeColumns {
  import opened Wrappers
  import opened PurgeModel
  import opened PurgeClosure
  import opened PurgeManifest
  import opened ReferenceScan
  import opened Listings
  import PurgeDelete

  // ----- what goes along -----

  /** This column of the row holds the id of a selected row of `table`. */
  predicate Holds(refs: set<Ref>, item: Item, column: Column, table: Table) {
    Col(item.row, column) != Null && Ref(table, [(IdCol, Col(item.row, column))]) in refs
  }

  /** Subtypes, artifacts and embeddings go with their Object, connections with either end, routines with their task, an
      event with what happened to, messages with their Chat, an embedding also with its artifact, a cached request with
      its Run. */
  predicate GoesAlong(refs: set<Ref>, item: Item) {
    || (item.table in {Tasks, Chats, Users, Entities, Memories, Sources, Notes, Themes, RealWorldEvents, Artifacts,
                       Embeddings}
        && Holds(refs, item, ObjectId, Objects))
    || (item.table == Embeddings && Holds(refs, item, ArtifactId, Artifacts))
    || (item.table == EntityCategoryAssignments && Holds(refs, item, EntityObjectId, Objects))
    || (item.table in {TaskRoutines, TaskRoutineRuns} && Holds(refs, item, TaskId, Objects))
    || (item.table == Connections
        && (Holds(refs, item, SourceObjectId, Objects) || Holds(refs, item, TargetObjectId, Objects)))
    || (item.table == ObjectEvents && Col(item.row, TargetType) == Str("object")
        && Holds(refs, item, TargetId, Objects))
    || (item.table == ObjectEvents && Col(item.row, TargetType) != Str("object")
        && Holds(refs, item, TargetId, Connections))
    || (item.table == ChatMessages && Holds(refs, item, ChatObjectId, Objects))
    || (item.table == ContextApplyRequests && Holds(refs, item, RunId, Runs))
  }

  lemma OwnedIff(refs: set<Ref>, item: Item)
    ensures Owned(refs, item) <==> GoesAlong(refs, item)
  {
    var row := item.row;
    forall table, column
      ensures (exists o :: o in Named(table, Col(row, column)) && o in refs) <==> Holds(refs, item, column, table)
    {
      if Holds(refs, item, column, table) { assert IdRef(table, Col(row, column)) in Named(table, Col(row, column)); }
    }
  }

  /** Main theorem on the selection: a row that was not asked for is selected exactly when one of the columns that count
      for its table names a selected row. */
  lemma SweptIff(items: seq<Item>, roots: set<Ref>, refs: set<Ref>, item: Item)
    requires UniqueKeys(items) && IsClosure(items, roots, refs) && item in items && RefOf(item) !in roots
    ensures RefOf(item) in refs <==> GoesAlong(refs, item)
  {
    OwnedIff(refs, item);
    hide RefOf, GoesAlong, Owners;
    if RefOf(item) in refs {
      assert HasPath(items, roots, RefOf(item));
      var path :| OwnershipPath(items, roots, path) && path[|path| - 1] == RefOf(item);
      var k := |path| - 1;
      assert OwnedBy(items, path[k - 1], path[k]);
      var same :| same in items && RefOf(same) == RefOf(item) && path[k - 1] in Owners(same);
      assert same == item;
      PathsAreForced(items, roots, refs, path, k - 1);
    }
  }

  // ----- what stands in the way -----

  /** The ids in the selected rows, as a mention would spell them. */
  predicate NamesSelected(items: seq<Item>, refs: set<Ref>, item: Item) {
    exists c :: c in item.row && Mentions(item.row[c], SelectedIds(items, refs))
  }

  lemma IdsOfSelected(items: seq<Item>, refs: set<Ref>, id: string)
    ensures id in SelectedIds(items, refs) <==>
            exists item :: item in items && RefOf(item) in refs && Col(item.row, IdCol) == Str(id)
  {
  }

  /** The kinds of evidence a correction can be about. */
  function Corrected(kind: Json): Table {
    if kind == Str("artifact") then Artifacts
    else if kind == Str("message") then ChatMessages
    else if kind == Str("event") then ObjectEvents
    else if kind == Str("run") then Runs
    else Objects
  }

  /** A run that can still go on. */
  predicate Unfinished(row: Row) {
    var kind, status, at := Col(row, OtherCol("kind")), Col(row, Status), Col(row, OtherCol("completed_at"));
    && status != Str("completed") && status != Str("failed") && status != Str("reversed") && status != Str("delivered")
    && status != Str("suppressed")
    && (status == Str("cancelled") && kind == Str("slack_interaction") ==> at == Null)
    && (status == Str("preview") && (kind == Str("memory_dream") || kind == Str("memory_synthesis")) ==> at == Null)
  }

  /** A row that blocks a purge whatever the foreign keys say: a correction of selected evidence, a selected event of a
      retained target, a retained Chat with a cursor on a selected message, a pending occurrence or a run going on
      that mentions a selected row. */
  predicate Blocks(items: seq<Item>, refs: set<Ref>, item: Item) {
    || (item.table == EvidenceCorrections && Holds(refs, item, TargetId, Corrected(Col(item.row, TargetType))))
    || (item.table == ObjectEvents && RefOf(item) in refs && !GoesAlong(refs, item))
    || (item.table == Chats && RefOf(item) !in refs
        && (Holds(refs, item, QueuedThrough, ChatMessages) || Holds(refs, item, CuratedThrough, ChatMessages)))
    || (item.table == TaskRoutineRuns
        && (Col(item.row, Status) == Str("pending") || Col(item.row, Status) == Str("running"))
        && NamesSelected(items, refs, item))
    || (item.table == Runs && Unfinished(item.row) && NamesSelected(items, refs, item))
  }

  lemma HarmlessIff(items: seq<Item>, refs: set<Ref>, item: Item)
    ensures Harmless(refs, SelectedIds(items, refs), item) <==> !Blocks(items, refs, item)
  {
    hide RefOf, Mentions, SelectedIds;
    TerminalIff(item.row);
    CorrectedIff(item.row);
    hide Terminal, Unfinished, CorrectionTarget, Corrected;
  }

  lemma TerminalIff(row: Row)
    ensures Terminal(row) <==> !Unfinished(row)
  {
  }

  lemma CorrectedIff(row: Row)
    ensures CorrectionTarget(row) == Corrected(Col(row, TargetType))
  {
  }

  /** Main theorem on blockers, in columns: the list is empty exactly when no proof to be retained is selected, every
      foreign key is unblocked (PurgeDelete.BlockedColumns says when), and no row blocks by itself. */
  lemma UnblockedIff(items: seq<Item>, chosen: Selected, plan: Plan, fks: seq<ForeignKey>,
                     rowBefore: (Line, Line) -> bool, lineBefore: (Line, Line) -> bool,
                     blockerBefore: (Blocker, Blocker) -> bool)
    requires forall id :: id in SelectedIds(items, chosen.Keys) ==> UuidText(id)
    ensures Render(items, chosen, plan, fks, rowBefore, lineBefore, blockerBefore).blockers == [] <==>
            && (forall p :: p in plan.proofs && p.mustRetain ==> p.ref !in chosen)
            && (forall fk :: fk in fks ==>
                  !PurgeDelete.Blocked(RowSet(items), chosen.Keys, PurgeDelete.RunSet(plan.detached), fk))
            && (forall item :: item in items ==> !Blocks(items, chosen.Keys, item))
  {
    BlockersExact(items, chosen, plan, fks, rowBefore, lineBefore, blockerBefore);
    hide *;
    forall item
      ensures Harmless(chosen.Keys, SelectedIds(items, chosen.Keys), item) <==> !Blocks(items, chosen.Keys, item)
    {
      HarmlessIff(items, chosen.Keys, item);
    }
  }

  /** What the list says of a blocker: which row stands in the way, and why. */
  ghost predicate Reported(items: seq<Item>, refs: set<Ref>, plan: Plan, fks: seq<ForeignKey>, b: Blocker) {
    || (exists p :: p in plan.proofs && p.mustRetain && p.ref in refs
                    && b == Blocker(p.ref.table, Some(p.ref.key), ProofRetained, None))
    || (exists fk :: fk in fks && fk.src.Unmanaged? && (exists d :: d in items && d.table == fk.dst && RefOf(d) in refs)
                     && b == Blocker(fk.src, None, UnmanagedKey(fk.dst), None))
    || (exists fk, o :: fk in fks && !fk.src.Unmanaged? && o in items && CutKey(items, refs, plan, fk, o, b))
    || (exists o :: o in items && RowReported(items, refs, o, b))
  }

  /** The key of retained row o would be cut; the row is shown without the Chat it is about to lose. */
  ghost predicate CutKey(items: seq<Item>, refs: set<Ref>, plan: Plan, fk: ForeignKey, o: Item, b: Blocker) {
    var shown := PurgeDelete.Projected(o, PurgeDelete.RunSet(plan.detached)).row;
    && o.table == fk.src && RefOf(o) !in refs && KeyHeld(items, refs, shown, fk)
    && b == Blocker(fk.src, Some(KeyOf(fk.src, shown)), LiveKey(fk.dst), Some(shown))
  }

  predicate RowReported(items: seq<Item>, refs: set<Ref>, o: Item, b: Blocker) {
    b.table == o.table && b.key == Some(KeyOf(o.table, o.row)) &&
    match b.reason
    case CorrectionRetained =>
      b.row == None && o.table == EvidenceCorrections && Holds(refs, o, TargetId, Corrected(Col(o.row, TargetType)))
    case HistoryRetained => b.row == None && o.table == ObjectEvents && RefOf(o) in refs && !GoesAlong(refs, o)
    case CursorRetained(column) =>
      b.row == None && (column == QueuedThrough || column == CuratedThrough) && o.table == Chats && RefOf(o) !in refs
      && Holds(refs, o, column, ChatMessages)
    case ActiveOccurrence =>
      b.row == None && o.table == TaskRoutineRuns
          && (Col(o.row, Status) == Str("pending") || Col(o.row, Status) == Str("running"))
      && NamesSelected(items, refs, o)
    case NonterminalRun => b.row == Some(o.row) && o.table == Runs && Unfinished(o.row) && NamesSelected(items, refs, o)
    case _ => false
  }

  /** The list reports exactly what stands in the way. */
  lemma BlockersReported(items: seq<Item>, chosen: Selected, plan: Plan, fks: seq<ForeignKey>,
                         rowBefore: (Line, Line) -> bool, lineBefore: (Line, Line) -> bool,
                         blockerBefore: (Blocker, Blocker) -> bool, b: Blocker)
    requires forall id :: id in SelectedIds(items, chosen.Keys) ==> UuidText(id)
    ensures b in Render(items, chosen, plan, fks, rowBefore, lineBefore, blockerBefore).blockers <==>
            Reported(items, chosen.Keys, plan, fks, b)
  {
    var refs, detached := chosen.Keys, PurgeDelete.RunSet(plan.detached);
    var ids := SelectedIds(items, refs);
    hide *;
    RenderedIn(items, chosen, plan, fks, rowBefore, lineBefore, blockerBefore, b);
    ProofReported(refs, plan.proofs, b);
    KeysReported(items, refs, plan, fks, b);
    RowBlockersElements(refs, ids, items, b);
    forall o ensures b in RowBlockers(refs, ids, o) <==> RowReported(items, refs, o, b) { RowIff(items, refs, o, b); }
    ReportedIs(items, refs, plan, fks, b);
  }

  lemma ReportedIs(items: seq<Item>, refs: set<Ref>, plan: Plan, fks: seq<ForeignKey>, b: Blocker)
    ensures Reported(items, refs, plan, fks, b) <==>
      || (exists p :: p in plan.proofs && p.mustRetain && p.ref in refs
                      && b == Blocker(p.ref.table, Some(p.ref.key), ProofRetained, None))
      || (exists fk :: fk in fks && KeyReported(items, refs, plan, fk, b))
      || (exists o :: o in items && RowReported(items, refs, o, b))
  {
    hide RowReported, CutKey, RefOf;
  }

  ghost predicate KeyReported(items: seq<Item>, refs: set<Ref>, plan: Plan, fk: ForeignKey, b: Blocker) {
    if fk.src.Unmanaged? then
      (exists d :: d in items && d.table == fk.dst && RefOf(d) in refs)
      && b == Blocker(fk.src, None, UnmanagedKey(fk.dst), None)
    else exists o :: o in items && CutKey(items, refs, plan, fk, o, b)
  }

  lemma RenderedIn(items: seq<Item>, chosen: Selected, plan: Plan, fks: seq<ForeignKey>,
                   rowBefore: (Line, Line) -> bool, lineBefore: (Line, Line) -> bool,
                   blockerBefore: (Blocker, Blocker) -> bool, b: Blocker)
    ensures var refs := chosen.Keys;
      b in Render(items, chosen, plan, fks, rowBefore, lineBefore, blockerBefore).blockers <==>
      (b in ProofBlockers(refs, plan.proofs) || b in AllFkBlockers(items, refs, PurgeDelete.RunSet(plan.detached), fks)
       || b in AllRowBlockers(refs, SelectedIds(items, refs), items))
  {
    hide ManifestRows, Exported, Mentioned, Counts, ProofBlockers, AllFkBlockers, AllRowBlockers, SelectedIds;
  }

  lemma {:induction false} ProofReported(refs: set<Ref>, proofs: seq<Proof>, b: Blocker)
    ensures b in ProofBlockers(refs, proofs) <==>
      exists p :: p in proofs && p.mustRetain && p.ref in refs
                  && b == Blocker(p.ref.table, Some(p.ref.key), ProofRetained, None)
  {
    if proofs != [] {
      var init, last := proofs[..|proofs| - 1], proofs[|proofs| - 1];
      ProofReported(refs, init, b);
      assert forall p :: p in proofs <==> p in init || p == last;
    }
  }

  lemma {:induction false} KeysReported(items: seq<Item>, refs: set<Ref>, plan: Plan, fks: seq<ForeignKey>, b: Blocker)
    ensures b in AllFkBlockers(items, refs, PurgeDelete.RunSet(plan.detached), fks) <==>
      exists fk :: fk in fks && KeyReported(items, refs, plan, fk, b)
  {
    hide FkBlockers, KeyReported;
    if fks != [] {
      var init, last := fks[..|fks| - 1], fks[|fks| - 1];
      KeysReported(items, refs, plan, init, b);
      KeyIff(items, refs, plan, last, b);
      assert forall fk :: fk in fks <==> fk in init || fk == last;
    }
  }

  lemma KeyIff(items: seq<Item>, refs: set<Ref>, plan: Plan, fk: ForeignKey, b: Blocker)
    ensures b in FkBlockers(items, refs, PurgeDelete.RunSet(plan.detached), fk) <==>
            KeyReported(items, refs, plan, fk, b)
  {
    hide RefOf, KeyHeld, KeyOf, PurgeDelete.Projected, KeyBlockers;
    KeyBlockersElements(items, refs, PurgeDelete.RunSet(plan.detached), fk, items, b);
  }

  lemma RowIff(items: seq<Item>, refs: set<Ref>, o: Item, b: Blocker)
    requires forall id :: id in SelectedIds(items, refs) ==> UuidText(id)
    ensures b in RowBlockers(refs, SelectedIds(items, refs), o) <==> RowReported(items, refs, o, b)
  {
    MentionsIff(items, refs, o);
    TerminalIff(o.row);
    CorrectedIff(o.row);
    OwnedEventIff(refs, o);
    hide *;
    PartsOf(refs, SelectedIds(items, refs), o, b);
    HoldsIff(refs, o);
    ByReason(items, refs, o, b);
  }

  /** A row's own blockers, one by one. */
  lemma PartsOf(refs: set<Ref>, ids: set<string>, o: Item, b: Blocker)
    ensures var key := Some(KeyOf(o.table, o.row));
      b in RowBlockers(refs, ids, o) <==>
      || (b == Blocker(o.table, key, CorrectionRetained, None) && o.table == EvidenceCorrections
          && SelectedId(refs, CorrectionTarget(o.row), Col(o.row, TargetId)))
      || (b == Blocker(o.table, key, HistoryRetained, None) && ErasesHistory(refs, o))
      || (b == Blocker(o.table, key, CursorRetained(QueuedThrough), None) && o.table == Chats && RefOf(o) !in refs
          && SelectedId(refs, ChatMessages, Col(o.row, QueuedThrough)))
      || (b == Blocker(o.table, key, CursorRetained(CuratedThrough), None) && o.table == Chats && RefOf(o) !in refs
          && SelectedId(refs, ChatMessages, Col(o.row, CuratedThrough)))
      || (b == Blocker(o.table, key, ActiveOccurrence, None) && o.table == TaskRoutineRuns
          && Col(o.row, Status) in {Str("pending"), Str("running")} && RowMentions(o.row, ids))
      || (b == Blocker(o.table, key, NonterminalRun, Some(o.row)) && o.table == Runs && !Terminal(o.row)
          && RowMentions(o.row, ids))
  {
    hide SelectedId, CorrectionTarget, ErasesHistory, RefOf, KeyOf, RowMentions, Terminal;
  }

  lemma HoldsIff(refs: set<Ref>, o: Item)
    ensures forall column, table :: Holds(refs, o, column, table) <==> SelectedId(refs, table, Col(o.row, column))
  {
  }

  lemma ByReason(items: seq<Item>, refs: set<Ref>, o: Item, b: Blocker)
    ensures var key := Some(KeyOf(o.table, o.row));
      RowReported(items, refs, o, b) <==>
      || (b == Blocker(o.table, key, CorrectionRetained, None) && o.table == EvidenceCorrections
          && Holds(refs, o, TargetId, Corrected(Col(o.row, TargetType))))
      || (b == Blocker(o.table, key, HistoryRetained, None) && o.table == ObjectEvents && RefOf(o) in refs
          && !GoesAlong(refs, o))
      || (b == Blocker(o.table, key, CursorRetained(QueuedThrough), None) && o.table == Chats && RefOf(o) !in refs
          && Holds(refs, o, QueuedThrough, ChatMessages))
      || (b == Blocker(o.table, key, CursorRetained(CuratedThrough), None) && o.table == Chats && RefOf(o) !in refs
          && Holds(refs, o, CuratedThrough, ChatMessages))
      || (b == Blocker(o.table, key, ActiveOccurrence, None) && o.table == TaskRoutineRuns
          && Col(o.row, Status) in {Str("pending"), Str("running")} && NamesSelected(items, refs, o))
      || (b == Blocker(o.table, key, NonterminalRun, Some(o.row)) && o.table == Runs && Unfinished(o.row)
          && NamesSelected(items, refs, o))
  {
    hide Holds, Corrected, RefOf, KeyOf, GoesAlong, NamesSelected, Unfinished;
  }

  lemma OwnedEventIff(refs: set<Ref>, o: Item)
    ensures ErasesHistory(refs, o) <==> o.table == ObjectEvents && RefOf(o) in refs && !GoesAlong(refs, o)
  {
    hide RefOf;
  }

  // ----- what the manifest says -----

  /** Main theorem on the manifest: it lists exactly the selected rows, each with its reason; it counts the selection by
      table; it shows exactly the retained rows that mention a selected id; and the recovery export holds exactly the
      selected rows, as they are, and what the reconciliation adds. */
  lemma ManifestExact(items: seq<Item>, chosen: Selected, plan: Plan, fks: seq<ForeignKey>,
                      rowBefore: (Line, Line) -> bool, lineBefore: (Line, Line) -> bool,
                      blockerBefore: (Blocker, Blocker) -> bool, l: Line, t: Table)
    requires forall id :: id in SelectedIds(items, chosen.Keys) ==> UuidText(id)
    ensures var p := Render(items, chosen, plan, fks, rowBefore, lineBefore, blockerBefore);
      && (l in p.rows <==>
          exists o :: o in items && RefOf(o) in chosen && l == Line(RefOf(o), o.row, Some(chosen[RefOf(o)])))
      && (t in p.counts <==> exists ref :: ref in chosen && ref.table == t)
      && (t in p.counts ==> p.counts[t] == |set ref | ref in chosen && ref.table == t|)
      && (l in p.retained <==> exists o :: o in items && RefOf(o) !in chosen && NamesSelected(items, chosen.Keys, o)
                                        && l == Line(RefOf(o), o.row, None))
      && (l in p.recovery <==>
          l in plan.recovery || exists o :: o in items && RefOf(o) in chosen && l == Line(RefOf(o), o.row, None))
  {
    hide *;
    Rendered(items, chosen, plan, fks, rowBefore, lineBefore, blockerBefore, l);
    ManifestElements(items, chosen, l);
    MentionedElements(chosen.Keys, SelectedIds(items, chosen.Keys), items, l);
    ExportIff(items, chosen, l);
    CountsIff(chosen, t);
    forall o: Item
      ensures RowMentions(o.row, SelectedIds(items, chosen.Keys)) <==> NamesSelected(items, chosen.Keys, o)
    {
      MentionsIff(items, chosen.Keys, o);
    }
  }

  lemma Rendered(items: seq<Item>, chosen: Selected, plan: Plan, fks: seq<ForeignKey>,
                 rowBefore: (Line, Line) -> bool, lineBefore: (Line, Line) -> bool,
                 blockerBefore: (Blocker, Blocker) -> bool, l: Line)
    ensures var p := Render(items, chosen, plan, fks, rowBefore, lineBefore, blockerBefore);
      && p.counts == Counts(chosen.Keys)
      && (l in p.rows <==> l in ManifestRows(items, chosen))
      && (l in p.retained <==> l in Mentioned(chosen.Keys, SelectedIds(items, chosen.Keys), items))
      && (l in p.recovery <==> l in plan.recovery || l in Exported(ManifestRows(items, chosen)))
  {
    hide ManifestRows, Exported, Mentioned, Counts, Blockers, SelectedIds;
  }

  lemma ExportIff(items: seq<Item>, chosen: Selected, l: Line)
    ensures l in Exported(ManifestRows(items, chosen)) <==>
            exists o :: o in items && RefOf(o) in chosen && l == Line(RefOf(o), o.row, None)
  {
    hide RefOf, Exported, ManifestRows;
    ExportedElements(ManifestRows(items, chosen), l);
    forall r ensures r in ManifestRows(items, chosen) <==>
        exists o :: o in items && RefOf(o) in chosen && r == Line(RefOf(o), o.row, Some(chosen[RefOf(o)])) {
      ManifestElements(items, chosen, r);
    }
    forall o | o in items && RefOf(o) in chosen && l == Line(RefOf(o), o.row, None)
      ensures exists r :: r in ManifestRows(items, chosen) && l == r.(reason := None)
    {
      var r := Line(RefOf(o), o.row, Some(chosen[RefOf(o)]));
      assert r in ManifestRows(items, chosen) && l == r.(reason := None);
    }
  }

  lemma CountsIff(chosen: Selected, t: Table)
    ensures t in Counts(chosen.Keys) <==> exists ref :: ref in chosen && ref.table == t
    ensures t in Counts(chosen.Keys) ==> Counts(chosen.Keys)[t] == |set ref | ref in chosen && ref.table == t|
  {
    assert PurgeDelete.OfTable(chosen.Keys, t) == set ref | ref in chosen && ref.table == t;
  }

  lemma MentionsIff(items: seq<Item>, refs: set<Ref>, o: Item)
    requires forall id :: id in SelectedIds(items, refs) ==> UuidText(id)
    ensures RowMentions(o.row, SelectedIds(items, refs)) <==> NamesSelected(items, refs, o)
  {
    hide Mentions, ContainsId, SelectedIds, UuidText;
    forall c | c in o.row
      ensures ContainsId(o.row[c], SelectedIds(items, refs)) <==> Mentions(o.row[c], SelectedIds(items, refs))
    {
      ScanIsSubstringTest(o.row[c], SelectedIds(items, refs));
    }
  }
}
