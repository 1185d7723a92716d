/** The reviewed manifest: what would be deleted, what blocks it, what merely mentions it. It depends on which
    rows there are and not on the order the database returned them in, so the hash compared at commit time is
    the hash that was reviewed. A manifest with no blockers is one that PurgeDelete can carry out. */
module PurgeManifest {
  import opened Wrappers
  import opened PurgeModel
  import opened PurgeClosure
  import opened ReferenceScan
  import opened Listings
  import PurgeDelete

  // ----- request and plan -----

  /** A row digest is taken to determine the row. */
  datatype Selection = Selection(ref: Ref, row: Row, reason: string)
  datatype Proof = Proof(ref: Ref, row: Row, mustRetain: bool)
  datatype Plan = Plan(deletes: seq<Selection>, detached: seq<Json>, proofs: seq<Proof>, recovery: seq<Line>)

  datatype Line = Line(ref: Ref, row: Row, reason: Option<Reason>)

  datatype BlockReason =
    | ProofRetained | UnmanagedKey(dst: Table) | LiveKey(dst: Table) | CorrectionRetained | HistoryRetained
    | CursorRetained(column: Column) | ActiveOccurrence | NonterminalRun
  datatype Blocker = Blocker(table: Table, key: Option<Key>, reason: BlockReason, row: Option<Row>)

  datatype Preview = Preview(
    rows: seq<Line>, counts: map<Table, nat>, blockers: seq<Blocker>, retained: seq<Line>,
    proofs: seq<Proof>, detached: seq<Json>, recovery: seq<Line>)

  const KIND := OtherCol("kind")
  const COMPLETED_AT := OtherCol("completed_at")

  /** src/runs.rs: a status from which a run never moves on its own. */
  predicate Terminal(row: Row) {
    var kind, status := Col(row, KIND), Col(row, Status);
    || status in {Str("completed"), Str("failed"), Str("reversed"), Str("delivered"), Str("suppressed")}
    || (kind == Str("slack_interaction") && status == Str("cancelled") && Col(row, COMPLETED_AT) != Null)
    || (kind in {Str("memory_dream"), Str("memory_synthesis")} && status == Str("preview")
        && Col(row, COMPLETED_AT) != Null)
  }

  predicate RowMentions(row: Row, ids: set<string>) {
    exists c :: c in row && ContainsId(row[c], ids)
  }

  // ----- selections -----

  predicate Selectable(t: Table) {
    Managed(t) && !Subtype(t) && t != Embeddings && t != EntityCategoryAssignments
    && t != EvidenceCorrections && t != ArtifactBinaryPayloads && t != VisualUploadRequests
  }

  function FindRow(items: seq<Item>, ref: Ref): (row: Option<Row>)
    ensures row.Some? ==> exists item :: item in items && RefOf(item) == ref && item.row == row.value
    ensures row.None? ==> forall item :: item in items ==> RefOf(item) != ref
  {
    if items == [] then None
    else if RefOf(items[0]) == ref then Some(items[0].row)
    else FindRow(items[1..], ref)
  }

  /** The selections and then the reviewed deletions, or None if a row is gone, stale or repeated, or one of
      the first `requested` is not a row a request may select. */
  function Roots(items: seq<Item>, chosen: seq<Selection>, requested: nat, reasonOk: string -> bool): Option<Selected> {
    if chosen == [] then Some(map[])
    else
      var s, before := chosen[|chosen| - 1], Roots(items, chosen[..|chosen| - 1], requested, reasonOk);
      if before.None? || (|chosen| <= requested && !(Selectable(s.ref.table) && reasonOk(s.reason))) then None
      else if FindRow(items, s.ref) != Some(s.row) || s.ref in before.value then None
      else Some(before.value[s.ref := Requested(s.reason)])
  }

  /** The tables a request may select from. */
  const REQUESTABLE: set<Table> := {Objects, Connections, TaskRoutineRuns, TaskRoutines, ChatMessages, Artifacts, Runs,
                                    ObjectEvents, ContextApplyRequests}

  /** The row selected is stored under that key with exactly that content. */
  ghost predicate UpToDate(items: seq<Item>, s: Selection) {
    exists item :: item in items && item.table == s.ref.table && KeyOf(item.table, item.row) == s.ref.key
        && item.row == s.row
  }

  /** Every selection is up to date, none is repeated, and the first `requested` are of tables a request may select
      from and give a reason. */
  ghost predicate Requestable(items: seq<Item>, chosen: seq<Selection>, requested: nat, reasonOk: string -> bool) {
    && (forall i :: 0 <= i < |chosen| ==> UpToDate(items, chosen[i]))
    && (forall i, j :: 0 <= i < j < |chosen| ==> chosen[i].ref != chosen[j].ref)
    && (forall i :: 0 <= i < |chosen| && i < requested ==>
        chosen[i].ref.table in REQUESTABLE && reasonOk(chosen[i].reason))
  }

  /** Each selection is a root under its own reason, and nothing else is. */
  ghost predicate RootsOf(chosen: seq<Selection>, roots: Selected) {
    && (forall i :: 0 <= i < |chosen| ==> chosen[i].ref in roots && roots[chosen[i].ref] == Requested(chosen[i].reason))
    && (forall ref :: ref in roots ==> exists i :: 0 <= i < |chosen| && chosen[i].ref == ref)
  }

  /** Which requests are accepted, and as what: a selection made on a row that has changed since is refused. */
  lemma {:induction false} RootsIff(items: seq<Item>, chosen: seq<Selection>, requested: nat, reasonOk: string -> bool)
    requires UniqueKeys(items)
    ensures Roots(items, chosen, requested, reasonOk).Some? <==> Requestable(items, chosen, requested, reasonOk)
    ensures Roots(items, chosen, requested, reasonOk).Some? ==>
              RootsOf(chosen, Roots(items, chosen, requested, reasonOk).value)
  {
    if chosen != [] {
      var init, s := chosen[..|chosen| - 1], chosen[|chosen| - 1];
      RootsIff(items, init, requested, reasonOk);
      assert chosen == init + [s];
      hide *;
      RootsStep(items, init, s, requested, reasonOk);
      FoundIffUpToDate(items, s);
      RequestableTables(s.ref.table);
      OneMoreSelection(items, init, s, requested, reasonOk);
      var before := Roots(items, init, requested, reasonOk);
      if before.Some? {
        RepeatedIff(init, before.value, s);
        if s.ref !in before.value { OneMoreRoot(init, before.value, s); }
      }
    } else {
      NoRoots(items, requested, reasonOk);
    }
  }

  lemma NoRoots(items: seq<Item>, requested: nat, reasonOk: string -> bool)
    ensures Roots(items, [], requested, reasonOk) == Some(map[]) && Requestable(items, [], requested, reasonOk)
        && RootsOf([], map[])
  {
  }

  lemma RootsStep(items: seq<Item>, init: seq<Selection>, s: Selection, requested: nat, reasonOk: string -> bool)
    ensures var before, roots := Roots(items, init, requested, reasonOk), Roots(items, init + [s], requested, reasonOk);
      && (roots.Some? <==>
          before.Some? && (|init| < requested ==> Selectable(s.ref.table) && reasonOk(s.reason))
          && FindRow(items, s.ref) == Some(s.row) && s.ref !in before.value)
      && (roots.Some? ==> roots.value == before.value[s.ref := Requested(s.reason)])
  {
    hide FindRow, Selectable;
    assert (init + [s])[..|init|] == init;
  }

  lemma RepeatedIff(init: seq<Selection>, roots: Selected, s: Selection)
    requires RootsOf(init, roots)
    ensures s.ref in roots <==> exists i :: 0 <= i < |init| && init[i].ref == s.ref
  {
  }

  lemma OneMoreRoot(init: seq<Selection>, roots: Selected, s: Selection)
    requires RootsOf(init, roots) && s.ref !in roots
    ensures RootsOf(init + [s], roots[s.ref := Requested(s.reason)])
  {
    var all := init + [s];
    assert all[|init|] == s && forall i :: 0 <= i < |init| ==> all[i] == init[i];
    var more := roots[s.ref := Requested(s.reason)];
    forall ref | ref in more ensures exists i :: 0 <= i < |all| && all[i].ref == ref {
      if ref != s.ref {
        var i :| 0 <= i < |init| && init[i].ref == ref;
        assert all[i].ref == ref;
      }
    }
  }

  lemma RequestableTables(table: Table)
    ensures Selectable(table) <==> table in REQUESTABLE
  {
  }

  lemma FoundIffUpToDate(items: seq<Item>, s: Selection)
    requires UniqueKeys(items)
    ensures FindRow(items, s.ref) == Some(s.row) <==> UpToDate(items, s)
  {
    hide KeyOf;
    if UpToDate(items, s) {
      var item :| item in items && item.table == s.ref.table && KeyOf(item.table, item.row) == s.ref.key
               && item.row == s.row;
      assert RefOf(item) == s.ref;
    }
  }

  lemma OneMoreSelection(items: seq<Item>, init: seq<Selection>, s: Selection, requested: nat, reasonOk: string -> bool)
    ensures Requestable(items, init + [s], requested, reasonOk) <==>
      && Requestable(items, init, requested, reasonOk) && UpToDate(items, s)
      && (forall i :: 0 <= i < |init| ==> init[i].ref != s.ref)
      && (|init| < requested ==> s.ref.table in REQUESTABLE && reasonOk(s.reason))
  {
    hide UpToDate, REQUESTABLE;
    var all := init + [s];
    assert all[|init|] == s && forall i :: 0 <= i < |init| ==> all[i] == init[i];
  }

  // ----- blockers -----

  predicate SelectedRow(items: seq<Item>, refs: set<Ref>, table: Table) {
    exists d :: d in items && d.table == table && RefOf(d) in refs
  }

  predicate KeyHeld(items: seq<Item>, refs: set<Ref>, row: Row, fk: ForeignKey) {
    exists d :: d in items && d.table == fk.dst && RefOf(d) in refs && PurgeDelete.Matches(fk, row, d.row)
  }

  /** The blocker of one source row under one foreign key. */
  function KeyBlocker(items: seq<Item>, refs: set<Ref>, detached: set<Json>, fk: ForeignKey, o: Item): seq<Blocker> {
    var p := PurgeDelete.Projected(o, detached);
    if o.table == fk.src && RefOf(o) !in refs && KeyHeld(items, refs, p.row, fk)
    then [Blocker(fk.src, Some(KeyOf(fk.src, p.row)), LiveKey(fk.dst), Some(p.row))]
    else []
  }

  function KeyBlockers(items: seq<Item>, refs: set<Ref>, detached: set<Json>, fk: ForeignKey,
                       sources: seq<Item>): seq<Blocker> {
    if sources == [] then []
    else KeyBlockers(items, refs, detached, fk, sources[..|sources| - 1])
         + KeyBlocker(items, refs, detached, fk, sources[|sources| - 1])
  }

  function FkBlockers(items: seq<Item>, refs: set<Ref>, detached: set<Json>, fk: ForeignKey): seq<Blocker> {
    if !Managed(fk.src) then
      if SelectedRow(items, refs, fk.dst) then [Blocker(fk.src, None, UnmanagedKey(fk.dst), None)] else []
    else KeyBlockers(items, refs, detached, fk, items)
  }

  function AllFkBlockers(items: seq<Item>, refs: set<Ref>, detached: set<Json>, fks: seq<ForeignKey>): seq<Blocker> {
    if fks == [] then []
    else AllFkBlockers(items, refs, detached, fks[..|fks| - 1]) + FkBlockers(items, refs, detached, fks[|fks| - 1])
  }

  function ProofBlockers(refs: set<Ref>, proofs: seq<Proof>): seq<Blocker> {
    if proofs == [] then []
    else
      var p := proofs[|proofs| - 1];
      ProofBlockers(refs, proofs[..|proofs| - 1])
      + (if p.mustRetain && p.ref in refs then [Blocker(p.ref.table, Some(p.ref.key), ProofRetained, None)] else [])
  }

  function CorrectionTarget(row: Row): Table {
    match Col(row, TargetType)
    case Str(s) => if s == "artifact" then Artifacts else if s == "message" then ChatMessages
                   else if s == "event" then ObjectEvents else if s == "run" then Runs else Objects
    case _ => Objects
  }

  predicate SelectedId(refs: set<Ref>, table: Table, id: Json) {
    id != Null && IdRef(table, id) in refs
  }

  function CursorBlocker(refs: set<Ref>, item: Item, column: Column): seq<Blocker> {
    if item.table == Chats && RefOf(item) !in refs && SelectedId(refs, ChatMessages, Col(item.row, column))
    then [Blocker(Chats, Some(KeyOf(Chats, item.row)), CursorRetained(column), None)] else []
  }

  /** Everything one row can block besides foreign keys: a correction of deleted evidence, deleted history of a
      retained target, a retained Chat cursor, an active occurrence or run that mentions a selected id. */
  function RowBlockers(refs: set<Ref>, ids: set<string>, item: Item): seq<Blocker> {
    var key := Some(KeyOf(item.table, item.row));
    (if item.table == EvidenceCorrections && SelectedId(refs, CorrectionTarget(item.row), Col(item.row, TargetId))
     then [Blocker(item.table, key, CorrectionRetained, None)] else [])
    + (if ErasesHistory(refs, item) then [Blocker(item.table, key, HistoryRetained, None)] else [])
    + CursorBlocker(refs, item, QueuedThrough) + CursorBlocker(refs, item, CuratedThrough)
    + (if item.table == TaskRoutineRuns && Col(item.row, Status) in {Str("pending"), Str("running")}
       && RowMentions(item.row, ids)
       then [Blocker(item.table, key, ActiveOccurrence, None)] else [])
    + (if item.table == Runs && !Terminal(item.row) && RowMentions(item.row, ids)
       then [Blocker(item.table, key, NonterminalRun, Some(item.row))] else [])
  }

  function AllRowBlockers(refs: set<Ref>, ids: set<string>, items: seq<Item>): seq<Blocker> {
    if items == [] then []
    else AllRowBlockers(refs, ids, items[..|items| - 1]) + RowBlockers(refs, ids, items[|items| - 1])
  }

  function Blockers(items: seq<Item>, refs: set<Ref>, ids: set<string>, plan: Plan,
                    fks: seq<ForeignKey>): seq<Blocker> {
    ProofBlockers(refs, plan.proofs)
    + AllFkBlockers(items, refs, PurgeDelete.RunSet(plan.detached), fks)
    + AllRowBlockers(refs, ids, items)
  }

  // ----- rows, counts, mentions, export -----

  function ManifestRows(items: seq<Item>, chosen: Selected): seq<Line> {
    if items == [] then []
    else
      var item := items[|items| - 1];
      ManifestRows(items[..|items| - 1], chosen)
      + (if RefOf(item) in chosen then [Line(RefOf(item), item.row, Some(chosen[RefOf(item)]))] else [])
  }

  function SelectedIds(items: seq<Item>, refs: set<Ref>): set<string> {
    set item | item in items && RefOf(item) in refs && Col(item.row, IdCol).Str? :: Col(item.row, IdCol).s
  }

  function Counts(refs: set<Ref>): map<Table, nat> {
    map t | t in (set ref | ref in refs :: ref.table) :: |PurgeDelete.OfTable(refs, t)|
  }

  function Mentioned(refs: set<Ref>, ids: set<string>, items: seq<Item>): seq<Line> {
    if items == [] then []
    else
      var item := items[|items| - 1];
      Mentioned(refs, ids, items[..|items| - 1])
      + (if RefOf(item) !in refs && RowMentions(item.row, ids) then [Line(RefOf(item), item.row, None)] else [])
  }

  function Exported(rows: seq<Line>): seq<Line> {
    if rows == [] then [] else Exported(rows[..|rows| - 1]) + [rows[|rows| - 1].(reason := None)]
  }

  /** The manifest and the recovery export of a selection. (Mentions are only sorted, but under unique keys none is
      repeated.) */
  function Render(items: seq<Item>, chosen: Selected, plan: Plan, fks: seq<ForeignKey>,
                  rowBefore: (Line, Line) -> bool, lineBefore: (Line, Line) -> bool,
                           blockerBefore: (Blocker, Blocker) -> bool): Preview {
    var refs := chosen.Keys;
    var ids := SelectedIds(items, refs);
    var rows := ManifestRows(items, chosen);
    Preview(
      Listing(rows, rowBefore), Counts(refs),
      Listing(Blockers(items, refs, ids, plan, fks), blockerBefore),
      Listing(Mentioned(refs, ids, items), lineBefore),
      plan.proofs, plan.detached, Listing(Exported(rows) + plan.recovery, lineBefore))
  }

  // ----- independence of row order -----

  lemma {:induction false} KeyBlockersElements(items: seq<Item>, refs: set<Ref>, detached: set<Json>, fk: ForeignKey,
                                               sources: seq<Item>, b: Blocker)
    ensures b in KeyBlockers(items, refs, detached, fk, sources) <==>
        exists o :: o in sources && b in KeyBlocker(items, refs, detached, fk, o)
  {
    if sources == [] {
    } else {
      var init, last := sources[..|sources| - 1], sources[|sources| - 1];
      KeyBlockersElements(items, refs, detached, fk, init, b);
      assert forall o :: o in sources <==> o in init || o == last;
    }
  }

  lemma {:induction false} RowBlockersElements(refs: set<Ref>, ids: set<string>, items: seq<Item>, b: Blocker)
    ensures b in AllRowBlockers(refs, ids, items) <==> exists o :: o in items && b in RowBlockers(refs, ids, o)
  {
    hide RowBlockers;
    if items == [] {
    } else {
      var init, last := items[..|items| - 1], items[|items| - 1];
      RowBlockersElements(refs, ids, init, b);
      assert forall o :: o in items <==> o in init || o == last;
    }
  }

  lemma {:induction false} ManifestElements(items: seq<Item>, chosen: Selected, l: Line)
    ensures l in ManifestRows(items, chosen) <==>
            exists o :: o in items && RefOf(o) in chosen && l == Line(RefOf(o), o.row, Some(chosen[RefOf(o)]))
  {
    hide RefOf;
    if items == [] {
    } else {
      var init, last := items[..|items| - 1], items[|items| - 1];
      ManifestElements(init, chosen, l);
      assert forall o :: o in items <==> o in init || o == last;
    }
  }

  lemma {:induction false} MentionedElements(refs: set<Ref>, ids: set<string>, items: seq<Item>, l: Line)
    ensures l in Mentioned(refs, ids, items) <==>
            exists o :: o in items && RefOf(o) !in refs && RowMentions(o.row, ids) && l == Line(RefOf(o), o.row, None)
  {
    hide RefOf, RowMentions;
    if items == [] {
    } else {
      var init, last := items[..|items| - 1], items[|items| - 1];
      MentionedElements(refs, ids, init, l);
      assert forall o :: o in items <==> o in init || o == last;
    }
  }

  lemma {:induction false} ExportedElements(rows: seq<Line>, l: Line)
    ensures l in Exported(rows) <==> exists r :: r in rows && l == r.(reason := None)
  {
    if rows == [] {
    } else {
      var init, last := rows[..|rows| - 1], rows[|rows| - 1];
      ExportedElements(init, l);
      assert forall r :: r in rows <==> r in init || r == last;
    }
  }

  ghost predicate SameRows(items: seq<Item>, items': seq<Item>) {
    forall item :: item in items <==> item in items'
  }

  lemma {:induction false} FkBlockersAgree(items: seq<Item>, items': seq<Item>, refs: set<Ref>, detached: set<Json>,
                                           fks: seq<ForeignKey>, b: Blocker)
    requires SameRows(items, items')
    ensures b in AllFkBlockers(items, refs, detached, fks) <==> b in AllFkBlockers(items', refs, detached, fks)
  {
    hide KeyBlocker, RefOf;
    if fks == [] {
    } else {
      FkBlockersAgree(items, items', refs, detached, fks[..|fks| - 1], b);
      var fk := fks[|fks| - 1];
      if Managed(fk.src) {
        KeyBlockersElements(items, refs, detached, fk, items, b);
        KeyBlockersElements(items', refs, detached, fk, items', b);
        forall o ensures KeyBlocker(items, refs, detached, fk, o) == KeyBlocker(items', refs, detached, fk, o) {
          KeyBlockerAgrees(items, items', refs, detached, fk, o);
        }
      } else {
        assert SelectedRow(items, refs, fk.dst) == SelectedRow(items', refs, fk.dst);
      }
    }
  }

  lemma KeyBlockerAgrees(items: seq<Item>, items': seq<Item>, refs: set<Ref>, detached: set<Json>, fk: ForeignKey,
                         o: Item)
    requires SameRows(items, items')
    ensures KeyBlocker(items, refs, detached, fk, o) == KeyBlocker(items', refs, detached, fk, o)
  {
  }

  /** Main theorem: permuting the rows changes neither the manifest nor the recovery export. */
  lemma RenderIgnoresOrder(items: seq<Item>, items': seq<Item>, chosen: Selected, plan: Plan, fks: seq<ForeignKey>,
                           rowBefore: (Line, Line) -> bool, lineBefore: (Line, Line) -> bool,
                           blockerBefore: (Blocker, Blocker) -> bool)
    requires SameRows(items, items') && StrictOrder(rowBefore) && StrictOrder(lineBefore) && StrictOrder(blockerBefore)
    ensures Render(items, chosen, plan, fks, rowBefore, lineBefore, blockerBefore)
         == Render(items', chosen, plan, fks, rowBefore, lineBefore, blockerBefore)
  {
    hide RefOf, RowMentions, RowBlockers, FkBlockers, KeyBlockers, ProofBlockers;
    var refs := chosen.Keys;
    var ids := SelectedIds(items, refs);
    assert ids == SelectedIds(items', refs);
    forall l ensures l in ManifestRows(items, chosen) <==> l in ManifestRows(items', chosen) {
      ManifestElements(items, chosen, l);
      ManifestElements(items', chosen, l);
    }
    forall l ensures l in Mentioned(refs, ids, items) <==> l in Mentioned(refs, ids, items') {
      MentionedElements(refs, ids, items, l);
      MentionedElements(refs, ids, items', l);
    }
    forall l ensures l in Exported(ManifestRows(items, chosen)) <==> l in Exported(ManifestRows(items', chosen)) {
      ExportedElements(ManifestRows(items, chosen), l);
      ExportedElements(ManifestRows(items', chosen), l);
    }
    forall b ensures b in Blockers(items, refs, ids, plan, fks) <==> b in Blockers(items', refs, ids, plan, fks) {
      FkBlockersAgree(items, items', refs, PurgeDelete.RunSet(plan.detached), fks, b);
      RowBlockersElements(refs, ids, items, b);
      RowBlockersElements(refs, ids, items', b);
    }
    ListingIgnoresOrder(ManifestRows(items, chosen), ManifestRows(items', chosen), rowBefore);
    ListingIgnoresOrder(Mentioned(refs, ids, items), Mentioned(refs, ids, items'), lineBefore);
    ListingIgnoresOrder(Exported(ManifestRows(items, chosen)) + plan.recovery,
                        Exported(ManifestRows(items', chosen)) + plan.recovery, lineBefore);
    ListingIgnoresOrder(Blockers(items, refs, ids, plan, fks), Blockers(items', refs, ids, plan, fks), blockerBefore);
  }

  lemma FindRowAgrees(items: seq<Item>, items': seq<Item>, ref: Ref)
    requires SameRows(items, items') && UniqueKeys(items)
    ensures FindRow(items, ref) == FindRow(items', ref)
  {
  }

  /** So does validating the request: the same selections are accepted with the same reasons. */
  lemma {:induction false} RootsIgnoreOrder(items: seq<Item>, items': seq<Item>, chosen: seq<Selection>,
                                            requested: nat, reasonOk: string -> bool)
    requires SameRows(items, items') && UniqueKeys(items)
    ensures Roots(items, chosen, requested, reasonOk) == Roots(items', chosen, requested, reasonOk)
  {
    if chosen == [] {
    } else {
      RootsIgnoreOrder(items, items', chosen[..|chosen| - 1], requested, reasonOk);
      FindRowAgrees(items, items', chosen[|chosen| - 1].ref);
    }
  }

  // ----- the preview -----

  ghost predicate Previewed(items: seq<Item>, selections: seq<Selection>, plan: Plan, reasonOk: string -> bool,
                            chosen: Selected) {
    var roots := Roots(items, selections + plan.deletes, |selections|, reasonOk);
    && roots.Some? && IsClosure(items, roots.value.Keys, chosen.Keys) && RightReasons(roots.value, chosen)
  }

  method CollectKeyBlockers(items: seq<Item>, refs: set<Ref>, detached: set<Json>, fk: ForeignKey)
      returns (blockers: seq<Blocker>)
    ensures blockers == KeyBlockers(items, refs, detached, fk, items)
  {
    hide KeyBlocker;
    blockers := [];
    for i := 0 to |items|
      invariant blockers == KeyBlockers(items, refs, detached, fk, items[..i])
    {
      assert items[..i + 1][..i] == items[..i];
      blockers := blockers + KeyBlocker(items, refs, detached, fk, items[i]);
    }
    assert items[..|items|] == items;
  }

  method CollectFkBlockers(items: seq<Item>, refs: set<Ref>, detached: set<Json>, fks: seq<ForeignKey>)
      returns (blockers: seq<Blocker>)
    ensures blockers == AllFkBlockers(items, refs, detached, fks)
  {
    hide KeyBlockers, SelectedRow;
    blockers := [];
    for i := 0 to |fks|
      invariant blockers == AllFkBlockers(items, refs, detached, fks[..i])
    {
      assert fks[..i + 1][..i] == fks[..i];
      if Managed(fks[i].src) {
        var more := CollectKeyBlockers(items, refs, detached, fks[i]);
        blockers := blockers + more;
      } else if SelectedRow(items, refs, fks[i].dst) {
        blockers := blockers + [Blocker(fks[i].src, None, UnmanagedKey(fks[i].dst), None)];
      }
    }
    assert fks[..|fks|] == fks;
  }

  method CollectBlockers(items: seq<Item>, refs: set<Ref>, ids: set<string>, plan: Plan, fks: seq<ForeignKey>)
      returns (blockers: seq<Blocker>)
    ensures blockers == Blockers(items, refs, ids, plan, fks)
  {
    hide RowBlockers, AllFkBlockers, ProofBlockers;
    var keyed := CollectFkBlockers(items, refs, PurgeDelete.RunSet(plan.detached), fks);
    blockers := ProofBlockers(refs, plan.proofs) + keyed;
    ghost var before := blockers;
    for i := 0 to |items|
      invariant blockers == before + AllRowBlockers(refs, ids, items[..i])
    {
      assert items[..i + 1][..i] == items[..i];
      blockers := blockers + RowBlockers(refs, ids, items[i]);
    }
    assert items[..|items|] == items;
  }

  method BuildPreview(items: seq<Item>, selections: seq<Selection>, plan: Plan, fks: seq<ForeignKey>,
                      reasonOk: string -> bool,
                      rowBefore: (Line, Line) -> bool, lineBefore: (Line, Line) -> bool,
                          blockerBefore: (Blocker, Blocker) -> bool)
    returns (chosen: Option<Selected>, preview: Option<Preview>)
    ensures chosen.Some? <==> Roots(items, selections + plan.deletes, |selections|, reasonOk).Some?
    ensures UniqueKeys(items) ==>
              (chosen.Some? <==> Requestable(items, selections + plan.deletes, |selections|, reasonOk))
    ensures chosen.Some? ==> Previewed(items, selections, plan, reasonOk, chosen.value)
    ensures chosen.Some? ==>
        preview == Some(Render(items, chosen.value, plan, fks, rowBefore, lineBefore, blockerBefore))
    ensures chosen.None? ==> preview.None?
  {
    hide Blockers, Roots, ManifestRows, Counts, Mentioned, Exported, SelectedIds, IsClosure, Requestable;
    if UniqueKeys(items) { RootsIff(items, selections + plan.deletes, |selections|, reasonOk); }
    var roots := Roots(items, selections + plan.deletes, |selections|, reasonOk);
    if roots.None? { return None, None; }
    var closed := Close(items, roots.value);
    var refs := closed.Keys;
    var ids := SelectedIds(items, refs);
    var blockers := CollectBlockers(items, refs, ids, plan, fks);
    var rows := ManifestRows(items, closed);
    chosen := Some(closed);
    preview := Some(Preview(
      Listing(rows, rowBefore), Counts(refs), Listing(blockers, blockerBefore),
      Listing(Mentioned(refs, ids, items), lineBefore),
      plan.proofs, plan.detached, Listing(Exported(rows) + plan.recovery, lineBefore)));
  }

  /** Main theorem: previewing permuted rows, as the commit does under its locks, gives the reviewed manifest
      again, so comparing hashes rejects only a purge whose rows really changed. */
  lemma PreviewIgnoresOrder(items: seq<Item>, items': seq<Item>, selections: seq<Selection>, plan: Plan,
                            fks: seq<ForeignKey>,
                            reasonOk: string -> bool, chosen: Selected, chosen': Selected,
                            rowBefore: (Line, Line) -> bool, lineBefore: (Line, Line) -> bool,
                                blockerBefore: (Blocker, Blocker) -> bool)
    requires SameRows(items, items') && UniqueKeys(items)
    requires StrictOrder(rowBefore) && StrictOrder(lineBefore) && StrictOrder(blockerBefore)
    requires Previewed(items, selections, plan, reasonOk, chosen)
        && Previewed(items', selections, plan, reasonOk, chosen')
    ensures chosen == chosen'
    ensures Render(items, chosen, plan, fks, rowBefore, lineBefore, blockerBefore)
         == Render(items', chosen', plan, fks, rowBefore, lineBefore, blockerBefore)
  {
    RootsIgnoreOrder(items, items', selections + plan.deletes, |selections|, reasonOk);
    SelectionIgnoresOrder(items, items', Roots(items, selections + plan.deletes, |selections|, reasonOk).value, chosen,
                          chosen');
    RenderIgnoresOrder(items, items', chosen, plan, fks, rowBefore, lineBefore, blockerBefore);
  }

  // ----- an empty list of blockers -----

  ghost function RowSet(items: seq<Item>): set<Item> {
    set item | item in items
  }

  /** The preview's key test and the condition under which deletion is safe are the same one. */
  lemma UnblockedKey(items: seq<Item>, refs: set<Ref>, detached: set<Json>, fk: ForeignKey)
    ensures FkBlockers(items, refs, detached, fk) == [] <==> !PurgeDelete.Blocked(RowSet(items), refs, detached, fk)
  {
    hide RefOf, PurgeDelete.Matches, PurgeDelete.Projected, KeyOf;
    if !Managed(fk.src) {
      assert SelectedRow(items, refs, fk.dst)
          == exists d :: d in RowSet(items) && d.table == fk.dst && RefOf(d) in refs;
    } else {
      if PurgeDelete.Blocked(RowSet(items), refs, detached, fk) {
        BlockedIsListed(items, refs, detached, fk);
      }
      if KeyBlockers(items, refs, detached, fk, items) != [] {
        HasElement(KeyBlockers(items, refs, detached, fk, items));
        var b :| b in KeyBlockers(items, refs, detached, fk, items);
        KeyBlockersElements(items, refs, detached, fk, items, b);
        var o :| o in items && b in KeyBlocker(items, refs, detached, fk, o);
        assert o in RowSet(items) && KeyHeld(items, refs, PurgeDelete.Projected(o, detached).row, fk);
      }
    }
  }

  lemma BlockedIsListed(items: seq<Item>, refs: set<Ref>, detached: set<Json>, fk: ForeignKey)
    requires Managed(fk.src) && PurgeDelete.Blocked(RowSet(items), refs, detached, fk)
    ensures KeyBlockers(items, refs, detached, fk, items) != []
  {
    hide RefOf, PurgeDelete.Matches, PurgeDelete.Projected, KeyOf;
    var d, o :| d in RowSet(items) && d.table == fk.dst && RefOf(d) in refs && o in RowSet(items) && o.table == fk.src
                && RefOf(o) !in refs && PurgeDelete.Matches(fk, PurgeDelete.Projected(o, detached).row, d.row);
    assert KeyHeld(items, refs, PurgeDelete.Projected(o, detached).row, fk);
    var b := KeyBlocker(items, refs, detached, fk, o)[0];
    assert b in KeyBlocker(items, refs, detached, fk, o);
    KeyBlockersElements(items, refs, detached, fk, items, b);
  }

  lemma {:induction false} RootTables(items: seq<Item>, chosen: seq<Selection>, requested: nat,
                                      reasonOk: string -> bool, ref: Ref)
    requires Roots(items, chosen, requested, reasonOk).Some? && ref in Roots(items, chosen, requested, reasonOk).value
    requires forall i :: requested <= i < |chosen| ==> chosen[i].ref.table == Embeddings
    ensures Selectable(ref.table) || ref.table == Embeddings
    ensures exists item :: item in items && RefOf(item) == ref
  {
    var s := chosen[|chosen| - 1];
    if ref == s.ref {
    } else {
      RootTables(items, chosen[..|chosen| - 1], requested, reasonOk, ref);
    }
  }

  lemma SelectedRefs(items: seq<Item>, selections: seq<Selection>, plan: Plan, reasonOk: string -> bool,
                     chosen: Selected, ref: Ref)
    requires Previewed(items, selections, plan, reasonOk, chosen) && ref in chosen
    requires forall d :: d in plan.deletes ==> d.ref.table == Embeddings
    ensures (exists item :: item in items && RefOf(item) == ref) && PurgeDelete.Turn(ref.table) < |DELETE_ORDER|
  {
    hide Roots, RefOf, Owners;
    var all := selections + plan.deletes;
    var roots := Roots(items, all, |selections|, reasonOk).value;
    if ref in roots {
      RootTables(items, all, |selections|, reasonOk, ref);
      PurgedTables(ref.table);
    } else {
      assert ref in chosen.Keys && HasPath(items, roots.Keys, ref);
      var path :| OwnershipPath(items, roots.Keys, path) && path[|path| - 1] == ref;
      var k := |path| - 1;
      assert k > 0 && OwnedBy(items, path[k - 1], path[k]);
      var item :| item in items && RefOf(item) == ref && path[k - 1] in Owners(item);
      OwnedTurn(item, path[k - 1]);
    }
  }

  lemma PurgedTables(table: Table)
    requires Selectable(table) || table == Embeddings
    ensures PurgeDelete.Turn(table) < |DELETE_ORDER|
  {
    hide PurgeDelete.Turn;
    assert table in DELETE_ORDER;
    InOrder(table);
  }

  lemma InOrder(table: Table)
    requires table in DELETE_ORDER
    ensures PurgeDelete.Turn(table) < |DELETE_ORDER|
  {
  }

  lemma OwnedTurn(item: Item, owner: Ref)
    requires owner in Owners(item)
    ensures PurgeDelete.Turn(RefOf(item).table) < |DELETE_ORDER|
  {
    hide PurgeDelete.Turn, KeyOf;
    assert item.table in DELETE_ORDER;
    InOrder(item.table);
  }

  /** The preview sees the columns of every foreign key that could block: those from a table it reads in part to a
      table that is purged. */
  predicate InView(fk: ForeignKey) {
    KeyOnly(fk.src) && PurgeDelete.Turn(fk.dst) < |DELETE_ORDER| ==>
      forall c :: c in fk.sc ==> c in VisibleColumns(fk.src)
  }

  lemma LiveKeysInView()
    ensures forall fk :: fk in PurgeDelete.LIVE_KEYS ==> InView(fk)
  {
    ObjectsInFull();
    SubtypesInFull();
    EvidenceInFull();
    ExecutionInFull();
    RetainedInView();
    hide InView, KeyOnly, PurgeDelete.OBJECT_KEYS, PurgeDelete.SUBTYPE_KEYS, PurgeDelete.EVIDENCE_KEYS;
    hide PurgeDelete.EXECUTION_KEYS, PurgeDelete.RETAINED_KEYS;
    forall fk | fk in PurgeDelete.LIVE_KEYS ensures InView(fk) {
      if !KeyOnly(fk.src) { InFullView(fk); }
    }
  }

  lemma InFullView(fk: ForeignKey)
    requires !KeyOnly(fk.src)
    ensures InView(fk)
  {
  }

  lemma ObjectsInFull()
    ensures forall fk :: fk in PurgeDelete.OBJECT_KEYS ==> !KeyOnly(fk.src)
  {
  }

  lemma SubtypesInFull()
    ensures forall fk :: fk in PurgeDelete.SUBTYPE_KEYS ==> !KeyOnly(fk.src)
  {
  }

  lemma EvidenceInFull()
    ensures forall fk :: fk in PurgeDelete.EVIDENCE_KEYS ==> !KeyOnly(fk.src)
  {
  }

  lemma ExecutionInFull()
    ensures forall fk :: fk in PurgeDelete.EXECUTION_KEYS ==> !KeyOnly(fk.src)
  {
  }

  lemma RetainedInView()
    ensures forall fk :: fk in PurgeDelete.RETAINED_KEYS ==> InView(fk)
  {
    PurgeDelete.LateTurns();
    hide PurgeDelete.Turn, DELETE_ORDER;
  }

  /** A database: the stored rows of the managed tables, of which the preview sees SeenRows, and the rows of all
      other tables, which it does not see. */
  ghost predicate Stored(stored: seq<Item>, others: set<Item>) {
    && UniqueKeys(stored) && (forall item :: item in stored ==> Managed(item.table))
    && (forall o :: o in others ==> !Managed(o.table))
  }

  /** Main theorem: a preview that lists no blocker is exactly what the staged deletion of the whole database needs,
      and then every event goes with its target. */
  lemma UnblockedIsApproved(stored: seq<Item>, others: set<Item>, selections: seq<Selection>, plan: Plan,
                            fks: seq<ForeignKey>, reasonOk: string -> bool, chosen: Selected,
                            rowBefore: (Line, Line) -> bool, lineBefore: (Line, Line) -> bool,
                            blockerBefore: (Blocker, Blocker) -> bool)
    requires Stored(stored, others) && Previewed(SeenRows(stored), selections, plan, reasonOk, chosen)
    requires forall d :: d in plan.deletes ==> d.ref.table == Embeddings
    requires PurgeDelete.Intact(RowSet(stored) + others, set fk | fk in fks)
    requires forall fk :: fk in fks ==> PurgeDelete.Follows(fk) && InView(fk)
    requires Render(SeenRows(stored), chosen, plan, fks, rowBefore, lineBefore, blockerBefore).blockers == []
    ensures PurgeDelete.Approved(RowSet(stored) + others, chosen.Keys, PurgeDelete.RunSet(plan.detached),
                                 set fk | fk in fks)
    ensures forall item :: item in stored ==> !ErasesHistory(chosen.Keys, item)
  {
    hide *;
    var items, refs, detached := SeenRows(stored), chosen.Keys, PurgeDelete.RunSet(plan.detached);
    RenderedBlockers(items, chosen, plan, fks, rowBefore, lineBefore, blockerBefore);
    EmptyBlockers(items, refs, SelectedIds(items, refs), plan, fks);
    SelectionPresent(items, selections, plan, reasonOk, chosen);
    StoredPresent(stored, others, refs);
    DistinctRows(stored, others, refs);
    forall fk | fk in fks ensures !PurgeDelete.Blocked(RowSet(stored) + others, refs, detached, fk) {
      UnseenAddNone(stored, others, refs, detached, fk);
    }
    SeenHistory(stored, refs);
    ApprovedParts(RowSet(stored) + others, refs, detached, fks);
  }

  /** So it is on the schema the code runs on, with all its foreign keys. */
  lemma UnblockedLiveIsApproved(stored: seq<Item>, others: set<Item>, selections: seq<Selection>, plan: Plan,
                                reasonOk: string -> bool, chosen: Selected,
                                rowBefore: (Line, Line) -> bool, lineBefore: (Line, Line) -> bool,
                                blockerBefore: (Blocker, Blocker) -> bool)
    requires Stored(stored, others) && Previewed(SeenRows(stored), selections, plan, reasonOk, chosen)
    requires forall d :: d in plan.deletes ==> d.ref.table == Embeddings
    requires PurgeDelete.Intact(RowSet(stored) + others, set fk | fk in PurgeDelete.LIVE_KEYS)
    requires Render(SeenRows(stored), chosen, plan, PurgeDelete.LIVE_KEYS, rowBefore, lineBefore, blockerBefore)
               .blockers == []
    ensures PurgeDelete.Approved(RowSet(stored) + others, chosen.Keys, PurgeDelete.RunSet(plan.detached),
                                 set fk | fk in PurgeDelete.LIVE_KEYS)
    ensures forall item :: item in stored ==> !ErasesHistory(chosen.Keys, item)
  {
    hide *;
    PurgeDelete.LiveKeysFollow();
    LiveKeysInView();
    UnblockedIsApproved(stored, others, selections, plan, PurgeDelete.LIVE_KEYS, reasonOk, chosen, rowBefore,
                        lineBefore, blockerBefore);
  }

  // ----- a database the theorem is about -----

  const ENTITY_OBJECT := Item(Objects, map[IdCol := Str("o"), OtherCol("kind") := Str("entity")])
  const ENTITY := Item(Entities, map[ObjectId := Str("o"), OtherCol("object_kind") := Str("entity"),
                                     OtherCol("primary_category_id") := Str("c")])
  const ASSIGNMENT := Item(EntityCategoryAssignments, map[EntityObjectId := Str("o"), CategoryId := Str("c")])
  const CATEGORY := Item(Unmanaged("entity_categories"), map[IdCol := Str("c")])

  function CategoryName(name: string): Item {
    Item(Unmanaged("entity_category_names"), map[OtherCol("name") := Str(name), CategoryId := Str("c")])
  }

  const STORED: seq<Item> := [ENTITY_OBJECT, ENTITY, ASSIGNMENT]
  const OTHERS: set<Item> := {CATEGORY, CategoryName("person"), CategoryName("people")}

  /** An Entity, its category, and two names of the category, which no column `id` tells apart: all that is asked of
      a database holds of this one. */
  lemma EntityDatabase()
    ensures Stored(STORED, OTHERS) && PurgeDelete.Intact(RowSet(STORED) + OTHERS, set fk | fk in PurgeDelete.LIVE_KEYS)
    ensures RefOf(CategoryName("person")) == RefOf(CategoryName("people"))
        && CategoryName("person") != CategoryName("people")
  {
    EntityRowsStored();
    NamesAlike();
    EntityRows();
    var rows := RowSet(STORED) + OTHERS;
    hide RefOf, RowSet, Stored, CategoryName, STORED, OTHERS, ENTITY_OBJECT, ENTITY, ASSIGNMENT, CATEGORY;
    hide PurgeDelete.HasTarget, PurgeDelete.NonNull, PurgeDelete.LIVE_KEYS;
    forall fk, item | fk in PurgeDelete.LIVE_KEYS && item in rows && item.table == fk.src
        && PurgeDelete.NonNull(fk, item.row)
      ensures PurgeDelete.HasTarget(rows, fk, item.row)
    {
      EntityKeysHeld(rows, fk, item);
    }
  }

  lemma EntityRows()
    ensures RowSet(STORED) + OTHERS
            == {ENTITY_OBJECT, ENTITY, ASSIGNMENT, CATEGORY, CategoryName("person"), CategoryName("people")}
  {
    hide ENTITY_OBJECT, ENTITY, ASSIGNMENT, CATEGORY, CategoryName;
    assert STORED[0] == ENTITY_OBJECT && STORED[1] == ENTITY && STORED[2] == ASSIGNMENT;
  }

  lemma EntityRowsStored()
    ensures Stored(STORED, OTHERS)
  {
    assert RefOf(ENTITY_OBJECT).table == Objects && RefOf(ENTITY).table == Entities;
    assert RefOf(ASSIGNMENT).table == EntityCategoryAssignments;
    hide RefOf;
  }

  lemma NamesAlike()
    ensures RefOf(CategoryName("person")) == RefOf(CategoryName("people"))
        && CategoryName("person") != CategoryName("people")
  {
    var a, b := CategoryName("person"), CategoryName("people");
    assert KeyOf(a.table, a.row) == KeyOf(b.table, b.row);
    assert a.row[OtherCol("name")] != b.row[OtherCol("name")] by { assert "person"[2] != "people"[2]; }
  }

  lemma EntityKeysHeld(rows: set<Item>, fk: ForeignKey, item: Item)
    requires {ENTITY_OBJECT, ENTITY, CATEGORY} <= rows && fk in PurgeDelete.LIVE_KEYS && item.table == fk.src
    requires item in [ENTITY_OBJECT, ENTITY, ASSIGNMENT, CATEGORY, CategoryName("person"), CategoryName("people")]
    ensures PurgeDelete.HasTarget(rows, fk, item.row)
  {
    EntityKeys();
    assert EntityKey(fk);
    RowsOf(item);
    EntityMatches();
    AssignmentMatches();
    NameMatches("person");
    NameMatches("people");
    hide *;
    var target := if fk == PurgeDelete.SubtypeKey(Entities) then ENTITY_OBJECT
                  else if fk == PurgeDelete.Single(EntityCategoryAssignments, EntityObjectId, Entities, ObjectId)
                      then ENTITY
                  else CATEGORY;
    TargetHeld(rows, fk, item, target);
  }

  lemma TargetHeld(rows: set<Item>, fk: ForeignKey, item: Item, d: Item)
    requires d in rows && d.table == fk.dst && PurgeDelete.Matches(fk, item.row, d.row)
    ensures PurgeDelete.HasTarget(rows, fk, item.row)
  {
  }

  lemma RowsOf(item: Item)
    requires item in [ENTITY_OBJECT, ENTITY, ASSIGNMENT, CATEGORY, CategoryName("person"), CategoryName("people")]
    ensures match item.table
      case Objects => true
      case Entities => item == ENTITY
      case EntityCategoryAssignments => item == ASSIGNMENT
      case Unmanaged(name) =>
        name == "entity_categories"
        || (name == "entity_category_names" && (item == CategoryName("person") || item == CategoryName("people")))
      case _ => false
  {
  }

  lemma EntityMatches()
    ensures ENTITY_OBJECT.table == Objects == PurgeDelete.SubtypeKey(Entities).dst && ENTITY.table == Entities
    ensures CATEGORY.table == Unmanaged("entity_categories")
    ensures PurgeDelete.Matches(PurgeDelete.SubtypeKey(Entities), ENTITY.row, ENTITY_OBJECT.row)
    ensures var key := PurgeDelete.Single(Entities, OtherCol("primary_category_id"), Unmanaged("entity_categories"),
                                          IdCol);
      key.dst == CATEGORY.table && PurgeDelete.Matches(key, ENTITY.row, CATEGORY.row)
  {
    assert "object_kind"[0] != "primary_category_id"[0];
  }

  lemma AssignmentMatches()
    ensures var key := PurgeDelete.Single(EntityCategoryAssignments, EntityObjectId, Entities, ObjectId);
      key.dst == ENTITY.table && PurgeDelete.Matches(key, ASSIGNMENT.row, ENTITY.row)
    ensures var key := PurgeDelete.Single(EntityCategoryAssignments, CategoryId, Unmanaged("entity_categories"), IdCol);
      key.dst == CATEGORY.table && PurgeDelete.Matches(key, ASSIGNMENT.row, CATEGORY.row)
  {
    hide CategoryName;
  }

  lemma NameMatches(name: string)
    ensures var key := PurgeDelete.Single(Unmanaged("entity_category_names"), CategoryId,
                                          Unmanaged("entity_categories"), IdCol);
      key.dst == CATEGORY.table && PurgeDelete.Matches(key, CategoryName(name).row, CATEGORY.row)
  {
  }

  /** A key from a table of that database is one of these. */
  predicate EntityKey(fk: ForeignKey) {
    && fk.src != Objects && fk.src != Unmanaged("entity_categories")
    && (fk.src == Entities ==>
          fk == PurgeDelete.SubtypeKey(Entities)
          || fk == PurgeDelete.Single(Entities, OtherCol("primary_category_id"), Unmanaged("entity_categories"), IdCol))
    && (fk.src == EntityCategoryAssignments ==>
          fk == PurgeDelete.Single(EntityCategoryAssignments, EntityObjectId, Entities, ObjectId)
          || fk == PurgeDelete.Single(EntityCategoryAssignments, CategoryId, Unmanaged("entity_categories"), IdCol))
    && (fk.src == Unmanaged("entity_category_names") ==>
          fk == PurgeDelete.Single(Unmanaged("entity_category_names"), CategoryId, Unmanaged("entity_categories"),
                                   IdCol))
  }

  lemma EntityKeys()
    ensures forall fk :: fk in PurgeDelete.LIVE_KEYS ==> EntityKey(fk)
  {
    ObjectEntityKeys();
    SubtypeEntityKeys();
    ElsewhereKeys();
    RetainedEntityKeys();
    hide EntityKey, PurgeDelete.OBJECT_KEYS, PurgeDelete.SUBTYPE_KEYS, PurgeDelete.EVIDENCE_KEYS;
    hide PurgeDelete.EXECUTION_KEYS, PurgeDelete.RETAINED_KEYS;
  }

  lemma ObjectEntityKeys()
    ensures forall fk :: fk in PurgeDelete.OBJECT_KEYS ==> EntityKey(fk)
  {
  }

  lemma SubtypeEntityKeys()
    ensures forall fk :: fk in PurgeDelete.SUBTYPE_KEYS ==> EntityKey(fk)
  {
  }

  lemma ElsewhereKeys()
    ensures forall fk :: fk in PurgeDelete.EVIDENCE_KEYS || fk in PurgeDelete.EXECUTION_KEYS ==> EntityKey(fk)
  {
  }

  lemma RetainedEntityKeys()
    ensures forall fk :: fk in PurgeDelete.RETAINED_KEYS ==> EntityKey(fk)
  {
    assert "entity_categories"[15] != "entity_category_names"[15];
  }

  // ----- the commit -----

  /** The commit previews again on the locked tables, compares with what was approved, and deletes. It goes through
      exactly when the manifest is the approved one and lists no blocker; then the database is intact after every
      table, and every unselected row, seen or not, is left as it was but for the detached Runs. */
  method CommitPurge(database: PurgeDelete.Database, stored: seq<Item>, ghost others: set<Item>,
                     selections: seq<Selection>, plan: Plan, fks: seq<ForeignKey>, reasonOk: string -> bool,
                     rowBefore: (Line, Line) -> bool, lineBefore: (Line, Line) -> bool,
                     blockerBefore: (Blocker, Blocker) -> bool, approved: Preview)
    returns (ok: bool, chosen: Option<Selected>, ghost stages: seq<set<Item>>)
    requires Stored(stored, others) && database.rows == RowSet(stored) + others
    requires forall d :: d in plan.deletes ==> d.ref.table == Embeddings
    requires PurgeDelete.Intact(database.rows, set fk | fk in fks)
    requires forall fk :: fk in fks ==> PurgeDelete.Follows(fk) && InView(fk)
    modifies database
    ensures chosen.Some? <==> Roots(SeenRows(stored), selections + plan.deletes, |selections|, reasonOk).Some?
    ensures chosen.Some? ==> Previewed(SeenRows(stored), selections, plan, reasonOk, chosen.value)
    ensures ok <==>
      (chosen.Some? && approved.blockers == []
       && Render(SeenRows(stored), chosen.value, plan, fks, rowBefore, lineBefore, blockerBefore) == approved)
    ensures !ok ==> database.rows == old(database.rows)
    ensures ok ==> |stages| == |DELETE_ORDER| + 1 && stages[|DELETE_ORDER|] == database.rows
    ensures ok ==> forall k :: 0 <= k < |stages| ==> PurgeDelete.Intact(stages[k], set fk | fk in fks)
    ensures ok ==>
        database.rows == PurgeDelete.Left(old(database.rows), chosen.value.Keys, PurgeDelete.RunSet(plan.detached))
  {
    hide *;
    ok, stages := false, [];
    var preview;
    chosen, preview := BuildPreview(SeenRows(stored), selections, plan, fks, reasonOk, rowBefore, lineBefore,
                                    blockerBefore);
    if chosen.None? || preview.value != approved || approved.blockers != [] { return; }
    UnblockedIsApproved(stored, others, selections, plan, fks, reasonOk, chosen.value, rowBefore, lineBefore,
                        blockerBefore);
    ok, stages := database.Execute(chosen.value.Keys, plan.detached, set fk | fk in fks);
  }

  lemma SeenKeepsRef(item: Item)
    ensures RefOf(Seen(item)) == RefOf(item) && Seen(item).table == item.table
  {
    var seen := Seen(item);
    assert forall c :: c in KeyColumns(item.table) ==> Col(seen.row, c) == Col(item.row, c);
    assert KeyOf(seen.table, seen.row) == KeyOf(item.table, item.row);
  }

  lemma StoredPresent(stored: seq<Item>, others: set<Item>, refs: set<Ref>)
    requires forall ref :: ref in refs ==> exists item :: item in RowSet(SeenRows(stored)) && RefOf(item) == ref
    ensures forall ref :: ref in refs ==> exists item :: item in RowSet(stored) + others && RefOf(item) == ref
  {
    hide RefOf, Seen;
    forall ref | ref in refs ensures exists item :: item in RowSet(stored) + others && RefOf(item) == ref {
      var seen :| seen in RowSet(SeenRows(stored)) && RefOf(seen) == ref;
      var k :| 0 <= k < |stored| && SeenRows(stored)[k] == seen;
      SeenKeepsRef(stored[k]);
      assert stored[k] in RowSet(stored) + others;
    }
  }

  lemma OthersUnselected(others: set<Item>, refs: set<Ref>, o: Item)
    requires o in others && !Managed(o.table) && PurgeDelete.Purgeable(refs)
    ensures RefOf(o) !in refs
  {
    PurgeDelete.NeverDeleted(o.table);
    hide PurgeDelete.Turn, DELETE_ORDER;
    assert RefOf(o).table == o.table;
  }

  lemma DistinctRows(stored: seq<Item>, others: set<Item>, refs: set<Ref>)
    requires Stored(stored, others) && PurgeDelete.Purgeable(refs)
    ensures PurgeDelete.Distinct(RowSet(stored) + others, refs)
  {
    hide RefOf, PurgeDelete.Purgeable;
    forall o | o in others ensures RefOf(o) !in refs { OthersUnselected(others, refs, o); }
  }

  /** What the preview does not see blocks nothing more: rows of unmanaged tables, and columns of no such key. */
  lemma UnseenAddNone(stored: seq<Item>, others: set<Item>, refs: set<Ref>, detached: set<Json>, fk: ForeignKey)
    requires Stored(stored, others) && PurgeDelete.Purgeable(refs) && InView(fk)
    requires !PurgeDelete.Blocked(RowSet(SeenRows(stored)), refs, detached, fk)
    ensures !PurgeDelete.Blocked(RowSet(stored) + others, refs, detached, fk)
  {
    hide RefOf, PurgeDelete.Purgeable, PurgeDelete.Matches, PurgeDelete.Projected, Seen, InView;
    forall d | d in RowSet(stored) + others && d.table == fk.dst && RefOf(d) in refs
      ensures d in RowSet(SeenRows(stored)) && PurgeDelete.Turn(fk.dst) < |DELETE_ORDER|
    {
      SelectedIsSeen(stored, others, refs, d);
    }
    forall d, o | d in RowSet(stored) + others && d.table == fk.dst && RefOf(d) in refs && Managed(fk.src)
        && o in RowSet(stored) + others && o.table == fk.src && RefOf(o) !in refs
      ensures !PurgeDelete.Matches(fk, PurgeDelete.Projected(o, detached).row, d.row)
    {
      var k :| 0 <= k < |stored| && stored[k] == o;
      SeenKeepsRef(o);
      SeenMatches(fk, o, d, detached);
      assert SeenRows(stored)[k] == Seen(o) && Seen(o) in RowSet(SeenRows(stored));
    }
  }

  lemma SelectedIsSeen(stored: seq<Item>, others: set<Item>, refs: set<Ref>, d: Item)
    requires Stored(stored, others) && PurgeDelete.Purgeable(refs)
    requires d in RowSet(stored) + others && RefOf(d) in refs
    ensures d in RowSet(SeenRows(stored)) && PurgeDelete.Turn(d.table) < |DELETE_ORDER|
  {
    assert RefOf(d).table == d.table;
    hide RefOf, DELETE_ORDER, PurgeDelete.Turn;
    if d in others { OthersUnselected(others, refs, d); }
    if KeyOnly(d.table) { PurgeDelete.NeverDeleted(d.table); }
    var k :| 0 <= k < |stored| && stored[k] == d;
    assert SeenRows(stored)[k] == d;
  }

  lemma SeenMatches(fk: ForeignKey, o: Item, d: Item, detached: set<Json>)
    requires InView(fk) && o.table == fk.src && PurgeDelete.Turn(fk.dst) < |DELETE_ORDER|
    ensures PurgeDelete.Matches(fk, PurgeDelete.Projected(Seen(o), detached).row, d.row)
         == PurgeDelete.Matches(fk, PurgeDelete.Projected(o, detached).row, d.row)
  {
    hide PurgeDelete.Turn, DELETE_ORDER;
    if KeyOnly(o.table) {
      assert forall i :: 0 <= i < |fk.sc| ==> fk.sc[i] in fk.sc && Col(Seen(o).row, fk.sc[i]) == Col(o.row, fk.sc[i]);
    }
  }

  lemma SeenHistory(stored: seq<Item>, refs: set<Ref>)
    requires forall item :: item in SeenRows(stored) ==> !ErasesHistory(refs, item)
    ensures forall item :: item in stored ==> !ErasesHistory(refs, item)
  {
    hide RefOf;
    forall item | item in stored ensures !ErasesHistory(refs, item) {
      var k :| 0 <= k < |stored| && stored[k] == item;
      assert SeenRows(stored)[k] in SeenRows(stored);
    }
  }

  lemma RenderedBlockers(items: seq<Item>, chosen: Selected, plan: Plan, fks: seq<ForeignKey>,
                         rowBefore: (Line, Line) -> bool, lineBefore: (Line, Line) -> bool,
                         blockerBefore: (Blocker, Blocker) -> bool)
    requires Render(items, chosen, plan, fks, rowBefore, lineBefore, blockerBefore).blockers == []
    ensures Blockers(items, chosen.Keys, SelectedIds(items, chosen.Keys), plan, fks) == []
  {
    hide Blockers, Listing, ManifestRows, Mentioned, Exported, Counts;
    NothingListed(Blockers(items, chosen.Keys, SelectedIds(items, chosen.Keys), plan, fks), blockerBefore);
  }

  lemma EmptyBlockers(items: seq<Item>, refs: set<Ref>, ids: set<string>, plan: Plan, fks: seq<ForeignKey>)
    requires Blockers(items, refs, ids, plan, fks) == []
    ensures forall fk :: fk in fks ==> !PurgeDelete.Blocked(RowSet(items), refs, PurgeDelete.RunSet(plan.detached), fk)
    ensures forall item :: item in items ==> !ErasesHistory(refs, item)
  {
    hide RefOf, PurgeDelete.Blocked, FkBlockers, AllFkBlockers, AllRowBlockers, ProofBlockers;
    var detached := PurgeDelete.RunSet(plan.detached);
    NoKeyBlocked(items, refs, detached, fks);
    NoRowBlocked(refs, ids, items);
    forall fk | fk in fks ensures !PurgeDelete.Blocked(RowSet(items), refs, detached, fk) {
      UnblockedKey(items, refs, detached, fk);
    }
    assert forall item :: item in items ==> RowBlockers(refs, ids, item) == [];
  }

  lemma SelectionPresent(items: seq<Item>, selections: seq<Selection>, plan: Plan, reasonOk: string -> bool,
                         chosen: Selected)
    requires Previewed(items, selections, plan, reasonOk, chosen)
    requires forall d :: d in plan.deletes ==> d.ref.table == Embeddings
    ensures forall ref :: ref in chosen.Keys ==> exists item :: item in RowSet(items) && RefOf(item) == ref
    ensures PurgeDelete.Purgeable(chosen.Keys)
  {
    hide RefOf, Previewed, PurgeDelete.Turn;
    forall ref | ref in chosen.Keys
      ensures (exists item :: item in RowSet(items) && RefOf(item) == ref)
          && PurgeDelete.Turn(ref.table) < |DELETE_ORDER|
    {
      SelectedRefs(items, selections, plan, reasonOk, chosen, ref);
    }
  }

  lemma ApprovedParts(rows: set<Item>, refs: set<Ref>, detached: set<Json>, fks: seq<ForeignKey>)
    requires PurgeDelete.Distinct(rows, refs)
    requires forall ref :: ref in refs ==> exists item :: item in rows && RefOf(item) == ref
    requires PurgeDelete.Purgeable(refs) && PurgeDelete.Intact(rows, set fk | fk in fks)
    requires forall fk :: fk in fks ==> PurgeDelete.Follows(fk) && !PurgeDelete.Blocked(rows, refs, detached, fk)
    ensures PurgeDelete.Approved(rows, refs, detached, set fk | fk in fks)
  {
    hide RefOf, PurgeDelete.Distinct, PurgeDelete.Purgeable, PurgeDelete.Intact, PurgeDelete.Follows,
        PurgeDelete.Blocked;
  }

  lemma NothingListed<T(!new)>(s: seq<T>, lt: (T, T) -> bool)
    requires Listing(s, lt) == []
    ensures s == []
  {
  }

  // ----- what the blockers mean -----

  predicate NaiveMention(row: Row, ids: set<string>) {
    exists c :: c in row && Mentions(row[c], ids)
  }

  /** One row stands in nobody's way. */
  predicate Harmless(refs: set<Ref>, ids: set<string>, item: Item) {
    && !(item.table == EvidenceCorrections && SelectedId(refs, CorrectionTarget(item.row), Col(item.row, TargetId)))
    && !ErasesHistory(refs, item)
    && (item.table == Chats && RefOf(item) !in refs ==>
          !SelectedId(refs, ChatMessages, Col(item.row, QueuedThrough))
              && !SelectedId(refs, ChatMessages, Col(item.row, CuratedThrough)))
    && (NaiveMention(item.row, ids) ==>
          !(item.table == TaskRoutineRuns && Col(item.row, Status) in {Str("pending"), Str("running")})
          && !(item.table == Runs && !Terminal(item.row)))
  }

  lemma HarmlessRow(refs: set<Ref>, ids: set<string>, item: Item)
    requires forall id :: id in ids ==> UuidText(id)
    ensures RowBlockers(refs, ids, item) == [] <==> Harmless(refs, ids, item)
  {
    hide Mentions, ContainsId, ErasesHistory, SelectedId, RefOf, KeyOf, Terminal, CorrectionTarget;
    forall c | c in item.row ensures ContainsId(item.row[c], ids) <==> Mentions(item.row[c], ids) {
      ScanIsSubstringTest(item.row[c], ids);
    }
    assert RowMentions(item.row, ids) == NaiveMention(item.row, ids);
  }

  lemma {:induction false} NoProofBlocked(refs: set<Ref>, proofs: seq<Proof>)
    ensures ProofBlockers(refs, proofs) == [] <==> forall p :: p in proofs ==> !(p.mustRetain && p.ref in refs)
  {
    if proofs == [] {
    } else {
      NoProofBlocked(refs, proofs[..|proofs| - 1]);
      assert forall p :: p in proofs <==> p in proofs[..|proofs| - 1] || p == proofs[|proofs| - 1];
    }
  }

  lemma {:induction false} NoKeyBlocked(items: seq<Item>, refs: set<Ref>, detached: set<Json>, fks: seq<ForeignKey>)
    ensures AllFkBlockers(items, refs, detached, fks) == [] <==>
        forall fk :: fk in fks ==> FkBlockers(items, refs, detached, fk) == []
  {
    hide FkBlockers;
    if fks == [] {
    } else {
      NoKeyBlocked(items, refs, detached, fks[..|fks| - 1]);
      assert forall fk :: fk in fks <==> fk in fks[..|fks| - 1] || fk == fks[|fks| - 1];
    }
  }

  lemma {:induction false} NoRowBlocked(refs: set<Ref>, ids: set<string>, items: seq<Item>)
    ensures AllRowBlockers(refs, ids, items) == [] <==>
        forall item :: item in items ==> RowBlockers(refs, ids, item) == []
  {
    hide RowBlockers;
    if items == [] {
    } else {
      NoRowBlocked(refs, ids, items[..|items| - 1]);
      assert forall item :: item in items <==> item in items[..|items| - 1] || item == items[|items| - 1];
    }
  }

  /** Main theorem: the blocker list is empty exactly when no proof to be retained is selected, no foreign key of a
      retained row would be cut, and every row is harmless, mentions being told by plain substring search. */
  lemma BlockersExact(items: seq<Item>, chosen: Selected, plan: Plan, fks: seq<ForeignKey>,
                      rowBefore: (Line, Line) -> bool, lineBefore: (Line, Line) -> bool,
                          blockerBefore: (Blocker, Blocker) -> bool)
    requires forall id :: id in SelectedIds(items, chosen.Keys) ==> UuidText(id)
    ensures Render(items, chosen, plan, fks, rowBefore, lineBefore, blockerBefore).blockers == [] <==>
            && (forall p :: p in plan.proofs ==> !(p.mustRetain && p.ref in chosen.Keys))
            && (forall fk :: fk in fks ==>
                !PurgeDelete.Blocked(RowSet(items), chosen.Keys, PurgeDelete.RunSet(plan.detached), fk))
            && (forall item :: item in items ==> Harmless(chosen.Keys, SelectedIds(items, chosen.Keys), item))
  {
    hide RowBlockers, FkBlockers, AllFkBlockers, AllRowBlockers, ProofBlockers, Harmless, PurgeDelete.Blocked, Listing;
    hide ManifestRows, Mentioned, Exported, Counts, SelectedIds, UuidText;
    var refs, detached := chosen.Keys, PurgeDelete.RunSet(plan.detached);
    var ids := SelectedIds(items, refs);
    NoProofBlocked(refs, plan.proofs);
    NoKeyBlocked(items, refs, detached, fks);
    forall fk | fk in fks
      ensures FkBlockers(items, refs, detached, fk) == [] <==> !PurgeDelete.Blocked(RowSet(items), refs, detached, fk)
    {
      UnblockedKey(items, refs, detached, fk);
    }
    NoRowBlocked(refs, ids, items);
    forall item ensures RowBlockers(refs, ids, item) == [] <==> Harmless(refs, ids, item) {
      HarmlessRow(refs, ids, item);
    }
    var all := Blockers(items, refs, ids, plan, fks);
    if Listing(all, blockerBefore) == [] { NothingListed(all, blockerBefore); }
    EmptyListing(blockerBefore);
  }

  lemma EmptyListing<T(!new)>(lt: (T, T) -> bool)
    ensures Listing([], lt) == []
  {
  }
}
