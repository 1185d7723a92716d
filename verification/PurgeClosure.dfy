/** The purge selection: grown in place over the ownership rules until nothing is added.
    It is the least set that contains the selections and is closed under those rules. */
module PurgeClosure {
  import opened PurgeModel

  // ----- the ownership rules -----

  /** The rows that own `item`: selecting any of them selects it. */
  function Owners(item: Item): set<Ref> {
    var row := item.row;
    match item.table
    case EntityCategoryAssignments => Named(Objects, Col(row, EntityObjectId))
    case TaskRoutines => Named(Objects, Col(row, TaskId))
    case TaskRoutineRuns => Named(Objects, Col(row, TaskId))
    case Connections => Named(Objects, Col(row, SourceObjectId)) + Named(Objects, Col(row, TargetObjectId))
    case Artifacts => Named(Objects, Col(row, ObjectId))
    case Embeddings => Named(Objects, Col(row, ObjectId)) + Named(Artifacts, Col(row, ArtifactId))
    case ObjectEvents => Named(EventTarget(row), Col(row, TargetId))
    case ChatMessages => Named(Objects, Col(row, ChatObjectId))
    case ContextApplyRequests => Named(Runs, Col(row, RunId))
    case t => if Subtype(t) then Named(Objects, Col(row, ObjectId)) else {}
  }

  function EventTarget(row: Row): Table {
    if Col(row, TargetType) == Str("object") then Objects else Connections
  }

  /** A null id owns nothing. */
  function Named(table: Table, id: Json): set<Ref> {
    if id == Null then {} else {IdRef(table, id)}
  }

  /** Why a row is removed: as requested, or because of the one ownership rule of its table. */
  datatype Reason = Requested(text: string) | OwnedRow(table: Table)

  predicate Owned(refs: set<Ref>, item: Item) {
    exists o :: o in Owners(item) && o in refs
  }

  // ----- least closed set -----

  ghost predicate Closed(items: seq<Item>, refs: set<Ref>) {
    forall item :: item in items && Owned(refs, item) ==> RefOf(item) in refs
  }

  /** `path` leads from a selection to its last row, each row owned by the one before it. */
  ghost predicate OwnershipPath(items: seq<Item>, roots: set<Ref>, path: seq<Ref>) {
    && |path| > 0 && path[0] in roots
    && forall i :: 0 < i < |path| ==> OwnedBy(items, path[i - 1], path[i])
  }

  ghost predicate OwnedBy(items: seq<Item>, owner: Ref, ref: Ref) {
    exists item :: item in items && RefOf(item) == ref && owner in Owners(item)
  }

  ghost predicate HasPath(items: seq<Item>, roots: set<Ref>, ref: Ref) {
    exists path :: OwnershipPath(items, roots, path) && path[|path| - 1] == ref
  }

  lemma PathStep(items: seq<Item>, roots: set<Ref>, owner: Ref, ref: Ref)
    requires HasPath(items, roots, owner) && OwnedBy(items, owner, ref)
    ensures HasPath(items, roots, ref)
  {
    var path :| OwnershipPath(items, roots, path) && path[|path| - 1] == owner;
    var longer := path + [ref];
    forall i | 0 < i < |longer| ensures OwnedBy(items, longer[i - 1], longer[i]) {
      if i < |path| { assert longer[i - 1] == path[i - 1] && longer[i] == path[i]; }
    }
    assert OwnershipPath(items, roots, longer) && longer[|longer| - 1] == ref;
  }

  /** A row on an ownership path is in every closed set that holds the selections. */
  lemma {:induction false} PathsAreForced(items: seq<Item>, roots: set<Ref>, refs: set<Ref>, path: seq<Ref>, k: nat)
    requires OwnershipPath(items, roots, path) && k < |path|
    requires roots <= refs && Closed(items, refs)
    ensures path[k] in refs
  {
    if k == 0 {
    } else {
      PathsAreForced(items, roots, refs, path, k - 1);
      assert OwnedBy(items, path[k - 1], path[k]);
    }
  }

  ghost predicate IsClosure(items: seq<Item>, roots: set<Ref>, refs: set<Ref>) {
    && roots <= refs && Closed(items, refs)
    && forall ref :: ref in refs ==> HasPath(items, roots, ref)
  }

  /** Rows reached by ownership paths are exactly the least closed set. */
  lemma ClosureIsLeast(items: seq<Item>, roots: set<Ref>, refs: set<Ref>, other: set<Ref>)
    requires IsClosure(items, roots, refs) && roots <= other && Closed(items, other)
    ensures refs <= other
  {
    forall ref | ref in refs ensures ref in other {
      assert HasPath(items, roots, ref);
      var path :| OwnershipPath(items, roots, path) && path[|path| - 1] == ref;
      PathsAreForced(items, roots, other, path, |path| - 1);
    }
  }

  /** The closure depends only on which rows there are, not on their order or repetition. */
  lemma ClosureIgnoresOrder(items: seq<Item>, items': seq<Item>, roots: set<Ref>, refs: set<Ref>, refs': set<Ref>)
    requires forall item :: item in items <==> item in items'
    requires IsClosure(items, roots, refs) && IsClosure(items', roots, refs')
    ensures refs == refs'
  {
    assert Closed(items', refs) && Closed(items, refs');
    ClosureIsLeast(items, roots, refs, refs');
    ClosureIsLeast(items', roots, refs', refs);
  }

  lemma OwnedTables(items: seq<Item>, roots: set<Ref>, path: seq<Ref>, k: nat)
    requires OwnershipPath(items, roots, path) && k < |path|
    ensures path[k] in roots || (path[k].table != Objects && path[k].table != Runs)
  {
    if k > 0 { assert OwnedBy(items, path[k - 1], path[k]); }
  }

  /** Ownership never reaches an Object or a Run: those are deleted only when selected. */
  lemma ObjectsAndRunsAreSelected(items: seq<Item>, roots: set<Ref>, refs: set<Ref>, ref: Ref)
    requires IsClosure(items, roots, refs) && ref in refs && (ref.table == Objects || ref.table == Runs)
    ensures ref in roots
  {
    assert HasPath(items, roots, ref);
    hide IsClosure, OwnedBy;
    var path :| OwnershipPath(items, roots, path) && path[|path| - 1] == ref;
    OwnedTables(items, roots, path, |path| - 1);
  }

  // ----- the loop -----

  type Selected = map<Ref, Reason>

  /** Refs of owned rows not yet selected: what the loop has left to add. */
  ghost function Missing(items: seq<Item>, chosen: Selected): set<Ref> {
    (set item | item in items :: RefOf(item)) - chosen.Keys
  }

  /** Every selected row is on an ownership path and carries the right reason. */
  ghost predicate Grown(items: seq<Item>, roots: Selected, chosen: Selected) {
    && roots.Keys <= chosen.Keys
    && (forall ref :: ref in chosen ==> HasPath(items, roots.Keys, ref))
    && RightReasons(roots, chosen)
  }

  lemma AddOwned(items: seq<Item>, roots: Selected, chosen: Selected, item: Item)
    requires Grown(items, roots, chosen) && item in items && Owned(chosen.Keys, item) && RefOf(item) !in chosen
    ensures Grown(items, roots, chosen[RefOf(item) := OwnedRow(item.table)])
    ensures Missing(items, chosen[RefOf(item) := OwnedRow(item.table)]) < Missing(items, chosen)
  {
    hide OwnershipPath;
    var owner :| owner in Owners(item) && owner in chosen.Keys;
    assert OwnedBy(items, owner, RefOf(item));
    PathStep(items, roots.Keys, owner, RefOf(item));
    assert RefOf(item) in Missing(items, chosen);
    assert Missing(items, chosen[RefOf(item) := OwnedRow(item.table)]) == Missing(items, chosen) - {RefOf(item)};
  }

  /** One pass over all rows; `added` says whether the selection grew. */
  method Pass(items: seq<Item>, roots: Selected, start: Selected) returns (chosen: Selected, added: bool)
    requires Grown(items, roots, start)
    ensures Grown(items, roots, chosen) && start.Keys <= chosen.Keys
    ensures added ==> Missing(items, chosen) < Missing(items, start)
    ensures !added ==> chosen == start && Closed(items, chosen.Keys)
  {
    hide HasPath, Owners;
    chosen, added := start, false;
    for i := 0 to |items|
      invariant Grown(items, roots, chosen) && start.Keys <= chosen.Keys
      invariant added ==> Missing(items, chosen) < Missing(items, start)
      invariant !added ==> chosen == start && forall k :: 0 <= k < i && Owned(start.Keys, items[k]) ==>
          RefOf(items[k]) in start.Keys
    {
      if Owned(chosen.Keys, items[i]) && RefOf(items[i]) !in chosen {
        AddOwned(items, roots, chosen, items[i]);
        chosen, added := chosen[RefOf(items[i]) := OwnedRow(items[i].table)], true;
      }
    }
  }

  /** Grows the selections to a fixpoint. It terminates in the least closed set; a selection keeps its
      own reason and an owned row gets the reason of its table. */
  method Close(items: seq<Item>, roots: Selected) returns (chosen: Selected)
    ensures IsClosure(items, roots.Keys, chosen.Keys)
    ensures RightReasons(roots, chosen)
  {
    chosen := roots;
    forall ref | ref in roots ensures HasPath(items, roots.Keys, ref) {
      assert OwnershipPath(items, roots.Keys, [ref]);
    }
    var added := true;
    while added
      invariant Grown(items, roots, chosen)
      invariant !added ==> Closed(items, chosen.Keys)
      decreases Missing(items, chosen), added
    {
      chosen, added := Pass(items, roots, chosen);
    }
  }

  ghost predicate RightReasons(roots: Selected, chosen: Selected) {
    forall ref :: ref in chosen ==> chosen[ref] == if ref in roots then roots[ref] else OwnedRow(ref.table)
  }

  lemma ReasonsAgree(roots: Selected, chosen: Selected, chosen': Selected)
    requires chosen.Keys == chosen'.Keys && RightReasons(roots, chosen) && RightReasons(roots, chosen')
    ensures chosen == chosen'
  {
  }

  /** The whole selection is a function of the set of rows: two permuted snapshots give equal maps. */
  lemma SelectionIgnoresOrder(items: seq<Item>, items': seq<Item>, roots: Selected, chosen: Selected, chosen': Selected)
    requires forall item :: item in items <==> item in items'
    requires IsClosure(items, roots.Keys, chosen.Keys) && IsClosure(items', roots.Keys, chosen'.Keys)
    requires RightReasons(roots, chosen) && RightReasons(roots, chosen')
    ensures chosen == chosen'
  {
    ClosureIgnoresOrder(items, items', roots.Keys, chosen.Keys, chosen'.Keys);
    ReasonsAgree(roots, chosen, chosen');
  }

  // ----- retained history -----

  /** An event is deleted although its target stays. */
  predicate ErasesHistory(refs: set<Ref>, item: Item) {
    && item.table == ObjectEvents && RefOf(item) in refs
    && (Col(item.row, TargetId) == Null || IdRef(EventTarget(item.row), Col(item.row, TargetId)) !in refs)
  }

  /** Without a history blocker, an event is deleted exactly when its target is. */
  lemma EventFollowsTarget(items: seq<Item>, roots: set<Ref>, refs: set<Ref>, event: Item)
    requires IsClosure(items, roots, refs)
    requires forall item :: item in items ==> !ErasesHistory(refs, item)
    requires event in items && event.table == ObjectEvents
    ensures RefOf(event) in refs <==>
            Col(event.row, TargetId) != Null && IdRef(EventTarget(event.row), Col(event.row, TargetId)) in refs
  {
  }

  // ----- descendants of a run -----

  /** `path` leads from `root` down parent links, each a run naming the one before it as parent. */
  ghost predicate ParentPath(runs: seq<(string, Json)>, root: string, path: seq<string>) {
    && |path| > 0 && path[0] == root
    && forall i :: 0 < i < |path| ==> (path[i], Str(path[i - 1])) in runs
  }

  ghost predicate Descends(runs: seq<(string, Json)>, root: string, id: string) {
    exists path :: ParentPath(runs, root, path) && path[|path| - 1] == id
  }

  lemma DescendsStep(runs: seq<(string, Json)>, root: string, parent: string, id: string)
    requires Descends(runs, root, parent) && (id, Str(parent)) in runs
    ensures Descends(runs, root, id)
  {
    var path :| ParentPath(runs, root, path) && path[|path| - 1] == parent;
    var longer := path + [id];
    forall i | 0 < i < |longer| ensures (longer[i], Str(longer[i - 1])) in runs {
      if i < |path| { assert longer[i - 1] == path[i - 1] && longer[i] == path[i]; }
    }
    assert ParentPath(runs, root, longer) && longer[|longer| - 1] == id;
  }

  lemma {:induction false} DescendantsForced(runs: seq<(string, Json)>, root: string, found: set<string>,
                                             path: seq<string>, k: nat)
    requires ParentPath(runs, root, path) && k < |path| && root in found
    requires forall r :: r in runs && r.1.Str? && r.1.s in found ==> r.0 in found
    ensures path[k] in found
  {
    if k == 0 {
    } else {
      DescendantsForced(runs, root, found, path, k - 1);
    }
  }

  /** The loop of a cancellation: the runs reachable from it by parent links, and no others.
      A run is given as its id and its parent_run_id. */
  method Descendants(runs: seq<(string, Json)>, root: string) returns (found: set<string>)
    ensures forall id :: id in found <==> Descends(runs, root, id)
  {
    found := {root};
    assert ParentPath(runs, root, [root]);
    ghost var ids := set r | r in runs :: r.0;
    var grew := true;
    while grew
      invariant root in found && forall id :: id in found ==> Descends(runs, root, id)
      invariant !grew ==> forall r :: r in runs && r.1.Str? && r.1.s in found ==> r.0 in found
      decreases ids - found, grew
    {
      var before := found;
      for i := 0 to |runs|
        invariant before <= found && forall id :: id in found ==> Descends(runs, root, id)
        invariant found != before ==> ids - found < ids - before
        invariant found == before ==> forall k :: 0 <= k < i && runs[k].1.Str? && runs[k].1.s in found ==>
            runs[k].0 in found
      {
        if runs[i].1.Str? && runs[i].1.s in found {
          DescendsStep(runs, root, runs[i].1.s, runs[i].0);
          assert runs[i].0 in ids;
          found := found + {runs[i].0};
        }
      }
      grew := found != before;
    }
    forall id | Descends(runs, root, id) ensures id in found {
      var path :| ParentPath(runs, root, path) && path[|path| - 1] == id;
      DescendantsForced(runs, root, found, path, |path| - 1);
    }
  }
}
