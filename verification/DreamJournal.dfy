/** The journal of a maintenance run as a chain of single-row changes, its
    backwards replay, and the theorem that says exactly when the replay succeeds
    and what it restores. */
module DreamJournal {
  import opened Wrappers
  import opened MemoryGraph

  // ----- what one journal entry records -----

  /** h is g with one Memory edited: identity fields kept, revision raised by one, and
      archived only when no active connection touches it. */
  ghost predicate ObjectStep(g: Graph, id: Id, was: ObjectRow, toRevision: int, h: Graph) {
    && id in g.objects && g.objects[id] == was && was.kind == "memory" && !was.archived
    && id in h.objects && h == g.(objects := g.objects[id := h.objects[id]])
    && h.objects[id].revision == was.revision + 1 == toRevision
    && h.objects[id] == was.(title := h.objects[id].title, description := h.objects[id].description,
                             provenance := h.objects[id].provenance, archived := h.objects[id].archived,
                             revision := toRevision, updatedByType := System, updatedBy := DREAM_ACTOR)
    && (h.objects[id].archived ==> forall c :: ActiveEdge(g, c) ==> !Touches(g.connections[c], id))
  }

  /** h is g with one new active connection between two live, distinct, not yet linked Objects. */
  ghost predicate EdgeAdded(g: Graph, id: Id, toRevision: int, h: Graph) {
    && id !in g.connections && id in h.connections
    && h == g.(connections := g.connections[id := h.connections[id]])
    && h.connections[id].revision == 1 == toRevision && !h.connections[id].archived
    && EndsLive(g, h.connections[id])
    && !Linked(g, h.connections[id].source, h.connections[id].kind, h.connections[id].target)
  }

  /** h is g with one active connection archived or redescribed. */
  ghost predicate EdgeStep(g: Graph, id: Id, was: ConnRow, toRevision: int, h: Graph) {
    && id in g.connections && g.connections[id] == was && !was.archived
    && id in h.connections
    && h == g.(connections := g.connections[id := h.connections[id]])
    && h.connections[id].revision == was.revision + 1 == toRevision
    && h.connections[id] == was.(description := h.connections[id].description, archived := h.connections[id].archived,
                                 revision := toRevision, updatedByType := System, updatedBy := DREAM_ACTOR)
  }

  ghost predicate Step(g: Graph, e: Entry, h: Graph) {
    match e
    case ObjectEntry(_, _, id, was, rev) => was.Some? && ObjectStep(g, id, was.value, rev, h)
    case ConnEntry(_, _, id, None, rev) => EdgeAdded(g, id, rev, h)
    case ConnEntry(_, _, id, Some(was), rev) => EdgeStep(g, id, was, rev, h)
  }

  /** states[i] is the graph before entry i; the last one is the graph after all of them. */
  ghost predicate Trace(states: seq<Graph>, journal: seq<Entry>) {
    && |states| == |journal| + 1
    && forall i :: 0 <= i < |journal| ==> Step(states[i], journal[i], states[i + 1])
  }

  predicate SameTarget(a: Entry, b: Entry) {
    a.ObjectEntry? == b.ObjectEntry? && a.id == b.id
  }

  /** Every Object and connection is journaled at most once. */
  ghost predicate DistinctTargets(journal: seq<Entry>) {
    forall i, j :: 0 <= i < j < |journal| ==> !SameTarget(journal[i], journal[j])
  }

  // ----- the backwards replay -----

  /** An active connection other than id has the triple of `row`. */
  predicate Clash(g: Graph, id: Id, row: ConnRow) {
    exists c :: c in g.connections && !g.connections[c].archived && c != id && SameTriple(g.connections[c], row)
  }

  /** One step of recovery: None is a conflict that aborts the whole recovery. */
  function UndoEntry(g: Graph, e: Entry): Option<Graph> {
    match e
    case ObjectEntry(_, _, id, was, rev) =>
      if id !in g.objects || g.objects[id].revision != rev then None
      else
        var current := g.objects[id];
        if current.kind != "memory" && current.kind != "event" then None
        else if was.None? then
          if ActiveEdgesOf(g, id) != {} then None
          else Some(g.(objects := g.objects[id := current.(archived := true, revision := rev + 1,
                                                          updatedByType := System, updatedBy := DREAM_ACTOR)]))
        else
          var b := was.value;
          Some(g.(objects := g.objects[id := current.(title := b.title, description := b.description,
                                                      provenance := b.provenance, archived := b.archived,
                                                      revision := rev + 1,
                                                      updatedByType := System, updatedBy := DREAM_ACTOR)]))
    case ConnEntry(_, _, id, was, rev) =>
      if id !in g.connections || g.connections[id].revision != rev then None
      else
        var current := g.connections[id];
        var back := current.(revision := rev + 1, updatedByType := System, updatedBy := DREAM_ACTOR);
        if was.None? then Some(g.(connections := g.connections[id := back.(archived := true)]))
        else
          var restored := back.(description := was.value.description, kind := was.value.kind,
                                archived := was.value.archived);
          if !restored.archived && (!EndsLive(g, current) || Clash(g, id, restored)) then None
          else Some(g.(connections := g.connections[id := restored]))
  }

  /** Replays the entries of one run from the last to the first. */
  function UndoAll(g: Graph, journal: seq<Entry>): Option<Graph>
    decreases |journal|
  {
    if journal == [] then Some(g)
    else
      match UndoEntry(g, journal[|journal| - 1])
      case None => None
      case Some(h) => UndoAll(h, journal[..|journal| - 1])
  }

  // ----- what a recovery owes -----

  /** Equal in everything recovery promises: only the revision and the last writer may differ. */
  predicate SameObject(a: ObjectRow, b: ObjectRow) {
    a == b.(revision := a.revision, updatedByType := a.updatedByType, updatedBy := a.updatedBy)
  }

  predicate SameEdge(a: ConnRow, b: ConnRow) {
    a == b.(revision := a.revision, updatedByType := a.updatedByType, updatedBy := a.updatedBy)
  }

  /** Every Object and connection of g is back as it was, and whatever g lacked is archived. */
  ghost predicate Restored(g: Graph, h: Graph) {
    && h.objects.Keys == g.objects.Keys
    && (forall id :: id in g.objects ==> SameObject(h.objects[id], g.objects[id]))
    && g.connections.Keys <= h.connections.Keys
    && (forall c :: c in g.connections ==> SameEdge(h.connections[c], g.connections[c]))
    && (forall c :: c in h.connections && c !in g.connections ==> h.connections[c].archived)
  }

  /** The active connections, with their identity, ends, kind and description. */
  ghost function ActiveView(g: Graph): set<(Id, Id, string, Id, string)> {
    set c | c in g.connections && !g.connections[c].archived ::
      (c, g.connections[c].source, g.connections[c].kind, g.connections[c].target, g.connections[c].description)
  }

  lemma RestoredActiveView(g: Graph, h: Graph)
    requires Restored(g, h)
    ensures ActiveView(h) == ActiveView(g)
  {
  }

  // ----- the state of a half finished recovery -----

  ghost predicate TouchesObject(journal: seq<Entry>, from: nat, id: Id) {
    exists i :: from <= i < |journal| && journal[i].ObjectEntry? && journal[i].id == id
  }

  ghost predicate TouchesConn(journal: seq<Entry>, from: nat, id: Id) {
    exists i :: from <= i < |journal| && journal[i].ConnEntry? && journal[i].id == id
  }

  /** u is the graph once entries k.. are undone: rows those entries touched are back up to
      revision and writer (or archived, if they did not exist at states[k]); all others are exactly states[k]. */
  ghost predicate Halfway(states: seq<Graph>, journal: seq<Entry>, k: nat, u: Graph)
    requires k < |states|
  {
    && Restored(states[k], u)
    && (forall id :: id in u.objects && !TouchesObject(journal, k, id) ==> u.objects[id] == states[k].objects[id])
    && (forall c :: c in u.connections && !TouchesConn(journal, k, c) ==>
        c in states[k].connections && u.connections[c] == states[k].connections[c])
  }

  /** The endpoint condition at entry k: a connection it changed had two live ends. */
  predicate EndsHeld(g: Graph, e: Entry) {
    e.ConnEntry? && e.wasEdge.Some? ==> EndsLive(g, e.wasEdge.value)
  }

  lemma UniqueStep(g: Graph, e: Entry, h: Graph)
    requires UniqueActive(g) && Step(g, e, h)
    ensures UniqueActive(h)
  {
  }

  lemma {:induction false} UniqueAlong(states: seq<Graph>, journal: seq<Entry>, k: nat)
    requires Trace(states, journal) && UniqueActive(states[0]) && k < |states|
    ensures UniqueActive(states[k])
  {
    if k == 0 {
    } else {
      UniqueAlong(states, journal, k - 1);
      UniqueStep(states[k - 1], journal[k - 1], states[k]);
    }
  }

  /** Undoing entry k from a halfway state: succeeds exactly when its ends held, and moves one step back. */
  lemma UndoOne(states: seq<Graph>, journal: seq<Entry>, k: nat, u: Graph)
    requires Trace(states, journal) && DistinctTargets(journal) && k < |journal|
    requires UniqueActive(states[k])
    requires Halfway(states, journal, k + 1, u)
    ensures UndoEntry(u, journal[k]).Some? <==> EndsHeld(states[k], journal[k])
    ensures UndoEntry(u, journal[k]).Some? ==> Halfway(states, journal, k, UndoEntry(u, journal[k]).value)
  {
    assert forall i :: k + 1 <= i < |journal| ==> !SameTarget(journal[k], journal[i]);
    if journal[k].ObjectEntry? {
      UndoObject(states, journal, k, u);
    } else {
      UndoConn(states, journal, k, u);
    }
  }

  lemma TouchesStep(journal: seq<Entry>, k: nat)
    requires k < |journal|
    ensures forall id :: TouchesObject(journal, k, id) <==>
        TouchesObject(journal, k + 1, id) || (journal[k].ObjectEntry? && journal[k].id == id)
    ensures forall id :: TouchesConn(journal, k, id) <==>
        TouchesConn(journal, k + 1, id) || (journal[k].ConnEntry? && journal[k].id == id)
  {
  }

  lemma UndoObject(states: seq<Graph>, journal: seq<Entry>, k: nat, u: Graph)
    requires Trace(states, journal) && k < |journal| && journal[k].ObjectEntry?
    requires !TouchesObject(journal, k + 1, journal[k].id)
    requires Halfway(states, journal, k + 1, u)
    ensures UndoEntry(u, journal[k]).Some?
    ensures Halfway(states, journal, k, UndoEntry(u, journal[k]).value)
  {
    var g, e, h := states[k], journal[k], states[k + 1];
    assert Step(g, e, h);
    assert e.id in h.objects && u.objects[e.id] == h.objects[e.id];
    TouchesStep(journal, k);
    var v := UndoEntry(u, e).value;
    assert v.connections == u.connections && h.connections == g.connections;
    forall id | id in g.objects ensures id in v.objects && SameObject(v.objects[id], g.objects[id]) {
      if id != e.id { assert h.objects[id] == g.objects[id]; }
    }
    assert v.objects.Keys == g.objects.Keys;
  }

  lemma UndoConn(states: seq<Graph>, journal: seq<Entry>, k: nat, u: Graph)
    requires Trace(states, journal) && k < |journal| && journal[k].ConnEntry?
    requires UniqueActive(states[k])
    requires !TouchesConn(journal, k + 1, journal[k].id)
    requires Halfway(states, journal, k + 1, u)
    ensures UndoEntry(u, journal[k]).Some? <==> EndsHeld(states[k], journal[k])
    ensures UndoEntry(u, journal[k]).Some? ==> Halfway(states, journal, k, UndoEntry(u, journal[k]).value)
  {
    hide UndoEntry, EndsHeld, Restored, UniqueActive, ObjectStep, EdgeAdded, EdgeStep;
    assert Step(states[k], journal[k], states[k + 1]);
    TouchesStep(journal, k);
    EntryPresent(states, journal, k, u);
    UndoConnIff(states[k], journal[k], states[k + 1], u);
    if UndoEntry(u, journal[k]).Some? { UndoConnBack(states[k], journal[k], states[k + 1], u); }
  }

  lemma EntryPresent(states: seq<Graph>, journal: seq<Entry>, k: nat, u: Graph)
    requires Trace(states, journal) && k < |journal| && journal[k].ConnEntry?
    requires !TouchesConn(journal, k + 1, journal[k].id) && Halfway(states, journal, k + 1, u)
    ensures var c := journal[k].id;
      c in u.connections && c in states[k + 1].connections && u.connections[c] == states[k + 1].connections[c]
  {
  }

  lemma UndoConnIff(g: Graph, e: Entry, h: Graph, u: Graph)
    requires e.ConnEntry? && Step(g, e, h) && UniqueActive(g)
    requires Restored(h, u) && e.id in u.connections && e.id in h.connections
        && u.connections[e.id] == h.connections[e.id]
    ensures UndoEntry(u, e).Some? <==> EndsHeld(g, e)
  {
  }

  lemma UndoConnBack(g: Graph, e: Entry, h: Graph, u: Graph)
    requires e.ConnEntry? && Step(g, e, h) && UndoEntry(u, e).Some?
    requires Restored(h, u) && e.id in u.connections && e.id in h.connections
        && u.connections[e.id] == h.connections[e.id]
    ensures var v := UndoEntry(u, e).value;
      && Restored(g, v) && v.objects == u.objects && h.objects == g.objects
      && v.connections.Keys == u.connections.Keys
          && (forall c :: c in u.connections && c != e.id ==> v.connections[c] == u.connections[c])
      && (forall c :: c in h.connections && c != e.id ==> c in g.connections && g.connections[c] == h.connections[c])
  {
    hide Restored;
    ConnStepShape(g, e, h);
    ConnUndoShape(u, e);
    EdgeBack(g, e, h, u);
    hide UndoEntry, Step;
    ConnRestored(g, e, h, u, UndoEntry(u, e).value);
  }

  /** A connection's change touches nothing else. */
  lemma ConnStepShape(g: Graph, e: Entry, h: Graph)
    requires e.ConnEntry? && Step(g, e, h)
    ensures h.objects == g.objects && e.id in h.connections && h.connections.Keys == g.connections.Keys + {e.id}
    ensures forall c :: c in h.connections && c != e.id ==> c in g.connections && g.connections[c] == h.connections[c]
  {
    hide EndsLive, Linked;
  }

  lemma ConnUndoShape(u: Graph, e: Entry)
    requires e.ConnEntry? && UndoEntry(u, e).Some?
    ensures var v := UndoEntry(u, e).value;
      && v.objects == u.objects && v.connections.Keys == u.connections.Keys
      && (forall c :: c in u.connections && c != e.id ==> v.connections[c] == u.connections[c])
  {
    hide EndsLive, Clash;
  }

  /** The connection itself is back, or archived if the run had made it. */
  lemma EdgeBack(g: Graph, e: Entry, h: Graph, u: Graph)
    requires e.ConnEntry? && Step(g, e, h) && UndoEntry(u, e).Some?
    requires e.id in u.connections && e.id in h.connections && u.connections[e.id] == h.connections[e.id]
    ensures var v := UndoEntry(u, e).value;
      e.id in v.connections
      && if e.id in g.connections then SameEdge(v.connections[e.id], g.connections[e.id])
          else v.connections[e.id].archived
  {
    hide EndsLive, Clash, Linked;
  }

  lemma ConnRestored(g: Graph, e: Entry, h: Graph, u: Graph, v: Graph)
    requires Restored(h, u) && e.id in v.connections && h.objects == g.objects && v.objects == u.objects
    requires h.connections.Keys == g.connections.Keys + {e.id} && v.connections.Keys == u.connections.Keys
    requires forall c :: c in h.connections && c != e.id ==> c in g.connections && g.connections[c] == h.connections[c]
    requires forall c :: c in u.connections && c != e.id ==> v.connections[c] == u.connections[c]
    requires if e.id in g.connections then SameEdge(v.connections[e.id], g.connections[e.id])
             else v.connections[e.id].archived
    ensures Restored(g, v)
  {
    hide SameEdge;
    forall c | c in g.connections ensures c in v.connections && SameEdge(v.connections[c], g.connections[c]) {
      assert c in h.connections;
    }
    forall c | c in v.connections && c !in g.connections ensures v.connections[c].archived {
      if c != e.id { assert c !in h.connections; }
    }
  }

  // ----- whole recoveries -----

  ghost predicate HeldUpTo(states: seq<Graph>, journal: seq<Entry>, k: nat)
    requires |states| == |journal| + 1 && k <= |journal|
  {
    forall i :: 0 <= i < k ==> EndsHeld(states[i], journal[i])
  }

  lemma UndoLast(u: Graph, journal: seq<Entry>, k: nat)
    requires 0 < k <= |journal|
    ensures UndoAll(u, journal[..k]) ==
            match UndoEntry(u, journal[k - 1]) { case None => None case Some(v) => UndoAll(v, journal[..k - 1]) }
  {
    assert journal[..k][k - 1] == journal[k - 1];
    assert journal[..k][..k - 1] == journal[..k - 1];
  }

  lemma {:induction false} UndoPrefix(states: seq<Graph>, journal: seq<Entry>, k: nat, u: Graph)
    requires Trace(states, journal) && DistinctTargets(journal) && UniqueActive(states[0])
    requires k <= |journal| && Halfway(states, journal, k, u)
    ensures UndoAll(u, journal[..k]).Some? <==> HeldUpTo(states, journal, k)
    ensures UndoAll(u, journal[..k]).Some? ==> Restored(states[0], UndoAll(u, journal[..k]).value)
  {
    hide UndoEntry, EndsHeld, Restored;
    if k == 0 {
    } else {
      UniqueAlong(states, journal, k - 1);
      UndoOne(states, journal, k - 1, u);
      UndoLast(u, journal, k);
      assert HeldUpTo(states, journal, k) <==>
          HeldUpTo(states, journal, k - 1) && EndsHeld(states[k - 1], journal[k - 1]);
      match UndoEntry(u, journal[k - 1])
      case None =>
      case Some(v) => UndoPrefix(states, journal, k - 1, v);
    }
  }

  /** Ends lost during the run were lost before it: nothing is archived while an active connection touches it. */
  lemma {:induction false} DanglingIsOld(states: seq<Graph>, journal: seq<Entry>, k: nat, c: Id)
    requires Trace(states, journal) && k < |states| && ActiveEdge(states[k], c)
    ensures EndsLive(states[k], states[k].connections[c]) <==>
            (c !in states[0].connections || EndsLive(states[0], states[k].connections[c]))
    ensures c in states[0].connections ==>
        ActiveEdge(states[0], c) && SameTriple(states[0].connections[c], states[k].connections[c])
  {
    if k == 0 {
    } else {
      var g, e, h := states[k - 1], journal[k - 1], states[k];
      assert Step(g, e, h);
      if e.ConnEntry? && e.wasEdge.None? && e.id == c {
        assert EndsLive(h, h.connections[c]);
        NeverDropped(states, journal, k - 1, c);
      } else {
        assert ActiveEdge(g, c);
        DanglingIsOld(states, journal, k - 1, c);
      }
    }
  }

  lemma {:induction false} NeverDropped(states: seq<Graph>, journal: seq<Entry>, k: nat, c: Id)
    requires Trace(states, journal) && k < |states|
    ensures c in states[0].connections ==> c in states[k].connections
  {
    if k == 0 {
    } else {
      assert Step(states[k - 1], journal[k - 1], states[k]);
      NeverDropped(states, journal, k - 1, c);
    }
  }

  /** A connection created by this run and then changed would be journaled twice. */
  lemma ChangedIsOld(states: seq<Graph>, journal: seq<Entry>, k: nat)
    requires Trace(states, journal) && DistinctTargets(journal) && k < |journal|
    requires journal[k].ConnEntry? && journal[k].wasEdge.Some?
    ensures journal[k].id in states[0].connections
  {
    CreatedIsJournaled(states, journal, k, journal[k].id);
    assert Step(states[k], journal[k], states[k + 1]);
    assert forall i :: 0 <= i < k ==> !SameTarget(journal[i], journal[k]);
  }

  lemma {:induction false} CreatedIsJournaled(states: seq<Graph>, journal: seq<Entry>, k: nat, c: Id)
    requires Trace(states, journal) && k < |states|
    ensures c in states[k].connections && c !in states[0].connections ==>
              exists i :: 0 <= i < k && journal[i].ConnEntry? && journal[i].id == c
  {
    if k == 0 {
    } else {
      assert Step(states[k - 1], journal[k - 1], states[k]);
      CreatedIsJournaled(states, journal, k - 1, c);
      if c in states[k].connections && c !in states[0].connections && c !in states[k - 1].connections {
        assert journal[k - 1].ConnEntry? && journal[k - 1].id == c;
      }
    }
  }

  lemma HeldFromStart(states: seq<Graph>, journal: seq<Entry>)
    requires |states| == |journal| + 1
    requires forall i :: 0 <= i < |journal| && journal[i].ConnEntry? && journal[i].wasEdge.Some? ==>
               (EndsHeld(states[i], journal[i]) <==> EndsLive(states[0], journal[i].wasEdge.value))
    ensures HeldUpTo(states, journal, |journal|) <==>
            forall e :: e in journal && e.ConnEntry? && e.wasEdge.Some? ==> EndsLive(states[0], e.wasEdge.value)
  {
  }

  /** Main theorem. With no write in between, undoing a run whose journal names each target once
      succeeds exactly when every connection it changed had two live, distinct ends before the run;
      and then every Object and the set of active connections are back. */
  lemma UndoTheorem(states: seq<Graph>, journal: seq<Entry>)
    requires Trace(states, journal) && DistinctTargets(journal) && UniqueActive(states[0])
    ensures UndoAll(states[|journal|], journal).Some? <==>
            forall e :: e in journal && e.ConnEntry? && e.wasEdge.Some? ==> EndsLive(states[0], e.wasEdge.value)
    ensures UndoAll(states[|journal|], journal).Some? ==>
              Restored(states[0], UndoAll(states[|journal|], journal).value)
              && ActiveView(UndoAll(states[|journal|], journal).value) == ActiveView(states[0])
  {
    hide UniqueActive, ObjectStep, EdgeAdded, ActiveView, UndoAll;
    var n := |journal|;
    assert journal[..n] == journal;
    assert Halfway(states, journal, n, states[n]);
    hide Halfway, Restored;
    UndoPrefix(states, journal, n, states[n]);
    forall i | 0 <= i < n && journal[i].ConnEntry? && journal[i].wasEdge.Some?
      ensures EndsHeld(states[i], journal[i]) <==> EndsLive(states[0], journal[i].wasEdge.value)
    {
      assert Step(states[i], journal[i], states[i + 1]);
      ChangedIsOld(states, journal, i);
      DanglingIsOld(states, journal, i, journal[i].id);
    }
    HeldFromStart(states, journal);
    if UndoAll(states[n], journal).Some? {
      RestoredActiveView(states[0], UndoAll(states[n], journal).value);
    }
  }

  /** In a graph without dangling connections recovery always succeeds. */
  lemma UndoSucceedsWhenSound(states: seq<Graph>, journal: seq<Entry>)
    requires Trace(states, journal) && DistinctTargets(journal) && Sound(states[0])
    ensures UndoAll(states[|journal|], journal).Some?
  {
    forall e | e in journal && e.ConnEntry? && e.wasEdge.Some? ensures EndsLive(states[0], e.wasEdge.value) {
      var i :| 0 <= i < |journal| && journal[i] == e;
      assert Step(states[i], journal[i], states[i + 1]);
      ChangedIsOld(states, journal, i);
      DanglingIsOld(states, journal, i, e.id);
    }
    UndoTheorem(states, journal);
  }

  /** The row an entry names is there with the revision the run gave it. */
  predicate AsWritten(u: Graph, e: Entry) {
    if e.ObjectEntry? then e.id in u.objects && u.objects[e.id].revision == e.toRevision
    else e.id in u.connections && u.connections[e.id].revision == e.toRevision
  }

  /** A later revision of any target, whoever wrote it, fails the whole recovery: on any graph, recovering a journal
      that names each target once succeeds only if every target still has the revision the run gave it. */
  lemma {:induction false} LaterWriteBlocksUndo(u: Graph, journal: seq<Entry>)
    requires DistinctTargets(journal) && UndoAll(u, journal).Some?
    ensures forall e :: e in journal ==> AsWritten(u, e)
    decreases |journal|
  {
    if journal != [] {
      var front, last := journal[..|journal| - 1], journal[|journal| - 1];
      var v := UndoEntry(u, last).value;
      LaterWriteBlocksUndo(v, front);
      forall e | e in journal ensures AsWritten(u, e) {
        if e in front {
          assert AsWritten(v, e) && !SameTarget(e, last);
        }
      }
    }
  }

  // ----- recovery whenever it comes -----

  /** The rows a run found were live Objects. */
  ghost predicate FoundLive(journal: seq<Entry>) {
    forall e :: e in journal && e.ObjectEntry? && e.was.Some? ==> !e.was.value.archived
  }

  lemma UndoEntrySound(u: Graph, e: Entry)
    requires Sound(u) && UndoEntry(u, e).Some? && (e.ObjectEntry? && e.was.Some? ==> !e.was.value.archived)
    ensures Sound(UndoEntry(u, e).value)
  {
    var v := UndoEntry(u, e).value;
    if e.ConnEntry? {
      UndoEdgeSound(u, e);
    } else {
      forall c | ActiveEdge(v, c) ensures EndsLive(v, v.connections[c]) {
        assert ActiveEdge(u, c) && EndsLive(u, u.connections[c]);
        if e.was.None? { assert c !in ActiveEdgesOf(u, e.id); }
      }
      assert forall c, d :: ActiveEdge(v, c) && ActiveEdge(v, d) ==> ActiveEdge(u, c) && ActiveEdge(u, d);
    }
  }

  lemma UndoEdgeSound(u: Graph, e: Entry)
    requires e.ConnEntry? && Sound(u) && UndoEntry(u, e).Some?
    ensures Sound(UndoEntry(u, e).value)
  {
    var v := UndoEntry(u, e).value;
    hide UndoEntry, Clash;
    UndoneEdge(u, e);
    forall c | ActiveEdge(v, c) ensures EndsLive(v, v.connections[c]) {
      if c != e.id { assert ActiveEdge(u, c) && EndsLive(u, u.connections[c]); }
    }
    forall c, d | ActiveEdge(v, c) && ActiveEdge(v, d) && SameTriple(v.connections[c], v.connections[d])
      ensures c == d
    {
      if c != e.id && d != e.id { assert ActiveEdge(u, c) && ActiveEdge(u, d); }
    }
  }

  lemma UndoneEdge(u: Graph, e: Entry)
    requires e.ConnEntry? && UndoEntry(u, e).Some?
    ensures var v := UndoEntry(u, e).value;
      && e.id in u.connections && e.id in v.connections
      && v == u.(connections := u.connections[e.id := v.connections[e.id]])
      && (!v.connections[e.id].archived ==> EndsLive(u, v.connections[e.id]))
      && (!v.connections[e.id].archived ==>
            forall c :: ActiveEdge(u, c) && c != e.id ==> !SameTriple(u.connections[c], v.connections[e.id]))
  {
  }

  /** Whatever was written since, a recovery that succeeds leaves a sound graph sound: it brings no connection back that
      would dangle or double another, and archives no Object that is still connected. It changes Memories and events
      only, and only what the run had changed. */
  lemma {:induction false} UndoKeepsSound(u: Graph, journal: seq<Entry>)
    requires Sound(u) && FoundLive(journal) && UndoAll(u, journal).Some?
    ensures var v := UndoAll(u, journal).value;
      && Sound(v) && v.objects.Keys == u.objects.Keys && v.connections.Keys == u.connections.Keys
      && (forall id :: id in u.objects && v.objects[id] != u.objects[id] ==>
            (u.objects[id].kind == "memory" || u.objects[id].kind == "event")
            && exists e :: e in journal && e.ObjectEntry? && e.id == id)
      && (forall c :: c in u.connections && v.connections[c] != u.connections[c] ==>
            exists e :: e in journal && e.ConnEntry? && e.id == c)
    decreases |journal|
  {
    if journal != [] {
      var e := journal[|journal| - 1];
      UndoEntrySound(u, e);
      UndoScope(u, e);
      hide UndoEntry, Sound;
      UndoKeepsSound(UndoEntry(u, e).value, journal[..|journal| - 1]);
    }
  }

  lemma UndoScope(u: Graph, e: Entry)
    requires UndoEntry(u, e).Some?
    ensures var v := UndoEntry(u, e).value;
      && v.objects.Keys == u.objects.Keys && v.connections.Keys == u.connections.Keys
      && (forall id :: id in u.objects && v.objects[id] != u.objects[id] ==>
            (u.objects[id].kind == "memory" || u.objects[id].kind == "event") && e.ObjectEntry? && e.id == id)
      && (forall id :: id in u.objects ==> v.objects[id].kind == u.objects[id].kind)
      && (forall c :: c in u.connections && v.connections[c] != u.connections[c] ==> e.ConnEntry? && e.id == c)
  {
  }

  /** What recovery does with a row the run made: it archives it. */
  lemma CreatedIsArchived(u: Graph, e: Entry)
    requires UndoEntry(u, e).Some? && (if e.ObjectEntry? then e.was.None? else e.wasEdge.None?)
    ensures var v := UndoEntry(u, e).value;
      if e.ObjectEntry? then e.id in v.objects && v.objects[e.id].archived && ActiveEdgesOf(u, e.id) == {}
      else e.id in v.connections && v.connections[e.id].archived
  {
  }
}
