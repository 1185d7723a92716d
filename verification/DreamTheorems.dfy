/** What an accepted maintenance plan guarantees about the graph, and the round trip
    of applying a plan and recovering it. */
module DreamTheorems {
  import opened Wrappers
  import opened MemoryGraph
  import opened DreamJournal
  import opened DreamStore

  // ----- a merge is a substitution -----

  ghost function Triples(g: Graph): set<(Id, string, Id)> {
    set c | c in g.connections && !g.connections[c].archived ::
      (g.connections[c].source, g.connections[c].kind, g.connections[c].target)
  }

  function Substituted(t: (Id, string, Id), from: Id, to: Id): (Id, string, Id) {
    (Redirect(from, to, t.0), t.1, Redirect(from, to, t.2))
  }

  /** The image of the active triples under from := to, without self-edges; a set, so without duplicates. */
  ghost function Image(triples: set<(Id, string, Id)>, from: Id, to: Id): set<(Id, string, Id)> {
    set t | t in triples && Substituted(t, from, to).0 != Substituted(t, from, to).2 :: Substituted(t, from, to)
  }

  lemma TripleOf(g: Graph, c: Id)
    requires ActiveEdge(g, c)
    ensures (g.connections[c].source, g.connections[c].kind, g.connections[c].target) in Triples(g)
  {
  }

  lemma TripleHas(g: Graph, t: (Id, string, Id))
    ensures t in Triples(g) <==> Linked(g, t.0, t.1, t.2)
  {
  }

  /** Merging b into s rewrites the active graph exactly by b := s. */
  lemma MergeIsSubstitution(g: Graph, h: Graph, b: Id, s: Id, title: string, description: string, reason: string)
    requires ChangeEffect(g, h, Merge(b, s, title, description, reason)) && b != s
    requires forall c :: ActiveEdge(g, c) ==> g.connections[c].source != g.connections[c].target
    ensures Triples(h) == Image(Triples(g), b, s)
  {
    forall t | t in Triples(h) ensures t in Image(Triples(g), b, s) {
      TripleHas(h, t);
      MergedComesFrom(g, h, b, s, LinkId(h, t.0, t.1, t.2));
    }
    forall t | t in Image(Triples(g), b, s) ensures t in Triples(h) {
      var o :| o in Triples(g) && Substituted(o, b, s).0 != Substituted(o, b, s).2 && t == Substituted(o, b, s);
      TripleHas(g, o);
      MergedGoesTo(g, h, b, s, LinkId(g, o.0, o.1, o.2));
      TripleHas(h, t);
    }
  }

  lemma MergedComesFrom(g: Graph, h: Graph, b: Id, s: Id, c: Id)
    requires RetiredEdges(g, h, b, Some(s)) && b != s && ActiveEdge(h, c)
    requires forall c :: ActiveEdge(g, c) ==> g.connections[c].source != g.connections[c].target
    ensures (h.connections[c].source, h.connections[c].kind, h.connections[c].target) in Image(Triples(g), b, s)
  {
    var o := c;
    if c !in g.connections {
      o :| o in ActiveEdgesOf(g, b) && o in g.connections
        && h.connections[c] == NewEdge(Redirect(b, s, g.connections[o].source), g.connections[o].kind,
                                       Redirect(b, s, g.connections[o].target), g.connections[o].description)
        && h.connections[c].source != h.connections[c].target;
    } else {
      assert c !in ActiveEdgesOf(g, b);
    }
    assert ActiveEdge(g, o);
    TripleOf(g, o);
    var t := (g.connections[o].source, g.connections[o].kind, g.connections[o].target);
    assert Substituted(t, b, s) == (h.connections[c].source, h.connections[c].kind, h.connections[c].target);
  }

  lemma MergedGoesTo(g: Graph, h: Graph, b: Id, s: Id, o: Id)
    requires RetiredEdges(g, h, b, Some(s)) && b != s && ActiveEdge(g, o)
    requires Redirect(b, s, g.connections[o].source) != Redirect(b, s, g.connections[o].target)
    ensures Linked(h, Redirect(b, s, g.connections[o].source), g.connections[o].kind,
                   Redirect(b, s, g.connections[o].target))
  {
  }

  /** Receipts as the capture worker writes them: one run observes one Object, and its evidence names no merged
      Memory. */
  ghost predicate CaptureReceipts(receipts: seq<Receipt>) {
    && (forall r, q :: r in receipts && q in receipts && r.run == q.run ==> r == q)
    && (forall r :: r in receipts ==> r.evidence.mergedMemories == [])
  }

  /** The survivor of an accepted merge keeps the evidence identity both Memories had. */
  lemma MergeKeepsEvidence(policy: Policy, g: Graph, h: Graph, receipts: seq<Receipt>, batch: Batch, touched: set<Id>,
                           b: Id, s: Id, title: string, description: string, reason: string)
    requires CaptureReceipts(receipts)
    requires CanChange(policy, g, receipts, batch, touched, Merge(b, s, title, description, reason))
    requires ChangeEffect(g, h, Merge(b, s, title, description, reason))
    ensures s in h.objects && b in g.objects && s in g.objects
    ensures EvidenceKeys(h.objects[s], FindReceipt(receipts, s, h.objects[s]))
        == EvidenceKeys(g.objects[b], FindReceipt(receipts, b, g.objects[b]))
    ensures EvidenceKeys(h.objects[s], FindReceipt(receipts, s, h.objects[s]))
        == EvidenceKeys(g.objects[s], FindReceipt(receipts, s, g.objects[s]))
    ensures h.objects[s].happenedAt == g.objects[b].happenedAt
        && h.objects[s].provenance.chat == g.objects[b].provenance.chat
    ensures b in h.objects[s].provenance.mergedMemories && h.objects[b].provenance.mergedInto == Some(s)
  {
    var rb, rs := FindReceipt(receipts, b, g.objects[b]), FindReceipt(receipts, s, g.objects[s]);
    ReceiptInKeys(g.objects[b], rb);
    ReceiptInKeys(g.objects[s], rs);
    assert rb == rs by {
      assert rb.Some? ==> ReceiptKey(rb.value) in EvidenceKeys(g.objects[s], rs);
      assert rs.Some? ==> ReceiptKey(rs.value) in EvidenceKeys(g.objects[b], rb);
    }
    NoSharedReceipt(receipts, b, g.objects[b], s, g.objects[s]);
  }

  lemma ReceiptInKeys(o: ObjectRow, receipt: Option<Id>)
    ensures forall x: Id :: ReceiptKey(x) in EvidenceKeys(o, receipt) <==> receipt == Some(x)
  {
  }

  /** One run's receipt never belongs to two Objects. */
  lemma NoSharedReceipt(receipts: seq<Receipt>, b: Id, ob: ObjectRow, s: Id, os: ObjectRow)
    requires CaptureReceipts(receipts) && b != s && FindReceipt(receipts, b, ob) == FindReceipt(receipts, s, os)
    ensures FindReceipt(receipts, b, ob).None?
  {
  }

  // ----- every intermediate graph is sound -----

  lemma SoundStep(g: Graph, e: Entry, h: Graph)
    requires Sound(g) && Step(g, e, h)
    ensures Sound(h)
  {
    UniqueStep(g, e, h);
    forall c | ActiveEdge(h, c) ensures EndsLive(h, h.connections[c]) {
      if ActiveEdge(g, c) && !(e.ConnEntry? && e.id == c) {
        assert EndsLive(g, g.connections[c]);
      }
    }
  }

  /** From a sound graph, the graph after every single journaled change is sound. */
  lemma {:induction false} SoundThroughout(states: seq<Graph>, journal: seq<Entry>, k: nat)
    requires Trace(states, journal) && Sound(states[0]) && k < |states|
    ensures Sound(states[k])
  {
    if k == 0 {
    } else {
      SoundThroughout(states, journal, k - 1);
      assert Step(states[k - 1], journal[k - 1], states[k]);
      SoundStep(states[k - 1], journal[k - 1], states[k]);
    }
  }

  // ----- what a plan may not touch -----

  /** Some entry is about this Object, or this connection. */
  predicate Names(journal: seq<Entry>, aboutObject: bool, id: Id) {
    exists i :: 0 <= i < |journal| && journal[i].ObjectEntry? == aboutObject && journal[i].id == id
  }

  /** From g to h only rows these entries are about have changed, and none is gone. */
  ghost predicate OnlyNamedChanged(g: Graph, h: Graph, journal: seq<Entry>) {
    && h.objects.Keys == g.objects.Keys && g.connections.Keys <= h.connections.Keys
    && (forall id :: id in g.objects && !Names(journal, true, id) ==> h.objects[id] == g.objects[id])
    && (forall c :: c in g.connections && !Names(journal, false, c) ==> h.connections[c] == g.connections[c])
  }

  lemma {:induction false} UnjournaledKept(states: seq<Graph>, journal: seq<Entry>, k: nat)
    requires Trace(states, journal) && k < |states|
    ensures OnlyNamedChanged(states[0], states[k], journal[..k])
  {
    if k == 0 {
    } else {
      UnjournaledKept(states, journal, k - 1);
      assert Step(states[k - 1], journal[k - 1], states[k]);
      assert journal[..k] == journal[..k - 1] + [journal[k - 1]];
      hide *;
      OneMoreChanged(states[0], states[k - 1], states[k], journal[..k - 1], journal[k - 1]);
    }
  }

  lemma OneMoreChanged(g: Graph, before: Graph, h: Graph, journal: seq<Entry>, e: Entry)
    requires OnlyNamedChanged(g, before, journal) && Step(before, e, h)
    ensures OnlyNamedChanged(g, h, journal + [e])
  {
    OthersKept(before, e, h);
    hide Step, Names;
    forall aboutObject, id { NamesAppended(journal, e, aboutObject, id); }
  }

  /** One change leaves every row but its target as it was. */
  lemma OthersKept(g: Graph, e: Entry, h: Graph)
    requires Step(g, e, h)
    ensures h.objects.Keys == g.objects.Keys && g.connections.Keys <= h.connections.Keys
    ensures forall id :: id in g.objects && !(e.ObjectEntry? && e.id == id) ==> h.objects[id] == g.objects[id]
    ensures forall c :: c in g.connections && !(e.ConnEntry? && e.id == c) ==> h.connections[c] == g.connections[c]
  {
  }

  lemma NamesAppended(journal: seq<Entry>, e: Entry, aboutObject: bool, id: Id)
    ensures Names(journal + [e], aboutObject, id) <==>
              Names(journal, aboutObject, id) || (e.ObjectEntry? == aboutObject && e.id == id)
  {
    var more := journal + [e];
    assert more[|journal|] == e && forall i :: 0 <= i < |journal| ==> more[i] == journal[i];
  }

  /** With distinct targets, the before state of entry i is the row at the start. */
  lemma FirstWrite(states: seq<Graph>, journal: seq<Entry>, i: nat)
    requires Trace(states, journal) && DistinctTargets(journal) && i < |journal|
    ensures journal[i].ObjectEntry? ==>
        journal[i].id in states[0].objects && journal[i].was == Some(states[0].objects[journal[i].id])
    ensures journal[i].ConnEntry? && journal[i].wasEdge.Some? ==>
              journal[i].id in states[0].connections && journal[i].wasEdge == Some(states[0].connections[journal[i].id])
    ensures journal[i].ConnEntry? && journal[i].wasEdge.None? ==> journal[i].id !in states[0].connections
  {
    UnjournaledKept(states, journal, i);
    assert Step(states[i], journal[i], states[i + 1]);
    assert forall j :: 0 <= j < i ==> !SameTarget(journal[j], journal[i]);
    if journal[i].ConnEntry? {
      if journal[i].wasEdge.Some? {
        ChangedIsOld(states, journal, i);
      } else {
        NeverDropped(states, journal, i, journal[i].id);
      }
    }
  }

  /** A Memory outside the batch, or one that is protected, locked, human edited or otherwise not eligible, is
      unchanged by an accepted plan; so is a connection outside the batch or not editable. No Object appears or
      disappears. */
  lemma OnlyEligibleChanged(receipts: seq<Receipt>, batch: Batch, run: Id, states: seq<Graph>, journal: seq<Entry>,
                            h: Graph)
    requires TxValid(receipts, batch, run, states, journal, h)
    ensures h.objects.Keys == states[0].objects.Keys && states[0].connections.Keys <= h.connections.Keys
    ensures forall id :: id in h.objects && h.objects[id] != states[0].objects[id] ==>
              FindMemory(batch.memories, id).Some?
              && Eligible(states[0].objects[id], FindReceipt(receipts, id, states[0].objects[id]))
    ensures forall c :: c in states[0].connections && h.connections[c] != states[0].connections[c] ==>
              FindConn(batch.connections, c).Some? && Editable(states[0].connections[c])
              && exists m :: m in batch.memories && Touches(states[0].connections[c], m.id)
  {
    var n := |journal|;
    UnjournaledKept(states, journal, n);
    forall id | id in h.objects && h.objects[id] != states[0].objects[id]
      ensures FindMemory(batch.memories, id).Some?
          && Eligible(states[0].objects[id], FindReceipt(receipts, id, states[0].objects[id]))
    {
      var i :| 0 <= i < n && journal[i].ObjectEntry? && journal[i].id == id;
      FirstWrite(states, journal, i);
      assert Permitted(receipts, batch, journal[i]);
    }
    forall c | c in states[0].connections && h.connections[c] != states[0].connections[c]
      ensures FindConn(batch.connections, c).Some? && Editable(states[0].connections[c])
      ensures exists m :: m in batch.memories && Touches(states[0].connections[c], m.id)
    {
      var i :| 0 <= i < n && journal[i].ConnEntry? && journal[i].id == c;
      FirstWrite(states, journal, i);
      assert Permitted(receipts, batch, journal[i]);
    }
  }

  // ----- the round trip -----

  /** Applying a plan and undoing it with nothing in between: the recovery succeeds exactly when every
      connection the plan changed had two live ends, and then the graph is back; in a sound graph it always succeeds. */
  method ApplyThenUndo(store: Store, policy: Policy, batch: Batch, run: Id, plan: seq<Change>, reversal: Id)
    returns (applied: bool, undone: bool, ghost written: seq<Entry>)
    requires run in store.runs && store.runs[run] == Running && reversal !in store.runs
    requires UniqueActive(store.G())
    requires forall e :: e in store.journal ==> e.run != run
    modifies store
    ensures |plan| > 20 ==> !applied
    ensures !applied ==> store.G() == old(store.G()) && !undone
    ensures applied ==>
        (undone <==>
         forall e :: e in written && e.ConnEntry? && e.wasEdge.Some? ==> EndsLive(old(store.G()), e.wasEdge.value))
    ensures applied && Sound(old(store.G())) ==> undone
    ensures undone ==> Restored(old(store.G()), store.G()) && ActiveView(store.G()) == ActiveView(old(store.G()))
  {
    var outcome;
    ghost var states, steps;
    outcome, states, steps, written := store.ApplyPlan(policy, batch, run, plan, false);
    applied := outcome == Applied;
    if !applied { return false, false, written; }
    EntriesOfAppend(old(store.journal), written, run);
    UndoTheorem(steps, written);
    if Sound(steps[0]) { UndoSucceedsWhenSound(steps, written); }
    undone := store.Undo(run, reversal);
  }

  /** Without soundness it can fail: an accepted plan that disconnects a connection to an Object archived earlier
      cannot be undone. */
  lemma DanglingEdgeBlocksUndo(policy: Policy, run: Id) returns (g: Graph, h: Graph, batch: Batch, journal: seq<Entry>)
    requires policy.reasonText("r")
    ensures UniqueActive(g) && CanChange(policy, g, [], batch, {}, Disconnect(0, "r"))
        && ChangeEffect(g, h, Disconnect(0, "r"))
    ensures Trace([g, h], journal) && DistinctTargets(journal) && UndoAll(h, journal).None?
  {
    var row := ObjectRow("memory", "t", "d", Provenance("", None, [], None, false, [], None), None, false, false, 1,
                         System, "context-curator", System, "context-curator");
    var edge := ConnRow(1, "related_to", 2, "d", false, false, 1, System, System, "context-curator");
    g := Graph(map[1 := row, 2 := row.(archived := true)], map[0 := edge]);
    h := g.(connections := g.connections[0 := StampedEdge(edge).(archived := true)]);
    batch := Batch([MemorySnap(1, row, None, None, None)], [ConnSnap(0, 1)], [], []);
    journal := [ConnEntry(run, 1, 0, Some(edge), 2)];
    assert LockableEdge(g, batch, 0) by { assert batch.memories[0] in batch.memories; }
    assert Step(g, journal[0], h);
    assert journal[0] in journal && !EndsLive(g, edge);
    UndoTheorem([g, h], journal);
  }
}
