/** The rules of a maintenance plan in terms of rows and columns: when each change is accepted, what it writes, and what
    no accepted plan ever changes. */
module DreamRules {
  import opened Wrappers
  import opened MemoryGraph
  import opened DreamJournal
  import opened DreamStore
  import opened DreamTheorems

  // ----- rows maintenance may edit -----

  /** A completed capture run saw this very Memory come into being. */
  predicate Attested(receipts: seq<Receipt>, id: Id, o: ObjectRow) {
    o.provenance.sourceType == "codex_git_commit"
    && exists r :: r in receipts && r.subject == id && r.actor == o.createdBy && r.evidence == o.provenance
  }

  lemma {:induction false} FoundIffAttested(receipts: seq<Receipt>, id: Id, o: ObjectRow)
    ensures FindReceipt(receipts, id, o).Some? <==> Attested(receipts, id, o)
  {
    if receipts != [] && o.provenance.sourceType == "codex_git_commit" {
      FoundIffAttested(receipts[1..], id, o);
      assert forall r :: r in receipts <==> r == receipts[0] || r in receipts[1..];
    }
  }

  /** A live Memory made and last touched by the system's own workers, neither protected nor locked. */
  predicate OwnMemory(o: ObjectRow, attested: bool) {
    && o.kind == "memory" && !o.archived && !o.protected && !o.provenance.locked
    && o.createdByType == System && o.updatedByType == System
    && (o.createdBy == "context-curator" || o.createdBy == "context-memory-capture" || attested)
    && (o.updatedBy == "context-curator" || o.updatedBy == "context-memory-capture"
        || o.updatedBy == "context-memory-dream" || (attested && o.updatedBy == o.createdBy))
  }

  /** An active connection of theirs. */
  predicate OwnEdge(c: ConnRow) {
    && !c.archived && !c.protected && c.createdByType == System && c.updatedByType == System
    && (c.updatedBy == "context-curator" || c.updatedBy == "context-memory-capture"
        || c.updatedBy == "context-memory-dream")
  }

  lemma OwnMemoryIff(receipts: seq<Receipt>, id: Id, o: ObjectRow)
    ensures Eligible(o, FindReceipt(receipts, id, o)) <==> OwnMemory(o, Attested(receipts, id, o))
  {
    FoundIffAttested(receipts, id, o);
  }

  lemma OwnEdgeIff(c: ConnRow)
    ensures Editable(c) <==> OwnEdge(c)
  {
  }

  predicate SameAt<T(==)>(a: map<Id, T>, b: map<Id, T>, id: Id) {
    id in a && id in b && a[id] == b[id]
  }

  /** With distinct targets, the row after entry i is the row at the end. */
  lemma LastWrite(states: seq<Graph>, journal: seq<Entry>, i: nat)
    requires Trace(states, journal) && DistinctTargets(journal) && i < |journal|
    ensures var e, h := journal[i], states[|journal|];
      && (e.ObjectEntry? ==> SameAt(h.objects, states[i + 1].objects, e.id))
      && (e.ConnEntry? ==> SameAt(h.connections, states[i + 1].connections, e.id))
  {
    var after, rest := states[i + 1..], journal[i + 1..];
    forall k | 0 <= k < |rest| ensures Step(after[k], rest[k], after[k + 1]) {
      var j := i + 1 + k;
      assert Step(states[j], journal[j], states[j + 1]);
    }
    UnjournaledKept(after, rest, |rest|);
    assert rest[..|rest|] == rest && after[|rest|] == states[|journal|];
    assert Step(states[i], journal[i], states[i + 1]);
    assert forall k :: 0 <= k < |rest| ==> !SameTarget(journal[i], rest[k]);
  }

  /** What happened to one Object an accepted plan changed. */
  lemma ObjectWrite(receipts: seq<Receipt>, batch: Batch, run: Id, states: seq<Graph>, journal: seq<Entry>, h: Graph,
                    id: Id)
    requires TxValid(receipts, batch, run, states, journal, h)
    requires h.objects.Keys == states[0].objects.Keys && id in h.objects && h.objects[id] != states[0].objects[id]
    ensures FindMemory(batch.memories, id).Some?
    ensures var o := states[0].objects[id]; Eligible(o, FindReceipt(receipts, id, o)) && ObjectWritten(o, h.objects[id])
  {
    var n := |journal|;
    UnjournaledKept(states, journal, n);
    assert journal[..n] == journal;
    var i :| 0 <= i < n && journal[i].ObjectEntry? && journal[i].id == id;
    FirstWrite(states, journal, i);
    LastWrite(states, journal, i);
    assert Permitted(receipts, batch, journal[i]) && Step(states[i], journal[i], states[i + 1]);
  }

  /** An edited Memory: its texts, its provenance and whether it is archived may differ. */
  predicate ObjectWritten(o: ObjectRow, n: ObjectRow) {
    n == o.(title := n.title, description := n.description, provenance := n.provenance, archived := n.archived,
            revision := o.revision + 1, updatedByType := System, updatedBy := "context-memory-dream")
  }

  /** An edited connection: its text and whether it is archived may differ. */
  predicate EdgeWritten(o: ConnRow, n: ConnRow) {
    n == o.(description := n.description, archived := n.archived,
            revision := o.revision + 1, updatedByType := System, updatedBy := "context-memory-dream")
  }

  lemma EdgeWrite(receipts: seq<Receipt>, batch: Batch, run: Id, states: seq<Graph>, journal: seq<Entry>, h: Graph,
                  c: Id)
    requires TxValid(receipts, batch, run, states, journal, h)
    requires c in states[0].connections && c in h.connections && h.connections[c] != states[0].connections[c]
    ensures FindConn(batch.connections, c).Some?
    ensures var o := states[0].connections[c];
      Editable(o) && EdgeWritten(o, h.connections[c]) && exists m :: m in batch.memories && Touches(o, m.id)
  {
    var n := |journal|;
    UnjournaledKept(states, journal, n);
    assert journal[..n] == journal;
    var i :| 0 <= i < n && journal[i].ConnEntry? && journal[i].id == c;
    FirstWrite(states, journal, i);
    LastWrite(states, journal, i);
    assert Permitted(receipts, batch, journal[i]) && Step(states[i], journal[i], states[i + 1]);
  }

  lemma NewEdgeWrite(states: seq<Graph>, journal: seq<Entry>, h: Graph, c: Id)
    requires Trace(states, journal) && DistinctTargets(journal) && states[|journal|] == h
    requires c in h.connections && c !in states[0].connections
    ensures h.connections[c].revision == 1 && !h.connections[c].archived
  {
    CreatedIsJournaled(states, journal, |journal|, c);
    var i :| 0 <= i < |journal| && journal[i].ConnEntry? && journal[i].id == c;
    FirstWrite(states, journal, i);
    LastWrite(states, journal, i);
    assert Step(states[i], journal[i], states[i + 1]);
  }

  /** Main theorem on what a plan may touch: an accepted plan changes an Object only if it was, before the plan, a
      Memory of the batch that the system's workers alone had written and nobody had protected or locked, and then
      only its texts, its provenance, whether it is archived, its revision and its last writer. So with connections,
      of which it may also add active ones. */
  lemma OnlyOwnChanged(receipts: seq<Receipt>, batch: Batch, run: Id, states: seq<Graph>, journal: seq<Entry>, h: Graph)
    requires TxValid(receipts, batch, run, states, journal, h)
    ensures h.objects.Keys == states[0].objects.Keys && states[0].connections.Keys <= h.connections.Keys
    ensures forall id :: id in states[0].objects && h.objects[id] != states[0].objects[id] ==>
      var o := states[0].objects[id];
      && o.kind == "memory" && !o.archived && !o.protected && !o.provenance.locked
      && o.createdByType == System && o.updatedByType == System
      && OwnMemory(o, Attested(receipts, id, o)) && ObjectWritten(o, h.objects[id])
      && exists m :: m in batch.memories && m.id == id
    ensures forall c :: c in states[0].connections && h.connections[c] != states[0].connections[c] ==>
      var o := states[0].connections[c];
      && !o.archived && !o.protected && o.createdByType == System && o.updatedByType == System
      && OwnEdge(o) && EdgeWritten(o, h.connections[c])
      && (exists s :: s in batch.connections && s.id == c)
      && exists m :: m in batch.memories && (o.source == m.id || o.target == m.id)
    ensures forall c :: c in h.connections && c !in states[0].connections ==>
      h.connections[c].revision == 1 && !h.connections[c].archived
  {
    UnjournaledKept(states, journal, |journal|);
    assert states[|journal|] == h;
    hide Eligible, Editable, ObjectWritten, EdgeWritten, Attested, TxValid, FindReceipt, OnlyNamedChanged;
    KeysKept(states[0], h, journal[..|journal|]);
    var g := states[0];
    forall id | id in g.objects && h.objects[id] != g.objects[id]
      ensures OwnMemory(g.objects[id], Attested(receipts, id, g.objects[id]))
          && ObjectWritten(g.objects[id], h.objects[id])
      ensures exists m :: m in batch.memories && m.id == id
    {
      ObjectWrite(receipts, batch, run, states, journal, h, id);
      OwnMemoryIff(receipts, id, g.objects[id]);
      var m := FindMemory(batch.memories, id);
      assert m.value in batch.memories;
    }
    forall c | c in g.connections && h.connections[c] != g.connections[c]
      ensures OwnEdge(g.connections[c]) && EdgeWritten(g.connections[c], h.connections[c])
      ensures exists s :: s in batch.connections && s.id == c
      ensures exists m :: m in batch.memories && (g.connections[c].source == m.id || g.connections[c].target == m.id)
    {
      EdgeWrite(receipts, batch, run, states, journal, h, c);
      OwnEdgeIff(g.connections[c]);
      var s := FindConn(batch.connections, c);
      assert s.value in batch.connections;
    }
    forall c | c in h.connections && c !in g.connections
      ensures h.connections[c].revision == 1 && !h.connections[c].archived
    {
      JournalOf(receipts, batch, run, states, journal, h);
      NewEdgeWrite(states, journal, h, c);
    }
  }

  lemma KeysKept(g: Graph, h: Graph, journal: seq<Entry>)
    requires OnlyNamedChanged(g, h, journal)
    ensures h.objects.Keys == g.objects.Keys && g.connections.Keys <= h.connections.Keys
  {
  }

  lemma JournalOf(receipts: seq<Receipt>, batch: Batch, run: Id, states: seq<Graph>, journal: seq<Entry>, h: Graph)
    requires TxValid(receipts, batch, run, states, journal, h)
    ensures Trace(states, journal) && DistinctTargets(journal) && states[|journal|] == h
  {
  }

  // ----- when each change is accepted, and what it writes -----

  /** The batch's first snapshot of this Memory has this revision. */
  ghost predicate Reviewed(memories: seq<MemorySnap>, id: Id, revision: int) {
    exists k :: FirstListed(memories, id, k) && memories[k].row.revision == revision
  }

  ghost predicate FirstListed(memories: seq<MemorySnap>, id: Id, k: int) {
    0 <= k < |memories| && memories[k].id == id && forall j :: 0 <= j < k ==> memories[j].id != id
  }

  ghost predicate ReviewedEdge(connections: seq<ConnSnap>, c: Id, revision: int) {
    exists k :: 0 <= k < |connections| && connections[k] == ConnSnap(c, revision)
                && forall j :: 0 <= j < k ==> connections[j].id != c
  }

  lemma {:induction false} FoundIsFirst(memories: seq<MemorySnap>, id: Id)
    ensures forall k :: FirstListed(memories, id, k) ==> FindMemory(memories, id) == Some(memories[k])
    ensures FindMemory(memories, id).Some? ==> exists k :: FirstListed(memories, id, k)
  {
    if memories != [] && memories[0].id != id {
      var rest := memories[1..];
      FoundIsFirst(rest, id);
      forall k | FirstListed(memories, id, k) ensures FindMemory(memories, id) == Some(memories[k]) {
        assert FirstListed(rest, id, k - 1);
      }
      if FindMemory(rest, id).Some? {
        var k :| FirstListed(rest, id, k);
        assert FirstListed(memories, id, k + 1);
      }
    } else if memories != [] {
      assert FirstListed(memories, id, 0);
    }
  }

  lemma {:induction false} FoundEdgeIsFirst(connections: seq<ConnSnap>, c: Id, revision: int)
    ensures ReviewedEdge(connections, c, revision) <==> FindConn(connections, c) == Some(ConnSnap(c, revision))
  {
    if connections != [] && connections[0].id != c {
      var rest := connections[1..];
      FoundEdgeIsFirst(rest, c, revision);
      if ReviewedEdge(rest, c, revision) {
        var k :| 0 <= k < |rest| && rest[k] == ConnSnap(c, revision) && forall j :: 0 <= j < k ==> rest[j].id != c;
        assert connections[k + 1] == ConnSnap(c, revision);
      }
      if ReviewedEdge(connections, c, revision) {
        var k :| 0 <= k < |connections| && connections[k] == ConnSnap(c, revision)
              && forall j :: 0 <= j < k ==> connections[j].id != c;
        assert rest[k - 1] == ConnSnap(c, revision);
      }
    } else if connections != [] {
      assert connections[0].id == c;
    }
  }

  /** Maintenance may edit this Memory: it is one of its own and still at the revision reviewed. */
  ghost predicate MayEdit(g: Graph, receipts: seq<Receipt>, batch: Batch, id: Id) {
    && id in g.objects && OwnMemory(g.objects[id], Attested(receipts, id, g.objects[id]))
    && Reviewed(batch.memories, id, g.objects[id].revision)
  }

  /** Maintenance may edit this connection: one of its own, at the revision reviewed, of a Memory of the batch. */
  ghost predicate MayEditEdge(g: Graph, batch: Batch, c: Id) {
    && c in g.connections && OwnEdge(g.connections[c]) && ReviewedEdge(batch.connections, c, g.connections[c].revision)
    && exists m :: m in batch.memories && Touches(g.connections[c], m.id)
  }

  lemma MayEditIff(g: Graph, receipts: seq<Receipt>, batch: Batch, id: Id)
    ensures Lockable(g, receipts, batch, id) <==> MayEdit(g, receipts, batch, id)
  {
    hide Eligible, OwnMemory, Attested, FindReceipt;
    FoundIsFirst(batch.memories, id);
    if id in g.objects { OwnMemoryIff(receipts, id, g.objects[id]); }
  }

  lemma MayEditEdgeIff(g: Graph, batch: Batch, c: Id)
    ensures LockableEdge(g, batch, c) <==> MayEditEdge(g, batch, c)
  {
    hide Editable, OwnEdge;
    if c in g.connections {
      OwnEdgeIff(g.connections[c]);
      FoundEdgeIsFirst(batch.connections, c, g.connections[c].revision);
    }
  }

  /** There is something the Memory rests on. */
  predicate Evidenced(receipts: seq<Receipt>, id: Id, o: ObjectRow) {
    o.provenance.sourceEvent.Some? || o.provenance.messages != [] || Attested(receipts, id, o)
  }

  lemma EvidencedIff(receipts: seq<Receipt>, id: Id, o: ObjectRow)
    ensures EvidenceKeys(o, FindReceipt(receipts, id, o)) != {} <==> Evidenced(receipts, id, o)
  {
    FoundIffAttested(receipts, id, o);
    hide FindReceipt;
    var keys := EvidenceKeys(o, FindReceipt(receipts, id, o));
    if o.provenance.sourceEvent.Some? { assert EventKey(o.provenance.sourceEvent.value) in keys; }
    if o.provenance.messages != [] { assert MessageKey(o.provenance.messages[0]) in keys; }
    if Attested(receipts, id, o) { assert ReceiptKey(FindReceipt(receipts, id, o).value) in keys; }
  }

  /** What maintenance stamps on a Memory it edits. */
  function EditedNow(o: ObjectRow): ObjectRow {
    o.(revision := o.revision + 1, updatedByType := System, updatedBy := "context-memory-dream")
  }

  function EdgeEditedNow(c: ConnRow): ConnRow {
    c.(revision := c.revision + 1, updatedByType := System, updatedBy := "context-memory-dream")
  }

  /** A rewrite is accepted exactly for a reviewed Memory of the system's own, not yet edited by the plan, that rests on
      something, with texts that meet the rules; it writes the two texts. */
  lemma RewriteIff(policy: Policy, g: Graph, h: Graph, receipts: seq<Receipt>, batch: Batch, touched: set<Id>, id: Id,
                   title: string, description: string, reason: string)
    ensures CanChange(policy, g, receipts, batch, touched, Rewrite(id, title, description, reason)) <==>
      && policy.reasonText(reason) && policy.memoryText(title, description) && id !in touched
      && MayEdit(g, receipts, batch, id) && Evidenced(receipts, id, g.objects[id])
    ensures id in g.objects ==>
      (ChangeEffect(g, h, Rewrite(id, title, description, reason)) <==>
       h == g.(objects := g.objects[id := EditedNow(g.objects[id]).(title := title, description := description)]))
  {
    MayEditIff(g, receipts, batch, id);
    hide Lockable, OwnMemory, Reviewed, Attested, Evidenced, EvidenceKeys, FindReceipt;
    if id in g.objects { EvidencedIff(receipts, id, g.objects[id]); }
  }

  predicate ActiveAt(g: Graph, c: Id, id: Id) {
    c in g.connections && !g.connections[c].archived && (g.connections[c].source == id || g.connections[c].target == id)
  }

  /** At most 25 active connections, each of them one that maintenance may edit. */
  ghost predicate MayRelease(g: Graph, batch: Batch, id: Id) {
    && |set c | c in g.connections && ActiveAt(g, c, id)| <= 25
    && forall c :: ActiveAt(g, c, id) ==> MayEditEdge(g, batch, c)
  }

  /** A connection of `id` can be said of `survivor` instead, or would become a loop. */
  ghost predicate MayMove(policy: Policy, g: Graph, c: Id, id: Id, survivor: Id)
    requires c in g.connections
  {
    var row := g.connections[c];
    var source, target := if row.source == id then survivor else row.source,
        if row.target == id then survivor else row.target;
    source != target ==>
      policy.edgeText(row.description) && source in g.objects && !g.objects[source].archived
      && target in g.objects && !g.objects[target].archived
  }

  lemma ReleaseIff(policy: Policy, g: Graph, batch: Batch, id: Id, survivor: Option<Id>)
    ensures CanRetire(policy, g, batch, id, survivor) <==>
      && MayRelease(g, batch, id)
      && forall c :: ActiveAt(g, c, id) && survivor.Some? ==> MayMove(policy, g, c, id, survivor.value)
  {
    hide LockableEdge, MayEditEdge;
    assert ActiveEdgesOf(g, id) == set c | c in g.connections && ActiveAt(g, c, id);
    forall c ensures LockableEdge(g, batch, c) <==> MayEditEdge(g, batch, c) { MayEditEdgeIff(g, batch, c); }
  }

  /** The active connections of `id` are archived, and no other changes. */
  ghost predicate Released(g: Graph, h: Graph, id: Id) {
    && g.connections.Keys <= h.connections.Keys
    && (forall c :: c in g.connections && !ActiveAt(g, c, id) ==> h.connections[c] == g.connections[c])
    && (forall c :: ActiveAt(g, c, id) ==> h.connections[c] == EdgeEditedNow(g.connections[c]).(archived := true))
  }

  /** A retirement is accepted exactly for such a Memory with at most 25 active connections, all open to maintenance; it
      archives the Memory and them. */
  lemma RetireIff(policy: Policy, g: Graph, h: Graph, receipts: seq<Receipt>, batch: Batch, touched: set<Id>, id: Id,
                  reason: string)
    ensures CanChange(policy, g, receipts, batch, touched, Retire(id, reason)) <==>
      policy.reasonText(reason) && id !in touched && MayEdit(g, receipts, batch, id) && MayRelease(g, batch, id)
    ensures id in g.objects && ChangeEffect(g, h, Retire(id, reason)) ==>
      && h.objects == g.objects[id := EditedNow(g.objects[id]).(archived := true)]
      && Released(g, h, id) && h.connections.Keys == g.connections.Keys
  {
    hide Lockable, MayEdit, MayRelease, CanRetire, LockableEdge;
    MayEditIff(g, receipts, batch, id);
    ReleaseIff(policy, g, batch, id, None);
  }

  /** The two Memories rest on the same: the same event, the same messages, the same receipt. */
  ghost predicate SameGrounds(receipts: seq<Receipt>, a: Id, oa: ObjectRow, b: Id, ob: ObjectRow) {
    && Evidenced(receipts, a, oa) && oa.provenance.sourceEvent == ob.provenance.sourceEvent
    && (forall m :: m in oa.provenance.messages <==> m in ob.provenance.messages)
    && FindReceipt(receipts, a, oa) == FindReceipt(receipts, b, ob)
    && oa.happenedAt == ob.happenedAt && oa.provenance.chat == ob.provenance.chat
  }

  lemma SameGroundsIff(receipts: seq<Receipt>, a: Id, oa: ObjectRow, b: Id, ob: ObjectRow)
    ensures SameEvent(oa, FindReceipt(receipts, a, oa), ob, FindReceipt(receipts, b, ob)) <==>
            SameGrounds(receipts, a, oa, b, ob)
  {
    EvidencedIff(receipts, a, oa);
    hide FindReceipt;
    var ra, rb := FindReceipt(receipts, a, oa), FindReceipt(receipts, b, ob);
    forall x: Id
      ensures EventKey(x) in EvidenceKeys(oa, ra) <==> oa.provenance.sourceEvent == Some(x)
      ensures MessageKey(x) in EvidenceKeys(oa, ra) <==> x in oa.provenance.messages
      ensures ReceiptKey(x) in EvidenceKeys(oa, ra) <==> ra == Some(x)
      ensures EventKey(x) in EvidenceKeys(ob, rb) <==> ob.provenance.sourceEvent == Some(x)
      ensures MessageKey(x) in EvidenceKeys(ob, rb) <==> x in ob.provenance.messages
      ensures ReceiptKey(x) in EvidenceKeys(ob, rb) <==> rb == Some(x)
    {
    }
    hide EvidenceKeys;
    SameKeys(oa, ra, ob, rb);
  }

  lemma SameKeys(oa: ObjectRow, ra: Option<Id>, ob: ObjectRow, rb: Option<Id>)
    ensures EvidenceKeys(oa, ra) == EvidenceKeys(ob, rb) <==>
      && oa.provenance.sourceEvent == ob.provenance.sourceEvent && ra == rb
      && forall m :: m in oa.provenance.messages <==> m in ob.provenance.messages
  {
    var ka, kb := EvidenceKeys(oa, ra), EvidenceKeys(ob, rb);
    if ka == kb {
      forall x: Id ensures ra == Some(x) <==> rb == Some(x) { assert ReceiptKey(x) in ka <==> ReceiptKey(x) in kb; }
      forall x: Id ensures oa.provenance.sourceEvent == Some(x) <==> ob.provenance.sourceEvent == Some(x) {
        assert EventKey(x) in ka <==> EventKey(x) in kb;
      }
      forall x ensures x in oa.provenance.messages <==> x in ob.provenance.messages {
        assert MessageKey(x) in ka <==> MessageKey(x) in kb;
      }
    }
  }

  /** A merge is accepted exactly for two such Memories that rest on the same, when every connection of the first can be
      said of the second. */
  lemma MergeIff(policy: Policy, g: Graph, receipts: seq<Receipt>, batch: Batch, touched: set<Id>, id: Id, survivor: Id,
                 title: string, description: string, reason: string)
    ensures CanChange(policy, g, receipts, batch, touched, Merge(id, survivor, title, description, reason)) <==>
      && policy.reasonText(reason) && policy.memoryText(title, description)
      && id != survivor && id !in touched && survivor !in touched
      && MayEdit(g, receipts, batch, id) && MayEdit(g, receipts, batch, survivor)
      && SameGrounds(receipts, id, g.objects[id], survivor, g.objects[survivor])
      && MayRelease(g, batch, id) && forall c :: ActiveAt(g, c, id) ==> MayMove(policy, g, c, id, survivor)
  {
    MayEditIff(g, receipts, batch, id);
    MayEditIff(g, receipts, batch, survivor);
    ReleaseIff(policy, g, batch, id, Some(survivor));
    hide Lockable, OwnMemory, Reviewed, Attested, MayRelease, CanRetire, LockableEdge, SameGrounds, SameEvent, MayMove;
    if id in g.objects && survivor in g.objects {
      SameGroundsIff(receipts, id, g.objects[id], survivor, g.objects[survivor]);
    }
  }

  /** The survivor gets the two texts and remembers the merged Memory; that one is archived and names the survivor; its
      connections are archived, and every new connection is one of them moved. */
  lemma MergeWrites(g: Graph, h: Graph, id: Id, survivor: Id, title: string, description: string, reason: string)
    requires id in g.objects && survivor in g.objects && id != survivor
    requires ChangeEffect(g, h, Merge(id, survivor, title, description, reason))
    ensures var o, s := g.objects[id], g.objects[survivor];
      && h.objects.Keys == g.objects.Keys
          && (forall x :: x in g.objects && x != id && x != survivor ==> h.objects[x] == g.objects[x])
      && h.objects[survivor] == EditedNow(s).(title := title, description := description,
           provenance := s.provenance.(mergedMemories := s.provenance.mergedMemories + [id]))
      && h.objects[id] == EditedNow(o).(archived := true, provenance := o.provenance.(mergedInto := Some(survivor)))
      && Released(g, h, id)
    ensures forall c :: c in h.connections && c !in g.connections ==>
      exists o :: ActiveAt(g, o, id) && MovedTo(h.connections[c], g.connections[o], id, survivor)
  {
    hide RedirectedFrom, Carried;
    forall c | c in h.connections && c !in g.connections
      ensures exists o :: ActiveAt(g, o, id) && MovedTo(h.connections[c], g.connections[o], id, survivor)
    {
      RedirectedIsMoved(g, h.connections[c], id, survivor);
    }
  }

  predicate MovedTo(n: ConnRow, o: ConnRow, id: Id, survivor: Id) {
    n == ConnRow(if o.source == id then survivor else o.source, o.kind, if o.target == id then survivor else o.target,
                 o.description, false, false, 1, System, System, "context-memory-dream")
  }

  lemma RedirectedIsMoved(g: Graph, row: ConnRow, id: Id, survivor: Id)
    requires RedirectedFrom(g, ActiveEdgesOf(g, id), row, id, survivor)
    ensures exists o :: ActiveAt(g, o, id) && MovedTo(row, g.connections[o], id, survivor)
  {
    hide Linked;
  }

  /** The connection says where a Memory of the batch comes from. */
  predicate Origin(batch: Batch, c: ConnRow) {
    || c.kind == "derived_from"
    || exists m :: m in batch.memories && (c.source == m.id || c.target == m.id) &&
         var other := if c.source == m.id then c.target else c.source;
         || m.row.provenance.chat == Some(other)
         || exists e :: e in batch.evidence && e.CommittedEvent? && m.row.provenance.sourceEvent == Some(e.id)
                        && e.subject == Some(other)
  }

  lemma OriginIff(batch: Batch, c: ConnRow)
    ensures ProvenanceEdge(batch, c) <==> Origin(batch, c)
  {
  }

  /** A disconnection is accepted exactly for a reviewed connection open to maintenance that does not say where a Memory
      comes from; it archives that one row. */
  lemma DisconnectIff(policy: Policy, g: Graph, h: Graph, receipts: seq<Receipt>, batch: Batch, touched: set<Id>, c: Id,
                      reason: string)
    ensures CanChange(policy, g, receipts, batch, touched, Disconnect(c, reason)) <==>
      policy.reasonText(reason) && MayEditEdge(g, batch, c) && !Origin(batch, g.connections[c])
    ensures c in g.connections ==>
      (ChangeEffect(g, h, Disconnect(c, reason)) <==>
       h == g.(connections := g.connections[c := EdgeEditedNow(g.connections[c]).(archived := true)]))
  {
    MayEditEdgeIff(g, batch, c);
    hide LockableEdge, OwnEdge, ReviewedEdge, Origin, ProvenanceEdge;
    if c in g.connections { OriginIff(batch, g.connections[c]); }
  }

  /** The batch supplies this end for a new connection: its first target of that id, else its first Memory. */
  ghost predicate Supplied(batch: Batch, id: Id, kind: string, revision: int) {
    || (exists k :: FirstTarget(batch.targets, id, k) && batch.targets[k] == TargetSnap(id, kind, revision))
    || ((forall x :: x in batch.targets ==> x.id != id)
        && exists k :: FirstListed(batch.memories, id, k) && ShownAs(batch.memories[k].row, kind, revision))
  }

  predicate ShownAs(o: ObjectRow, kind: string, revision: int) {
    o.kind == kind && o.revision == revision
  }

  ghost predicate FirstTarget(targets: seq<TargetSnap>, id: Id, k: int) {
    0 <= k < |targets| && targets[k].id == id && forall j :: 0 <= j < k ==> targets[j].id != id
  }

  lemma {:induction false} TargetIsFirst(targets: seq<TargetSnap>, id: Id)
    ensures forall k :: FirstTarget(targets, id, k) ==> FindTarget(targets, id) == Some(targets[k])
    ensures FindTarget(targets, id).Some? ==> exists k :: FirstTarget(targets, id, k)
    ensures FindTarget(targets, id).None? <==> forall x :: x in targets ==> x.id != id
  {
    if targets != [] && targets[0].id != id {
      var rest := targets[1..];
      TargetIsFirst(rest, id);
      forall k | FirstTarget(targets, id, k) ensures FindTarget(targets, id) == Some(targets[k]) {
        assert FirstTarget(rest, id, k - 1);
      }
      if FindTarget(rest, id).Some? {
        var k :| FirstTarget(rest, id, k);
        assert FirstTarget(targets, id, k + 1);
      }
    } else if targets != [] {
      assert FirstTarget(targets, id, 0);
    }
  }

  lemma SuppliedIff(batch: Batch, id: Id, kind: string, revision: int)
    ensures Supplied(batch, id, kind, revision) <==>
            (Endpoint(batch, id).Some? && Endpoint(batch, id).value.kind == kind
             && Endpoint(batch, id).value.revision == revision)
  {
    TargetIsFirst(batch.targets, id);
    FoundIsFirst(batch.memories, id);
    hide FindTarget, FindMemory;
    if Endpoint(batch, id).Some? {
      if FindTarget(batch.targets, id).Some? {
        var k :| FirstTarget(batch.targets, id, k);
      } else {
        var k :| FirstListed(batch.memories, id, k);
      }
    }
  }

  /** The Memory a new connection starts from, as the batch shows it. */
  ghost predicate ShownOwn(batch: Batch, memory: Id) {
    exists k :: FirstListed(batch.memories, memory, k)
             && OwnMemory(batch.memories[k].row, batch.memories[k].receipt.Some?)
  }

  lemma ShownOwnIff(batch: Batch, memory: Id)
    ensures ShownOwn(batch, memory) <==>
            (FindMemory(batch.memories, memory).Some?
             && Eligible(FindMemory(batch.memories, memory).value.row,
                         FindMemory(batch.memories, memory).value.receipt))
  {
    FoundIsFirst(batch.memories, memory);
    hide FindMemory;
    if FindMemory(batch.memories, memory).Some? { var k :| FirstListed(batch.memories, memory, k); }
  }

  ghost predicate Links(g: Graph, c: Id, source: Id, kind: string, target: Id) {
    ActiveEdge(g, c) && g.connections[c].source == source && g.connections[c].kind == kind
        && g.connections[c].target == target
  }

  /** The end is one the plan has already edited, or live and as it was shown; to another Memory only related_to. */
  ghost predicate MayEnd(g: Graph, batch: Batch, touched: set<Id>, target: Id, kind: string) {
    exists shown, revision :: Supplied(batch, target, shown, revision)
      && (target in touched || (Live(g, target) && g.objects[target].revision == revision))
      && (shown == "memory" ==> kind == "related_to")
  }

  lemma MayEndIff(g: Graph, batch: Batch, touched: set<Id>, target: Id, kind: string)
    ensures MayEnd(g, batch, touched, target, kind) <==>
            (var end := Endpoint(batch, target);
             && end.Some?
                 && (target in touched || (Live(g, target) && g.objects[target].revision == end.value.revision))
             && (end.value.kind == "memory" ==> kind == "related_to"))
  {
    forall shown, revision
      ensures Supplied(batch, target, shown, revision) <==>
        (Endpoint(batch, target).Some? && Endpoint(batch, target).value.kind == shown
         && Endpoint(batch, target).value.revision == revision)
    {
      SuppliedIff(batch, target, shown, revision);
    }
    hide Supplied, Endpoint;
    if Endpoint(batch, target).Some? {
      assert Supplied(batch, target, Endpoint(batch, target).value.kind, Endpoint(batch, target).value.revision);
    }
  }

  /** A new connection is accepted exactly from a Memory as the batch shows it, of one of four kinds, to an end as shown
      or edited by the plan; one that is there already must be open to maintenance. */
  lemma ConnectIff(policy: Policy, g: Graph, receipts: seq<Receipt>, batch: Batch, touched: set<Id>, memory: Id,
                   target: Id, kind: string, description: string, reason: string)
    requires UniqueActive(g)
    ensures CanChange(policy, g, receipts, batch, touched, Connect(memory, target, kind, description, reason)) <==>
      && policy.reasonText(reason) && policy.edgeText(description) && ShownOwn(batch, memory)
      && (kind == "about" || kind == "involves" || kind == "derived_from" || kind == "related_to")
      && MayEnd(g, batch, touched, target, kind)
      && (forall c :: Links(g, c, memory, kind, target) ==> MayEditEdge(g, batch, c))
      && ((exists c :: Links(g, c, memory, kind, target))
          || (memory != target && Live(g, memory) && Live(g, target)))
  {
    ShownOwnIff(batch, memory);
    MayEndIff(g, batch, touched, target, kind);
    hide ShownOwn, MayEnd, Endpoint, Eligible, FindMemory, LockableEdge, MayEditEdge;
    LinkedIff(g, memory, kind, target);
    forall c ensures LockableEdge(g, batch, c) <==> MayEditEdge(g, batch, c) { MayEditEdgeIff(g, batch, c); }
    hide Linked, LinkId;
  }

  lemma LinkedIff(g: Graph, source: Id, kind: string, target: Id)
    requires UniqueActive(g)
    ensures Linked(g, source, kind, target) <==> exists c :: Links(g, c, source, kind, target)
    ensures forall c :: Links(g, c, source, kind, target) ==>
      Linked(g, source, kind, target) && LinkId(g, source, kind, target) == c
  {
    if Linked(g, source, kind, target) { assert Links(g, LinkId(g, source, kind, target), source, kind, target); }
    forall c | Links(g, c, source, kind, target)
      ensures Linked(g, source, kind, target) && LinkId(g, source, kind, target) == c
    {
      assert Linked(g, source, kind, target);
      assert SameTriple(g.connections[c], g.connections[LinkId(g, source, kind, target)]);
    }
  }

  /** A connection there already gets the description, if it is another one; else one new active connection appears. */
  lemma ConnectWrites(g: Graph, h: Graph, memory: Id, target: Id, kind: string, description: string, reason: string)
    requires UniqueActive(g) && ChangeEffect(g, h, Connect(memory, target, kind, description, reason))
    ensures h.objects == g.objects
    ensures forall c :: Links(g, c, memory, kind, target) ==>
      h.connections == if g.connections[c].description == description then g.connections
                       else g.connections[c := EdgeEditedNow(g.connections[c]).(description := description)]
    ensures (exists c :: Links(g, c, memory, kind, target)) ||
      exists c: Id :: c !in g.connections && h.connections == g.connections[
        c := ConnRow(memory, kind, target, description, false, false, 1, System, System, "context-memory-dream")]
  {
    LinkedIff(g, memory, kind, target);
    hide Linked, LinkId;
  }

  // ----- the batch and the plan -----

  /** The approved set of connections is that of now, each at the revision approved. */
  ghost predicate EdgesApproved(g: Graph, id: Id, approved: map<Id, int>) {
    && (forall c :: c in approved <==> ActiveAt(g, c, id))
    && (forall c :: c in approved && ActiveAt(g, c, id) ==> approved[c] == g.connections[c].revision)
  }

  lemma EdgesApprovedIff(g: Graph, id: Id, approved: map<Id, int>)
    ensures EdgeVersions(g, id) == approved <==> EdgesApproved(g, id, approved)
  {
    var now := EdgeVersions(g, id);
    assert forall c :: c in now <==> ActiveAt(g, c, id);
    if EdgesApproved(g, id, approved) {
      assert now.Keys == approved.Keys && forall c :: c in now ==> now[c] == approved[c];
    }
  }

  /** What was reviewed is what is there: every Memory may still be edited, with the connections and the fingerprint
      approved, every connection shown is active at its revision, and so, in an approved batch, is its context. */
  ghost predicate Unchanged(policy: Policy, g: Graph, receipts: seq<Receipt>, batch: Batch) {
    && (forall m :: m in batch.memories ==> MayEdit(g, receipts, batch, m.id))
    && (forall k, id :: FirstListed(batch.memories, id, k) ==>
          && (batch.memories[k].approvedEdges.Some? ==> EdgesApproved(g, id, batch.memories[k].approvedEdges.value))
          && (batch.memories[k].fingerprint.Some? ==> policy.fingerprint(g, id) == batch.memories[k].fingerprint.value))
    && (forall s :: s in batch.connections ==>
          s.id in g.connections && !g.connections[s.id].archived && g.connections[s.id].revision == s.revision)
    && ((exists m :: m in batch.memories && m.approvedEdges.Some?) ==>
          && (forall e :: e in batch.evidence && e.ContextConnection? ==>
                e.id in g.connections && !g.connections[e.id].archived && g.connections[e.id].revision == e.revision)
          && (forall t :: t in batch.targets ==>
                t.id in g.objects && !g.objects[t.id].archived && g.objects[t.id].revision == t.revision))
  }

  /** The revalidation before any change finds exactly that. */
  lemma CurrentIff(policy: Policy, g: Graph, receipts: seq<Receipt>, batch: Batch)
    ensures BatchCurrent(policy, g, receipts, batch) <==> Unchanged(policy, g, receipts, batch)
  {
    hide MayEdit, Lockable, EdgesApproved, EdgeVersions, FindMemory;
    forall id ensures Lockable(g, receipts, batch, id) <==> MayEdit(g, receipts, batch, id) {
      MayEditIff(g, receipts, batch, id);
    }
    forall id, approved: map<Id, int> ensures EdgeVersions(g, id) == approved <==> EdgesApproved(g, id, approved) {
      EdgesApprovedIff(g, id, approved);
    }
    forall id, k | FirstListed(batch.memories, id, k)
      ensures FindMemory(batch.memories, id) == Some(batch.memories[k]) && batch.memories[k] in batch.memories
    {
      FoundIsFirst(batch.memories, id);
    }
    forall m | m in batch.memories ensures exists k :: FirstListed(batch.memories, m.id, k) {
      FoundIsFirst(batch.memories, m.id);
    }
  }

  predicate Edits(change: Change, id: Id) {
    || ((change.Rewrite? || change.Retire? || change.Merge?) && change.memory == id)
    || (change.Merge? && change.survivor == id)
  }

  /** The Memories the plan has edited so far: those it rewrote, retired or merged. */
  lemma {:induction false} TouchedIff(plan: seq<Change>, k: nat, id: Id)
    requires k <= |plan|
    ensures id in TouchedBefore(plan, k) <==>
      exists i :: 0 <= i < k && Edits(plan[i], id)
  {
    if k > 0 { TouchedIff(plan, k - 1, id); }
  }
}
