/** The Memory maintenance transaction: a reviewed plan applied change by change to the
    stored graph, every change journaled, and the recovery that replays a run's journal backwards. */
module DreamStore {
  import opened Wrappers
  import opened Collections
  import opened MemoryGraph
  import opened DreamJournal

  const MAX_CHANGES := 20
  const RETIRE_BUDGET := 25
  const DREAM_KINDS: set<string> := {"about", "involves", "derived_from", "related_to"}

  datatype RunStatus = Running | Preview | Completed | Failed | Reversed

  // ----- when a row may be locked for an edit -----

  predicate Lockable(g: Graph, receipts: seq<Receipt>, batch: Batch, id: Id) {
    var m := FindMemory(batch.memories, id);
    && m.Some? && id in g.objects
    && Eligible(g.objects[id], FindReceipt(receipts, id, g.objects[id]))
    && g.objects[id].revision == m.value.row.revision
  }

  predicate LockableEdge(g: Graph, batch: Batch, c: Id) {
    var s := FindConn(batch.connections, c);
    && s.Some? && c in g.connections && Editable(g.connections[c])
    && g.connections[c].revision == s.value.revision
    && exists m :: m in batch.memories && Touches(g.connections[c], m.id)
  }

  // ----- the rows a change writes -----

  function Stamped(o: ObjectRow): ObjectRow {
    o.(revision := o.revision + 1, updatedByType := System, updatedBy := DREAM_ACTOR)
  }

  function StampedEdge(c: ConnRow): ConnRow {
    c.(revision := c.revision + 1, updatedByType := System, updatedBy := DREAM_ACTOR)
  }

  function Rewritten(o: ObjectRow, title: string, description: string): ObjectRow {
    Stamped(o).(title := title, description := description)
  }

  function Survived(o: ObjectRow, title: string, description: string, merged: Id): ObjectRow {
    Rewritten(o, title,
              description).(provenance := o.provenance.(mergedMemories := o.provenance.mergedMemories + [merged]))
  }

  function Retired(o: ObjectRow, survivor: Option<Id>): ObjectRow {
    Stamped(o).(archived := true,
                provenance := if survivor.Some? then o.provenance.(mergedInto := survivor) else o.provenance)
  }

  function NewEdge(source: Id, kind: string, target: Id, description: string): ConnRow {
    ConnRow(source, kind, target, description, false, false, 1, System, System, DREAM_ACTOR)
  }

  /** Where a connection of `id` points once `id` is merged into `survivor`. */
  function Redirect(id: Id, survivor: Id, end: Id): Id {
    if end == id then survivor else end
  }

  function LinkId(g: Graph, source: Id, kind: string, target: Id): (c: Id)
    requires Linked(g, source, kind, target)
    ensures ActiveEdge(g, c) && g.connections[c].source == source && g.connections[c].kind == kind
        && g.connections[c].target == target
  {
    var links := set c | c in g.connections && !g.connections[c].archived && g.connections[c].source == source
                      && g.connections[c].kind == kind && g.connections[c].target == target;
    assert links != {} by {
      var c :| c in g.connections && !g.connections[c].archived && g.connections[c].source == source
            && g.connections[c].kind == kind && g.connections[c].target == target;
      assert c in links;
    }
    Least(links)
  }

  // ----- when each change is accepted -----

  predicate CanRedirect(policy: Policy, g: Graph, row: ConnRow, id: Id, survivor: Id) {
    var s, t := Redirect(id, survivor, row.source), Redirect(id, survivor, row.target);
    s != t ==> policy.edgeText(row.description) && Live(g, s) && Live(g, t)
  }

  predicate CanRetireEdge(policy: Policy, g: Graph, batch: Batch, id: Id, survivor: Option<Id>, c: Id) {
    LockableEdge(g, batch, c) && (survivor.Some? ==> CanRedirect(policy, g, g.connections[c], id, survivor.value))
  }

  predicate CanRetire(policy: Policy, g: Graph, batch: Batch, id: Id, survivor: Option<Id>) {
    && |ActiveEdgesOf(g, id)| <= RETIRE_BUDGET
    && forall c :: c in ActiveEdgesOf(g, id) ==> CanRetireEdge(policy, g, batch, id, survivor, c)
  }

  predicate CanConnect(policy: Policy, g: Graph, batch: Batch, touched: set<Id>, memory: Id, target: Id, kind: string,
                       description: string) {
    var m, end := FindMemory(batch.memories, memory), Endpoint(batch, target);
    && m.Some? && Eligible(m.value.row, m.value.receipt) && end.Some? && kind in DREAM_KINDS
    && (target in touched || (Live(g, target) && g.objects[target].revision == end.value.revision))
    && (end.value.kind == "memory" ==> kind == "related_to")
    && policy.edgeText(description)
    && if Linked(g, memory, kind, target) then LockableEdge(g, batch, LinkId(g, memory, kind, target))
       else memory != target && Live(g, memory) && Live(g, target)
  }

  predicate CanChange(policy: Policy, g: Graph, receipts: seq<Receipt>, batch: Batch, touched: set<Id>,
                      change: Change) {
    policy.reasonText(change.reason) &&
    match change
    case Rewrite(id, title, description, _) =>
      && id !in touched && Lockable(g, receipts, batch, id) && policy.memoryText(title, description)
      && EvidenceKeys(g.objects[id], FindReceipt(receipts, id, g.objects[id])) != {}
    case Retire(id, _) =>
      id !in touched && Lockable(g, receipts, batch, id) && CanRetire(policy, g, batch, id, None)
    case Merge(id, survivor, title, description, _) =>
      && id != survivor && id !in touched && survivor !in touched
      && Lockable(g, receipts, batch, id) && Lockable(g, receipts, batch, survivor)
      && SameEvent(g.objects[id], FindReceipt(receipts, id, g.objects[id]),
                   g.objects[survivor], FindReceipt(receipts, survivor, g.objects[survivor]))
      && policy.memoryText(title, description)
      && CanRetire(policy, g, batch, id, Some(survivor))
    case Disconnect(c, _) =>
      LockableEdge(g, batch, c) && !ProvenanceEdge(batch, g.connections[c])
    case Connect(memory, target, kind, description, _) =>
      CanConnect(policy, g, batch, touched, memory, target, kind, description)
  }

  function TouchedAfter(touched: set<Id>, change: Change): set<Id> {
    match change
    case Rewrite(id, _, _, _) => touched + {id}
    case Retire(id, _) => touched + {id}
    case Merge(id, survivor, _, _, _) => touched + {id, survivor}
    case Disconnect(_, _) => touched
    case Connect(_, _, _, _, _) => touched
  }

  // ----- what each change does -----

  function RetiredEdge(g: Graph, c: Id, id: Id): ConnRow
    requires c in g.connections
  {
    if c in ActiveEdgesOf(g, id) then StampedEdge(g.connections[c]).(archived := true) else g.connections[c]
  }

  /** Every active connection of `id` is archived, and each redirected one is linked at the survivor;
      a connection of h that g lacked is such a redirection that g did not have. */
  ghost predicate RetiredEdges(g: Graph, h: Graph, id: Id, survivor: Option<Id>) {
    && g.connections.Keys <= h.connections.Keys
    && (forall c :: c in g.connections ==> h.connections[c] == RetiredEdge(g, c, id))
    && (forall c :: c in h.connections && c !in g.connections ==>
          survivor.Some? && RedirectedFrom(g, ActiveEdgesOf(g, id), h.connections[c], id, survivor.value))
    && (survivor.Some? ==> forall c :: c in ActiveEdgesOf(g, id) ==> Carried(g, h, c, id, survivor.value))
  }

  /** `row` redirects one of `edges` and was not linked in g. */
  ghost predicate RedirectedFrom(g: Graph, edges: set<Id>, row: ConnRow, id: Id, survivor: Id) {
    exists o :: o in edges && o in g.connections
      && row == NewEdge(Redirect(id, survivor, g.connections[o].source), g.connections[o].kind,
                        Redirect(id, survivor, g.connections[o].target), g.connections[o].description)
      && row.source != row.target
      && !Linked(g, row.source, row.kind, row.target)
  }

  /** What connection c of g said is said in h at the survivor, unless it became a self-edge. */
  ghost predicate Carried(g: Graph, h: Graph, c: Id, id: Id, survivor: Id)
    requires c in g.connections
  {
    var row := g.connections[c];
    Redirect(id, survivor, row.source) != Redirect(id, survivor, row.target) ==>
      Linked(h, Redirect(id, survivor, row.source), row.kind, Redirect(id, survivor, row.target))
  }

  ghost predicate ChangeEffect(g: Graph, h: Graph, change: Change) {
    match change
    case Rewrite(id, title, description, _) =>
      id in g.objects && h == g.(objects := g.objects[id := Rewritten(g.objects[id], title, description)])
    case Retire(id, _) =>
      && id in g.objects && h.objects == g.objects[id := Retired(g.objects[id], None)]
      && RetiredEdges(g, h, id, None)
    case Merge(id, survivor, title, description, _) =>
      && id in g.objects && survivor in g.objects
      && h.objects == g.objects[survivor := Survived(g.objects[survivor], title, description, id)]
                               [id := Retired(g.objects[id], Some(survivor))]
      && RetiredEdges(g, h, id, Some(survivor))
    case Disconnect(c, _) =>
      && c in g.connections
      && h == g.(connections := g.connections[c := StampedEdge(g.connections[c]).(archived := true)])
    case Connect(memory, target, kind, description, _) =>
      if Linked(g, memory, kind, target) then
        var c := LinkId(g, memory, kind, target);
        if g.connections[c].description == description then h == g
        else h == g.(connections := g.connections[c := StampedEdge(g.connections[c]).(description := description)])
      else
        exists c: Id :: c !in g.connections
            && h == g.(connections := g.connections[c := NewEdge(memory, kind, target, description)])
  }

  // ----- the open transaction -----

  /** An entry only ever edits an eligible Memory or an editable connection of the batch. */
  ghost predicate Permitted(receipts: seq<Receipt>, batch: Batch, e: Entry) {
    match e
    case ObjectEntry(_, _, id, was, _) =>
      was.Some? && FindMemory(batch.memories, id).Some? && Eligible(was.value, FindReceipt(receipts, id, was.value))
    case ConnEntry(_, _, id, Some(was), _) =>
      FindConn(batch.connections, id).Some? && Editable(was) && exists m :: m in batch.memories && Touches(was, m.id)
    case ConnEntry(_, _, id, None, _) => FindConn(batch.connections, id).None?
  }

  /** What a journaled target looks like afterwards: one revision past the reviewed one, so it cannot be locked again.
      */
  ghost predicate Spent(batch: Batch, g: Graph, e: Entry) {
    match e
    case ObjectEntry(_, _, id, _, _) =>
      id in g.objects &&
      var m := FindMemory(batch.memories, id);
      m.Some? && g.objects[id].revision == m.value.row.revision + 1
    case ConnEntry(_, _, id, was, _) =>
      id in g.connections &&
      (was.Some? ==>
       var s := FindConn(batch.connections, id); s.Some? && g.connections[id].revision == s.value.revision + 1)
  }

  ghost predicate TxValid(receipts: seq<Receipt>, batch: Batch, run: Id, trace: seq<Graph>, pending: seq<Entry>,
                          g: Graph) {
    && Trace(trace, pending) && trace[|pending|] == g
    && DistinctTargets(pending)
    && (forall i :: 0 <= i < |pending| ==> pending[i].run == run && pending[i].seqNo == i + 1)
    && (forall i :: 0 <= i < |pending| ==> Permitted(receipts, batch, pending[i]) && Spent(batch, g, pending[i]))
    && (forall s :: s in batch.connections ==> s.id in g.connections)
  }

  lemma Extend(receipts: seq<Receipt>, batch: Batch, run: Id, trace: seq<Graph>, pending: seq<Entry>, g: Graph,
               e: Entry, h: Graph)
    requires TxValid(receipts, batch, run, trace, pending, g)
    requires Step(g, e, h) && Permitted(receipts, batch, e) && Spent(batch, h, e)
    requires e.run == run && e.seqNo == |pending| + 1
    requires forall i :: 0 <= i < |pending| ==> !SameTarget(pending[i], e)
    ensures TxValid(receipts, batch, run, trace + [h], pending + [e], h)
  {
    var t, p := trace + [h], pending + [e];
    forall i | 0 <= i < |p| ensures Step(t[i], p[i], t[i + 1]) {
      if i < |pending| { assert Step(trace[i], pending[i], trace[i + 1]); }
    }
    forall i | 0 <= i < |p| ensures Permitted(receipts, batch, p[i]) && Spent(batch, h, p[i]) {
      if i < |pending| { assert Spent(batch, g, pending[i]); }
    }
  }

  // ----- whole plans -----

  predicate PlanTextOk(policy: Policy, plan: seq<Change>) {
    forall c :: c in plan && (c.Rewrite? || c.Merge?) ==> policy.memoryText(c.title, c.description)
  }

  function EdgeVersions(g: Graph, id: Id): map<Id, int> {
    map c | c in ActiveEdgesOf(g, id) :: g.connections[c].revision
  }

  predicate MemoryCurrent(policy: Policy, g: Graph, receipts: seq<Receipt>, batch: Batch, id: Id) {
    && Lockable(g, receipts, batch, id)
    && var m := FindMemory(batch.memories, id).value;
       && (m.approvedEdges.Some? ==> EdgeVersions(g, id) == m.approvedEdges.value)
       && (m.fingerprint.Some? ==> policy.fingerprint(g, id) == m.fingerprint.value)
  }

  predicate EdgeCurrent(g: Graph, id: Id, revision: int) {
    ActiveEdge(g, id) && g.connections[id].revision == revision
  }

  /** The full input is what was reviewed; an approved batch also pins its context and targets. */
  predicate BatchCurrent(policy: Policy, g: Graph, receipts: seq<Receipt>, batch: Batch) {
    && (forall m :: m in batch.memories ==> MemoryCurrent(policy, g, receipts, batch, m.id))
    && (forall s :: s in batch.connections ==> EdgeCurrent(g, s.id, s.revision))
    && ((exists m :: m in batch.memories && m.approvedEdges.Some?) ==>
          && (forall e :: e in batch.evidence && e.ContextConnection? ==> EdgeCurrent(g, e.id, e.revision))
          && (forall t :: t in batch.targets ==> Live(g, t.id) && g.objects[t.id].revision == t.revision))
  }

  /** The Memories edited by the first k changes. */
  function TouchedBefore(plan: seq<Change>, k: nat): set<Id>
    requires k <= |plan|
  {
    if k == 0 then {} else TouchedAfter(TouchedBefore(plan, k - 1), plan[k - 1])
  }

  /** states[i] is the graph before change i; each of the first k changes was accepted there and had its effect. */
  ghost predicate Applies(policy: Policy, receipts: seq<Receipt>, batch: Batch, plan: seq<Change>, k: nat,
                          states: seq<Graph>) {
    && k <= |plan| && |states| == k + 1
    && forall i :: 0 <= i < k ==> AppliesAt(policy, receipts, batch, plan, i, states[i], states[i + 1])
  }

  ghost predicate AppliesAt(policy: Policy, receipts: seq<Receipt>, batch: Batch, plan: seq<Change>, i: nat, g: Graph,
                            h: Graph)
    requires i < |plan|
  {
    CanChange(policy, g, receipts, batch, TouchedBefore(plan, i), plan[i]) && ChangeEffect(g, h, plan[i])
  }

  /** The plan stopped at its first change that is not accepted. */
  ghost predicate StopsAt(policy: Policy, receipts: seq<Receipt>, batch: Batch, plan: seq<Change>, states: seq<Graph>) {
    && 1 <= |states| <= |plan|
    && Applies(policy, receipts, batch, plan, |states| - 1, states)
    && !CanChange(policy, states[|states| - 1], receipts, batch, TouchedBefore(plan, |states| - 1), plan[|states| - 1])
  }

  datatype Outcome = Applied | Replayed | Rejected

  function EntriesOf(journal: seq<Entry>, run: Id): (entries: seq<Entry>)
    ensures forall e :: e in entries ==> e in journal && e.run == run
  {
    if journal == [] then []
    else EntriesOf(journal[..|journal| - 1], run)
         + (if journal[|journal| - 1].run == run then [journal[|journal| - 1]] else [])
  }

  lemma {:induction false} NoEntriesOf(journal: seq<Entry>, run: Id)
    requires forall e :: e in journal ==> e.run != run
    ensures EntriesOf(journal, run) == []
  {
    if journal == [] {
    } else {
      assert journal[|journal| - 1] in journal;
      NoEntriesOf(journal[..|journal| - 1], run);
    }
  }

  lemma LastEntry(journal: seq<Entry>, e: Entry, run: Id)
    ensures EntriesOf(journal + [e], run) == EntriesOf(journal, run) + (if e.run == run then [e] else [])
  {
    assert (journal + [e])[..|journal|] == journal;
  }

  lemma {:induction false} EntriesOfAppend(journal: seq<Entry>, more: seq<Entry>, run: Id)
    requires forall e :: e in journal ==> e.run != run
    requires forall e :: e in more ==> e.run == run
    ensures EntriesOf(journal + more, run) == more
  {
    if more == [] {
      assert journal + more == journal;
      NoEntriesOf(journal, run);
    } else {
      var init, last := more[..|more| - 1], more[|more| - 1];
      assert last in more && more == init + [last] && journal + more == journal + init + [last];
      hide EntriesOf;
      EntriesOfAppend(journal, init, run);
      LastEntry(journal + init, last, run);
    }
  }

  class Store {
    var objects: map<Id, ObjectRow>
    var connections: map<Id, ConnRow>
    var journal: seq<Entry>
    var runs: map<Id, RunStatus>
    var cutover: bool
    const receipts: seq<Receipt>
    // the open transaction: its uncommitted journal rows, and the graph after each of them
    var pending: seq<Entry>
    ghost var trace: seq<Graph>

    constructor (objects: map<Id, ObjectRow>, connections: map<Id, ConnRow>, receipts: seq<Receipt>)
      ensures G() == Graph(objects, connections) && journal == [] && runs == map[] && !cutover
          && this.receipts == receipts
    {
      this.objects, this.connections, this.receipts := objects, connections, receipts;
      journal, runs, cutover, pending := [], map[], false, [];
      trace := [Graph(objects, connections)];
    }

    function G(): Graph
      reads this
    {
      Graph(objects, connections)
    }

    ghost predicate InTx(batch: Batch, run: Id)
      reads this
    {
      TxValid(receipts, batch, run, trace, pending, G())
    }

    method SetObject(batch: Batch, run: Id, id: Id, after: ObjectRow)
      requires InTx(batch, run)
      requires Lockable(G(), receipts, batch, id)
      requires after
          == objects[id].(title := after.title, description := after.description, provenance := after.provenance,
                                     archived := after.archived, revision := objects[id].revision + 1,
                                     updatedByType := System, updatedBy := DREAM_ACTOR)
      requires after.archived ==> ActiveEdgesOf(G(), id) == {}
      modifies this`objects, this`pending, this`trace
      ensures InTx(batch, run) && trace[0] == old(trace[0])
      ensures objects == old(objects)[id := after]
    {
      ghost var g := G();
      var e := ObjectEntry(run, |pending| + 1, id, Some(objects[id]), after.revision);
      forall i | 0 <= i < |pending| ensures !SameTarget(pending[i], e) {
        assert Spent(batch, g, pending[i]);
      }
      forall c | ActiveEdge(g, c) && after.archived ensures !Touches(g.connections[c], id) {
        assert c !in ActiveEdgesOf(g, id);
      }
      objects := objects[id := after];
      assert Step(g, e, G());
      Extend(receipts, batch, run, trace, pending, g, e, G());
      pending := pending + [e];
      trace := trace + [G()];
    }

    method SetEdge(batch: Batch, run: Id, id: Id, after: ConnRow)
      requires InTx(batch, run)
      requires LockableEdge(G(), batch, id)
      requires after == StampedEdge(connections[id]).(description := after.description, archived := after.archived)
      modifies this`connections, this`pending, this`trace
      ensures InTx(batch, run) && trace[0] == old(trace[0])
      ensures connections == old(connections)[id := after]
    {
      ghost var g := G();
      var e := ConnEntry(run, |pending| + 1, id, Some(connections[id]), after.revision);
      forall i | 0 <= i < |pending| ensures !SameTarget(pending[i], e) {
        assert Spent(batch, g, pending[i]) && Permitted(receipts, batch, pending[i]);
      }
      connections := connections[id := after];
      assert Step(g, e, G());
      Extend(receipts, batch, run, trace, pending, g, e, G());
      pending := pending + [e];
      trace := trace + [G()];
    }

    method AddEdge(policy: Policy, batch: Batch, run: Id, source: Id, target: Id, kind: string, description: string)
      returns (ok: bool)
      requires InTx(batch, run)
      modifies this`connections, this`pending, this`trace
      ensures InTx(batch, run) && trace[0] == old(trace[0])
      ensures ok <==>
          source != target && policy.edgeText(description) && Live(old(G()), source) && Live(old(G()), target)
      ensures !ok || Linked(old(G()), source, kind, target) ==> connections == old(connections)
      ensures ok && !Linked(old(G()), source, kind, target) ==>
                exists c: Id :: c !in old(connections)
                    && connections == old(connections)[c := NewEdge(source, kind, target, description)]
    {
      if source == target || !policy.edgeText(description) { return false; }
      if !Live(G(), source) || !Live(G(), target) { return false; }
      if Linked(G(), source, kind, target) { return true; }
      ghost var g := G();
      var id := Fresh(connections.Keys);
      var e := ConnEntry(run, |pending| + 1, id, None, 1);
      forall i | 0 <= i < |pending| ensures !SameTarget(pending[i], e) {
        assert Spent(batch, g, pending[i]);
      }
      connections := connections[id := NewEdge(source, kind, target, description)];
      assert Step(g, e, G());
      Extend(receipts, batch, run, trace, pending, g, e, G());
      pending := pending + [e];
      trace := trace + [G()];
      ok := true;
    }

    /** One connection of a retiring Memory: locked, carried over when merging, then archived.
        `g` and `done` are the graph the retirement started from and the connections already handled. */
    method RetireEdge(policy: Policy, batch: Batch, run: Id, id: Id, survivor: Option<Id>, c: Id, ghost g: Graph,
                      ghost done: set<Id>)
      returns (ok: bool)
      requires InTx(batch, run) && survivor != Some(id) && objects == g.objects
      requires RetiredSoFar(policy, batch, g, G(), id, survivor, done)
      requires c in ActiveEdgesOf(g, id) && c !in done
      modifies this`connections, this`pending, this`trace
      ensures InTx(batch, run) && trace[0] == old(trace[0])
      ensures ok <==> CanRetireEdge(policy, g, batch, id, survivor, c)
      ensures ok ==> RetiredSoFar(policy, batch, g, G(), id, survivor, done + {c})
    {
      var original := connections[c];
      if !LockableEdge(G(), batch, c) { return false; }
      ghost var before := G();
      if survivor.Some? {
        var source, target := Redirect(id, survivor.value, original.source),
            Redirect(id, survivor.value, original.target);
        if source != target {
          var linked := AddEdge(policy, batch, run, source, target, original.kind, original.description);
          if !linked { return false; }
        }
      }
      ghost var mid := G();
      SetEdge(batch, run, c, StampedEdge(original).(archived := true));
      OneMoreRetired(policy, batch, g, before, mid, G(), id, survivor, done, c);
      ok := true;
    }

    /** Handles the active connections of a retiring Memory in id order. */
    method RetireEdges(policy: Policy, batch: Batch, run: Id, id: Id, survivor: Option<Id>) returns (ok: bool)
      requires InTx(batch, run) && survivor != Some(id)
      modifies this`connections, this`pending, this`trace
      ensures InTx(batch, run) && trace[0] == old(trace[0])
      ensures ok <==>
          forall c :: c in ActiveEdgesOf(old(G()), id) ==> CanRetireEdge(policy, old(G()), batch, id, survivor, c)
      ensures ok ==> RetiredSoFar(policy, batch, old(G()), G(), id, survivor, ActiveEdgesOf(old(G()), id))
    {
      ghost var g := G();
      var edges := ActiveEdgesOf(G(), id);
      var todo := edges;
      while todo != {}
        invariant InTx(batch, run) && trace[0] == old(trace[0])
        invariant todo <= edges && g == old(G()) && objects == g.objects
        invariant RetiredSoFar(policy, batch, g, G(), id, survivor, edges - todo)
        decreases todo
      {
        var c := Least(todo);
        var done := RetireEdge(policy, batch, run, id, survivor, c, g, edges - todo);
        if !done { return false; }
        assert edges - (todo - {c}) == (edges - todo) + {c};
        todo := todo - {c};
      }
      assert edges - todo == edges;
      ok := true;
    }

    /** Archives a Memory and its active connections; when merging, each connection is first carried over to the
        survivor. */
    method RetireMemory(policy: Policy, batch: Batch, run: Id, id: Id, survivor: Option<Id>) returns (ok: bool)
      requires InTx(batch, run)
      requires Lockable(G(), receipts, batch, id) && survivor != Some(id)
      modifies this`objects, this`connections, this`pending, this`trace
      ensures InTx(batch, run) && trace[0] == old(trace[0])
      ensures ok <==> CanRetire(policy, old(G()), batch, id, survivor)
      ensures ok ==> objects == old(objects)[id := Retired(old(objects)[id], survivor)]
      ensures ok ==> RetiredEdges(old(G()), G(), id, survivor)
    {
      if |ActiveEdgesOf(G(), id)| > RETIRE_BUDGET { return false; }
      ok := RetireEdges(policy, batch, run, id, survivor);
      if ok {
        ghost var mid := G();
        AllRetired(policy, batch, old(G()), mid, id, survivor);
        SetObject(batch, run, id, Retired(objects[id], survivor));
        RetiredEdgesOnly(old(G()), old(G()), mid, G(), id, survivor);
      }
    }

    method ApplyRewrite(policy: Policy, batch: Batch, run: Id, touched: set<Id>, change: Change) returns (ok: bool)
      requires change.Rewrite? && InTx(batch, run)
      modifies this`objects, this`pending, this`trace
      ensures InTx(batch, run) && trace[0] == old(trace[0])
      ensures ok <==> CanChange(policy, old(G()), receipts, batch, touched, change)
      ensures ok ==> ChangeEffect(old(G()), G(), change)
    {
      var id := change.memory;
      if !policy.reasonText(change.reason) || id in touched || !Lockable(G(), receipts, batch, id) { return false; }
      if !policy.memoryText(change.title, change.description) { return false; }
      if EvidenceKeys(objects[id], FindReceipt(receipts, id, objects[id])) == {} { return false; }
      SetObject(batch, run, id, Rewritten(objects[id], change.title, change.description));
      ok := true;
    }

    method ApplyRetire(policy: Policy, batch: Batch, run: Id, touched: set<Id>, change: Change) returns (ok: bool)
      requires change.Retire? && InTx(batch, run)
      modifies this`objects, this`connections, this`pending, this`trace
      ensures InTx(batch, run) && trace[0] == old(trace[0])
      ensures ok <==> CanChange(policy, old(G()), receipts, batch, touched, change)
      ensures ok ==> ChangeEffect(old(G()), G(), change)
    {
      var id := change.memory;
      if !policy.reasonText(change.reason) || id in touched || !Lockable(G(), receipts, batch, id) { return false; }
      ok := RetireMemory(policy, batch, run, id, None);
    }

    method ApplyMerge(policy: Policy, batch: Batch, run: Id, touched: set<Id>, change: Change) returns (ok: bool)
      requires change.Merge? && InTx(batch, run)
      modifies this`objects, this`connections, this`pending, this`trace
      ensures InTx(batch, run) && trace[0] == old(trace[0])
      ensures ok <==> CanChange(policy, old(G()), receipts, batch, touched, change)
      ensures ok ==> ChangeEffect(old(G()), G(), change)
    {
      ghost var g := G();
      var id, survivor := change.memory, change.survivor;
      if !policy.reasonText(change.reason) || id == survivor || id in touched || survivor in touched { return false; }
      if !Lockable(G(), receipts, batch, id) || !Lockable(G(), receipts, batch, survivor) { return false; }
      if !SameEvent(objects[id], FindReceipt(receipts, id, objects[id]), objects[survivor],
                    FindReceipt(receipts, survivor, objects[survivor])) {
        return false;
      }
      if !policy.memoryText(change.title, change.description) { return false; }
      SetObject(batch, run, survivor, Survived(objects[survivor], change.title, change.description, id));
      ghost var mid := G();
      SurvivorKeepsGuards(policy, g, mid, batch, id, survivor);
      ok := RetireMemory(policy, batch, run, id, Some(survivor));
      if ok { RetiredEdgesOnly(mid, g, G(), G(), id, Some(survivor)); }
    }

    method ApplyDisconnect(policy: Policy, batch: Batch, run: Id, touched: set<Id>, change: Change) returns (ok: bool)
      requires change.Disconnect? && InTx(batch, run)
      modifies this`connections, this`pending, this`trace
      ensures InTx(batch, run) && trace[0] == old(trace[0])
      ensures ok <==> CanChange(policy, old(G()), receipts, batch, touched, change)
      ensures ok ==> ChangeEffect(old(G()), G(), change)
    {
      var c := change.connection;
      if !policy.reasonText(change.reason) || !LockableEdge(G(), batch, c) { return false; }
      if ProvenanceEdge(batch, connections[c]) { return false; }
      SetEdge(batch, run, c, StampedEdge(connections[c]).(archived := true));
      ok := true;
    }

    method ApplyConnect(policy: Policy, batch: Batch, run: Id, touched: set<Id>, change: Change) returns (ok: bool)
      requires change.Connect? && InTx(batch, run)
      modifies this`connections, this`pending, this`trace
      ensures InTx(batch, run) && trace[0] == old(trace[0])
      ensures ok <==> CanChange(policy, old(G()), receipts, batch, touched, change)
      ensures ok ==> ChangeEffect(old(G()), G(), change)
    {
      var memory, target, kind := change.memory, change.target, change.kind;
      var m, end := FindMemory(batch.memories, memory), Endpoint(batch, target);
      if !policy.reasonText(change.reason) || m.None? || !Eligible(m.value.row, m.value.receipt) || end.None?
          || kind !in DREAM_KINDS {
        return false;
      }
      if target !in touched && !(Live(G(), target) && objects[target].revision == end.value.revision) { return false; }
      if end.value.kind == "memory" && kind != "related_to" { return false; }
      if Linked(G(), memory, kind, target) {
        var c := LinkId(G(), memory, kind, target);
        if !LockableEdge(G(), batch, c) || !policy.edgeText(change.description) { return false; }
        if connections[c].description != change.description {
          SetEdge(batch, run, c, StampedEdge(connections[c]).(description := change.description));
        }
        return true;
      }
      ok := AddEdge(policy, batch, run, memory, target, kind, change.description);
    }

    method ApplyChange(policy: Policy, batch: Batch, run: Id, touched: set<Id>, change: Change) returns (ok: bool)
      requires InTx(batch, run)
      modifies this`objects, this`connections, this`pending, this`trace
      ensures InTx(batch, run) && trace[0] == old(trace[0])
      ensures ok <==> CanChange(policy, old(G()), receipts, batch, touched, change)
      ensures ok ==> ChangeEffect(old(G()), G(), change)
    {
      match change
      case Rewrite(_, _, _, _) => ok := ApplyRewrite(policy, batch, run, touched, change);
      case Retire(_, _) => ok := ApplyRetire(policy, batch, run, touched, change);
      case Merge(_, _, _, _, _) => ok := ApplyMerge(policy, batch, run, touched, change);
      case Disconnect(_, _) => ok := ApplyDisconnect(policy, batch, run, touched, change);
      case Connect(_, _, _, _, _) => ok := ApplyConnect(policy, batch, run, touched, change);
    }

    /** The loop over the plan's changes inside the open transaction. */
    method ApplyChanges(policy: Policy, batch: Batch, run: Id, plan: seq<Change>)
        returns (ok: bool, ghost states: seq<Graph>)
      requires InTx(batch, run)
      modifies this`objects, this`connections, this`pending, this`trace
      ensures InTx(batch, run) && trace[0] == old(trace[0])
      ensures |states| > 0 && states[0] == old(G())
      ensures ok ==> Applies(policy, receipts, batch, plan, |plan|, states) && states[|plan|] == G()
      ensures !ok ==> StopsAt(policy, receipts, batch, plan, states)
    {
      var touched: set<Id> := {};
      states := [G()];
      for i := 0 to |plan|
        invariant InTx(batch, run) && trace[0] == old(trace[0])
        invariant Applies(policy, receipts, batch, plan, i, states)
        invariant states[0] == old(G()) && states[i] == G()
        invariant touched == TouchedBefore(plan, i)
      {
        ok := ApplyChange(policy, batch, run, touched, plan[i]);
        if !ok { return; }
        assert AppliesAt(policy, receipts, batch, plan, i, states[i], G());
        states := states + [G()];
        touched := TouchedAfter(touched, plan[i]);
      }
      ok := true;
    }

    /** Applies a reviewed plan in one transaction: all of it, or nothing. A preview applies it and rolls back. */
    method ApplyPlan(policy: Policy, batch: Batch, run: Id, plan: seq<Change>, preview: bool)
      returns (outcome: Outcome, ghost states: seq<Graph>, ghost steps: seq<Graph>, ghost written: seq<Entry>)
      modifies this
      ensures !PlanTextOk(policy, plan) || |plan| > MAX_CHANGES ==> outcome == Rejected
      ensures PlanTextOk(policy, plan) && |plan| <= MAX_CHANGES ==>
                (outcome == Replayed <==> run in old(runs) && old(runs)[run] == Completed)
      ensures outcome == Applied ==>
                && run in old(runs) && (old(runs)[run] == Running || (preview && old(runs)[run] == Preview))
                && !old(cutover) && BatchCurrent(policy, old(G()), receipts, batch)
                && Applies(policy, receipts, batch, plan, |plan|, states) && states[0] == old(G())
                && TxValid(receipts, batch, run, steps, written, states[|plan|]) && steps[0] == old(G())
      ensures outcome == Applied && !preview ==>
                && G() == states[|plan|] && journal == old(journal) + written && runs == old(runs)[run := Completed]
      ensures outcome != Applied || preview ==> G() == old(G()) && journal == old(journal) && runs == old(runs)
      ensures outcome == Rejected && PlanTextOk(policy, plan) && |plan| <= MAX_CHANGES ==>
                || run !in old(runs) || old(cutover)
                || !(old(runs)[run] == Running || (preview && old(runs)[run] == Preview))
                || !BatchCurrent(policy, old(G()), receipts, batch)
                || (StopsAt(policy, receipts, batch, plan, states) && states[0] == old(G()))
      ensures cutover == old(cutover)
    {
      states, steps, written := [], [], [];
      outcome := Rejected;
      if !PlanTextOk(policy, plan) || |plan| > MAX_CHANGES { return; }
      if run in runs && runs[run] == Completed {
        outcome := Replayed;
        return;
      }
      if run !in runs || !(runs[run] == Running || (preview && runs[run] == Preview)) { return; }
      if cutover || !BatchCurrent(policy, G(), receipts, batch) { return; }
      var savedObjects, savedConnections := objects, connections;
      pending, trace := [], [G()];
      var ok;
      ok, states := ApplyChanges(policy, batch, run, plan);
      steps, written := trace, pending;
      if ok && !preview {
        journal := journal + pending;
        runs := runs[run := Completed];
      } else {
        objects, connections := savedObjects, savedConnections;
      }
      if ok { outcome := Applied; }
    }

    /** Recovery of one run: its journal replayed backwards in one transaction, all of it or nothing. */
    method Undo(run: Id, reversal: Id) returns (ok: bool)
      requires reversal !in runs
      modifies this
      ensures run in old(runs) && old(runs)[run] == Reversed ==>
          ok && G() == old(G()) && journal == old(journal) && runs == old(runs)
      ensures run !in old(runs) || (old(runs)[run] != Reversed && old(runs)[run] != Completed) ==> !ok
      ensures run in old(runs) && old(runs)[run] == Completed ==>
                (ok <==> UndoAll(old(G()), EntriesOf(old(journal), run)).Some?)
      ensures ok && old(runs)[run] == Completed ==>
                && UndoAll(old(G()), EntriesOf(old(journal), run)) == Some(G())
                && runs == old(runs)[run := Reversed][reversal := Completed]
                && |journal| == |old(journal)| + |EntriesOf(old(journal), run)|
                    && journal[..|old(journal)|] == old(journal)
      ensures ok && old(runs)[run] == Completed ==>
        ReversedBy(journal[|old(journal)|..], EntriesOf(old(journal), run), reversal)
      ensures !ok ==> G() == old(G()) && journal == old(journal) && runs == old(runs)
      ensures cutover == old(cutover)
    {
      if run in runs && runs[run] == Reversed { return true; }
      if run !in runs || runs[run] != Completed { return false; }
      hide UndoEntry, UndoAll, EntriesOf, ReversedBy;
      var changes := EntriesOf(journal, run);
      var graph := G();
      assert ReversedBy([], changes, reversal) by { NothingReversed(changes, reversal); }
      var recorded: seq<Entry> := [];
      var left := |changes|;
      assert changes[..left] == changes;
      while left > 0
        invariant 0 <= left <= |changes| && |recorded| == |changes| - left
        invariant UndoAll(graph, changes[..left]) == UndoAll(G(), changes)
        invariant ReversedBy(recorded, changes, reversal)
        invariant G() == old(G()) && journal == old(journal) && runs == old(runs) && cutover == old(cutover)
      {
        UndoLast(graph, changes, left);
        left := left - 1;
        var next := UndoEntry(graph, changes[left]);
        if next.None? { return false; }
        OneMoreReversed(recorded, changes, reversal, graph);
        recorded := recorded + [Reverting(graph, changes[left], reversal, |recorded| + 1)];
        graph := next.value;
      }
      objects, connections := graph.objects, graph.connections;
      journal := journal + recorded;
      runs := runs[run := Reversed][reversal := Completed];
      ok := true;
    }
  }

  /** The recovery journals under its own run, in order, the row it found: the one the run had written. */
  predicate Reverses(e: Entry, change: Entry, reversal: Id, seqNo: nat) {
    && e.run == reversal && e.seqNo == seqNo && SameTarget(e, change) && e.toRevision == change.toRevision + 1
    && (e.ObjectEntry? ==> e.was.Some? && e.was.value.revision == change.toRevision)
    && (e.ConnEntry? ==> e.wasEdge.Some? && e.wasEdge.value.revision == change.toRevision)
  }

  /** Row i of the recovery's journal takes back the run's change number i from the end. */
  ghost predicate ReversedBy(recorded: seq<Entry>, changes: seq<Entry>, reversal: Id) {
    && |recorded| <= |changes|
    && forall i :: 0 <= i < |recorded| ==> Reverses(recorded[i], changes[|changes| - 1 - i], reversal, i + 1)
  }

  lemma NothingReversed(changes: seq<Entry>, reversal: Id)
    ensures ReversedBy([], changes, reversal)
  {
  }

  lemma OneMoreReversed(recorded: seq<Entry>, changes: seq<Entry>, reversal: Id, g: Graph)
    requires ReversedBy(recorded, changes, reversal) && |recorded| < |changes|
    requires UndoEntry(g, changes[|changes| - 1 - |recorded|]).Some?
    ensures var next := Reverting(g, changes[|changes| - 1 - |recorded|], reversal, |recorded| + 1);
      ReversedBy(recorded + [next], changes, reversal)
  {
    var more := recorded + [Reverting(g, changes[|changes| - 1 - |recorded|], reversal, |recorded| + 1)];
    assert forall i :: 0 <= i < |recorded| ==> more[i] == recorded[i];
  }

  /** The recovery's own journal row: the row it found becomes the before state. */
  function Reverting(g: Graph, e: Entry, reversal: Id, seqNo: nat): Entry
    requires UndoEntry(g, e).Some?
  {
    match e
    case ObjectEntry(_, _, id, _, rev) => ObjectEntry(reversal, seqNo, id, Some(g.objects[id]), rev + 1)
    case ConnEntry(_, _, id, _, rev) => ConnEntry(reversal, seqNo, id, Some(g.connections[id]), rev + 1)
  }

  /** Rewriting the survivor leaves every guard of the following retirement as it was. */
  lemma SurvivorKeepsGuards(policy: Policy, g: Graph, mid: Graph, batch: Batch, id: Id, survivor: Id)
    requires survivor in g.objects && survivor in mid.objects && mid.connections == g.connections
    requires mid.objects == g.objects[survivor := mid.objects[survivor]]
        && mid.objects[survivor].archived == g.objects[survivor].archived
    ensures CanRetire(policy, mid, batch, id, Some(survivor)) <==> CanRetire(policy, g, batch, id, Some(survivor))
  {
  }

  /** RetiredEdges speaks of connections only. */
  lemma RetiredEdgesOnly(g: Graph, g': Graph, h: Graph, h': Graph, id: Id, survivor: Option<Id>)
    requires RetiredEdges(g, h, id, survivor) && g'.connections == g.connections && h'.connections == h.connections
    ensures RetiredEdges(g', h', id, survivor)
  {
  }

  /** The loop of RetireEdges: `done` are the connections of `id` already carried over and archived. */
  ghost predicate RetiredSoFar(policy: Policy, batch: Batch, g: Graph, h: Graph, id: Id, survivor: Option<Id>,
                               done: set<Id>) {
    && done <= ActiveEdgesOf(g, id)
    && g.connections.Keys <= h.connections.Keys
    && (forall c :: c in g.connections ==>
        h.connections[c] == if c in done then RetiredEdge(g, c, id) else g.connections[c])
    && (forall c :: c in done ==> CanRetireEdge(policy, g, batch, id, survivor, c))
    && (forall c :: c in h.connections && c !in g.connections ==>
          survivor.Some? && RedirectedFrom(g, done, h.connections[c], id, survivor.value) && !h.connections[c].archived)
    && (survivor.Some? ==> forall c :: c in done ==> Carried(g, h, c, id, survivor.value))
  }

  /** What carrying connection c over to the survivor does to the graph. */
  ghost predicate Redirects(g: Graph, before: Graph, mid: Graph, c: Id, id: Id, survivor: Id)
    requires c in g.connections
  {
    var row := g.connections[c];
    var s, t := Redirect(id, survivor, row.source), Redirect(id, survivor, row.target);
    && mid.objects == before.objects
    && if s == t || Linked(before, s, row.kind, t) then mid.connections == before.connections
       else exists n: Id :: n !in before.connections &&
              mid.connections == before.connections[n := NewEdge(s, row.kind, t, row.description)]
  }

  /** A link away from `id` survives archiving connections of `id`, and comes from g if it is one of g's connections. */
  lemma LinkKept(policy: Policy, batch: Batch, g: Graph, h: Graph, id: Id, survivor: Option<Id>, done: set<Id>, s: Id,
                 kind: string, t: Id)
    requires RetiredSoFar(policy, batch, g, h, id, survivor, done)
    requires s != id && t != id && Linked(g, s, kind, t)
    ensures Linked(h, s, kind, t)
  {
  }

  lemma OneMoreRetired(policy: Policy, batch: Batch, g: Graph, before: Graph, mid: Graph, h: Graph, id: Id,
                       survivor: Option<Id>, done: set<Id>, c: Id)
    requires survivor != Some(id)
    requires RetiredSoFar(policy, batch, g, before, id, survivor, done)
    requires c in ActiveEdgesOf(g, id) && c !in done && CanRetireEdge(policy, g, batch, id, survivor, c)
    requires survivor.None? ==> mid == before
    requires survivor.Some? ==> Redirects(g, before, mid, c, id, survivor.value)
    requires c in mid.connections
        && h.connections == mid.connections[c := StampedEdge(g.connections[c]).(archived := true)]
    ensures RetiredSoFar(policy, batch, g, h, id, survivor, done + {c})
  {
    hide Linked, RedirectedFrom, Carried, Redirects, CanRetireEdge;
    if survivor.Some? {
      NewRedirected(policy, batch, g, before, mid, h, id, survivor, done, c);
      hide RedirectedFrom;
      forall o | o in done + {c} ensures Carried(g, h, o, id, survivor.value) {
        CarriedOn(g, before, mid, h, c, o, id, survivor.value);
      }
      SameTaken(g, before, mid, c, id, survivor.value);
    }
  }

  /** Carrying a connection over changes none that was there. */
  lemma SameTaken(g: Graph, before: Graph, mid: Graph, c: Id, id: Id, survivor: Id)
    requires c in g.connections && Redirects(g, before, mid, c, id, survivor)
    ensures before.connections.Keys <= mid.connections.Keys
    ensures forall x :: x in before.connections ==> mid.connections[x] == before.connections[x]
  {
  }

  /** What is new in h came from the connections of `id` handled so far. */
  lemma NewRedirected(policy: Policy, batch: Batch, g: Graph, before: Graph, mid: Graph, h: Graph, id: Id,
                      survivor: Option<Id>, done: set<Id>, c: Id)
    requires survivor.Some? && survivor != Some(id) && RetiredSoFar(policy, batch, g, before, id, survivor, done)
    requires c in ActiveEdgesOf(g, id) && c !in done && Redirects(g, before, mid, c, id, survivor.value)
    requires h.connections == mid.connections[c := StampedEdge(g.connections[c]).(archived := true)]
    ensures forall x :: x in h.connections && x !in g.connections ==>
              RedirectedFrom(g, done + {c}, h.connections[x], id, survivor.value) && !h.connections[x].archived
  {
    hide Carried, CanRetireEdge;
    var row := g.connections[c];
    var s, t := Redirect(id, survivor.value, row.source), Redirect(id, survivor.value, row.target);
    if s != t && !Linked(before, s, row.kind, t) {
      if Linked(g, s, row.kind, t) { LinkKept(policy, batch, g, before, id, survivor, done, s, row.kind, t); }
      var n: Id :| n !in before.connections
          && mid.connections == before.connections[n := NewEdge(s, row.kind, t, row.description)];
      assert c in done + {c} && RedirectedFrom(g, done + {c}, h.connections[n], id, survivor.value);
    }
    forall x | x in h.connections && x !in g.connections
      ensures RedirectedFrom(g, done + {c}, h.connections[x], id, survivor.value) && !h.connections[x].archived
    {
      if x in before.connections {
        assert RedirectedFrom(g, done, before.connections[x], id, survivor.value);
      }
    }
  }

  lemma CarriedOn(g: Graph, before: Graph, mid: Graph, h: Graph, c: Id, o: Id, id: Id, survivor: Id)
    requires survivor != id && c in g.connections && o in g.connections
    requires Touches(g.connections[c], id)
    requires Redirects(g, before, mid, c, id, survivor) && c in before.connections
        && before.connections[c] == g.connections[c]
    requires h.connections == mid.connections[c := StampedEdge(g.connections[c]).(archived := true)]
    requires o == c || Carried(g, before, o, id, survivor)
    ensures Carried(g, h, o, id, survivor)
  {
    var row := g.connections[o];
    var s, t := Redirect(id, survivor, row.source), Redirect(id, survivor, row.target);
    if s != t {
      if Linked(before, s, row.kind, t) {
        var x := LinkId(before, s, row.kind, t);
        assert x != c;
        assert x in h.connections && !h.connections[x].archived;
      } else {
        assert o == c;
        var n: Id :| n !in before.connections
            && mid.connections == before.connections[n := NewEdge(s, row.kind, t, row.description)];
        assert n in h.connections && !h.connections[n].archived;
      }
    }
  }

  lemma AllRetired(policy: Policy, batch: Batch, g: Graph, h: Graph, id: Id, survivor: Option<Id>)
    requires survivor != Some(id)
    requires RetiredSoFar(policy, batch, g, h, id, survivor, ActiveEdgesOf(g, id))
    ensures RetiredEdges(g, h, id, survivor)
    ensures ActiveEdgesOf(h, id) == {}
  {
    forall c | ActiveEdge(h, c) ensures !Touches(h.connections[c], id) {
      if c !in g.connections {
        assert RedirectedFrom(g, ActiveEdgesOf(g, id), h.connections[c], id, survivor.value);
      } else {
        assert c !in ActiveEdgesOf(g, id);
      }
    }
  }
}
