/** Committing a curator plan in one transaction, and taking it back. A commit only adds: Memories grounded in human
    messages of the run's window, each linked to the Chat it comes from, and connections. Undo archives what it added.
    */
module CuratorCommit {
  import opened Wrappers
  import opened Collections
  import Text
  import opened MemoryGraph
  import opened CuratorPlan

  const CURATOR := "context-curator"

  // ----- what a transaction may commit -----

  /** A window message, by id: whether a human wrote it. `wording` are the text rules for a Memory and its evidence. */
  datatype Window = Window(chat: Id, human: map<Id, bool>, consulted: set<Id>, wording: CreateObject -> bool)

  predicate InWindow(w: Window, messages: seq<Id>) {
    messages != [] && forall m :: m in messages ==> m in w.human
  }

  predicate HumanGrounded(w: Window, item: CreateObject) {
    InWindow(w, item.messages) && (forall m :: m in item.messages ==> w.human[m]) && w.wording(item)
  }

  /** An Object the plan creates, or a live one that is the Chat or was retrieved. */
  predicate EndpointOk(g: Graph, w: Window, plan: Plan, ref: Ref) {
    match ref
    case Created(client) => exists k :: 0 <= k < |plan.creates| && plan.creates[k].client == client
    case Existing(id) => (id == w.chat || id in w.consulted) && Live(g, id)
  }

  predicate MemoryEnd(g: Graph, ref: Ref) {
    ref.Created? || (ref.id in g.objects && g.objects[ref.id].kind == "memory")
  }

  predicate LinkAllowed(g: Graph, w: Window, plan: Plan, link: CreateLink) {
    && InWindow(w, link.messages)
    && EndpointOk(g, w, plan, link.source) && EndpointOk(g, w, plan, link.target)
    && (MemoryEnd(g, link.source) || MemoryEnd(g, link.target))
  }

  predicate FromChat(w: Window, plan: Plan, item: CreateObject) {
    exists k :: 0 <= k < |plan.links| && plan.links[k].kind == "derived_from"
        && plan.links[k].source == Created(item.client)
             && plan.links[k].target == Existing(w.chat) && SameMessages(plan.links[k].messages, item.messages)
  }

  predicate PolicyOk(g: Graph, w: Window, plan: Plan) {
    && (forall k :: 0 <= k < |plan.creates| ==> HumanGrounded(w, plan.creates[k]) && FromChat(w, plan, plan.creates[k]))
    && (forall k :: 0 <= k < |plan.links| ==> LinkAllowed(g, w, plan, plan.links[k]))
  }

  predicate NoLoops(plan: Plan) {
    forall k :: 0 <= k < |plan.links| ==> plan.links[k].source != plan.links[k].target
  }

  /** What Validate gives: a normal plan whose names are unique and resolved. */
  ghost predicate Normal(plan: Plan) {
    forall i, j :: 0 <= i < j < |plan.creates| ==> plan.creates[i].client != plan.creates[j].client
  }

  lemma NormalNames(r: Rules, plan: Plan)
    requires Accepted(r, plan) && Tidy(r, plan) == plan
    ensures Normal(plan)
  {
  }

  // ----- what a commit adds -----

  function NewMemory(item: CreateObject, chat: Id): ObjectRow {
    ObjectRow("memory", item.title, item.description,
              Provenance("context_curator", None, item.messages, Some(chat), false, [], None),
              item.memory, false, false, 1, System, CURATOR, System, CURATOR)
  }

  function NewLink(source: Id, kind: string, target: Id, description: string): ConnRow {
    ConnRow(source, kind, target, description, false, false, 1, System, System, CURATOR)
  }

  /** The Object a reference stands for, once Memory k of the plan has id made[k]. */
  ghost predicate Denotes(plan: Plan, made: seq<Id>, ref: Ref, id: Id) {
    match ref
    case Existing(x) => id == x
    case Created(client) =>
      exists k :: 0 <= k < |made| && k < |plan.creates| && plan.creates[k].client == client && made[k] == id
  }

  ghost predicate Distinct(ids: seq<Id>) {
    forall i, j :: 0 <= i < j < |ids| ==> ids[i] != ids[j]
  }

  /** The first n Memories of the plan have been added to g, and nothing else. */
  ghost predicate MemoriesAdded(g: Graph, h: Graph, w: Window, plan: Plan, made: seq<Id>) {
    && |made| <= |plan.creates| && Distinct(made)
    && (forall k :: 0 <= k < |made| ==>
        made[k] !in g.objects && made[k] in h.objects && h.objects[made[k]] == NewMemory(plan.creates[k], w.chat))
    && (forall id :: id in h.objects ==> id in g.objects || id in made)
    && (forall id :: id in g.objects ==> id in h.objects && h.objects[id] == g.objects[id])
  }

  /** An added connection: active, new, and the only one with its triple. */
  ghost predicate Added(g: Graph, h: Graph, c: Id) {
    && c !in g.connections && c in h.connections && !h.connections[c].archived && h.connections[c].revision == 1
    && forall d :: ActiveEdge(h, d) && SameTriple(h.connections[c], h.connections[d]) ==> c == d
  }

  ghost predicate FromLink(h: Graph, plan: Plan, made: seq<Id>, link: CreateLink, c: Id)
    requires c in h.connections
  {
    var row := h.connections[c];
    Denotes(plan, made, link.source, row.source) && Denotes(plan, made, link.target, row.target)
    && row == NewLink(row.source, link.kind, row.target, link.description)
  }

  ghost predicate LinkHeld(h: Graph, plan: Plan, made: seq<Id>, link: CreateLink) {
    exists source, target :: Denotes(plan, made, link.source, source) && Denotes(plan, made, link.target, target)
                          && Linked(h, source, link.kind, target)
  }

  /** The first n links of the plan hold, and only connections for them have been added. */
  ghost predicate LinksAdded(g: Graph, h: Graph, plan: Plan, made: seq<Id>, n: nat, linked: seq<Id>)
    requires n <= |plan.links|
  {
    && Distinct(linked)
    && (forall c :: c in linked ==>
        Added(g, h, c) && exists k :: 0 <= k < n && FromLink(h, plan, made, plan.links[k], c))
    && (forall k :: 0 <= k < n ==> LinkHeld(h, plan, made, plan.links[k]))
    && (forall c :: c in h.connections ==> c in g.connections || c in linked)
    && (forall c :: c in g.connections ==> c in h.connections && h.connections[c] == g.connections[c])
  }

  ghost predicate Committed(g: Graph, h: Graph, w: Window, plan: Plan, made: seq<Id>, linked: seq<Id>) {
    && |made| == |plan.creates| && MemoriesAdded(g, h, w, plan, made)
    && LinksAdded(g, h, plan, made, |plan.links|, linked)
  }

  function CreatedEntries(run: Id, base: nat, made: seq<Id>, linked: seq<Id>): (entries: seq<Entry>) {
    seq(|made|, k requires 0 <= k < |made| => ObjectEntry(run, base + k + 1, made[k], None, 1))
    + seq(|linked|, k requires 0 <= k < |linked| => ConnEntry(run, base + |made| + k + 1, linked[k], None, 1))
  }

  /** What the worker writes about the Chat; `provenance` carries the checkpoint of the summary. */
  datatype Summary = Summary(title: string, description: string, provenance: Provenance)

  function Summarized(row: ObjectRow, summary: Summary): ObjectRow {
    row.(title := summary.title, description := summary.description, provenance := summary.provenance,
         revision := row.revision + 1, updatedByType := System, updatedBy := CURATOR)
  }

  /** Left to the system: neither protected nor last edited by anyone else. */
  predicate Automatic(row: ObjectRow) {
    !row.protected && row.updatedByType == System
  }

  predicate SummaryOk(r: Rules, summary: Summary) {
    && TextOk(r, summary.title, 300) && TextOk(r, summary.description, r.descriptionMax)
    && !r.weak(Trim(r, summary.title), Trim(r, summary.description))
  }

  lemma SummaryOkIff(r: Rules, summary: Summary)
    ensures var title, description := Text.Trim(r.white, summary.title), Text.Trim(r.white, summary.description);
      SummaryOk(r, summary) <==>
          1 <= |title| <= 300 && 1 <= |description| <= r.descriptionMax && !r.weak(title, description)
  {
    hide Text.Trim;
  }

  function TidySummary(r: Rules, summary: Summary): Summary {
    summary.(title := Trim(r, summary.title), description := Trim(r, summary.description))
  }

  /** Recording the next Memory. */
  lemma MemoryStep(g: Graph, h: Graph, w: Window, plan: Plan, made: seq<Id>, id: Id, h': Graph)
    requires MemoriesAdded(g, h, w, plan, made) && |made| < |plan.creates| && id !in h.objects
    requires h' == h.(objects := h.objects[id := NewMemory(plan.creates[|made|], w.chat)])
    ensures MemoriesAdded(g, h', w, plan, made + [id])
  {
    hide NewMemory;
    var all := made + [id];
    assert all[|made|] == id && forall k :: 0 <= k < |made| ==> all[k] == made[k] && made[k] in h.objects;
  }

  /** A connection newly added keeps what was said of the others. */
  lemma LinkStep(g: Graph, h: Graph, plan: Plan, made: seq<Id>, n: nat, linked: seq<Id>, source: Id, target: Id, c: Id,
                 h': Graph)
    requires n < |plan.links| && LinksAdded(g, h, plan, made, n, linked) && c !in h.connections
    requires Denotes(plan, made, plan.links[n].source, source) && Denotes(plan, made, plan.links[n].target, target)
    requires !Linked(h, source, plan.links[n].kind, target)
    requires h'
        == h.(connections := h.connections[c := NewLink(source, plan.links[n].kind, target, plan.links[n].description)])
    ensures LinksAdded(g, h', plan, made, n + 1, linked + [c])
  {
    hide Denotes, Added, FromLink, LinkHeld;
    NewestAdded(g, h, plan, made, n, source, target, c, h');
    forall d | d in linked
      ensures d in h.connections && Added(g, h', d)
      ensures exists k :: 0 <= k < n + 1 && FromLink(h', plan, made, plan.links[k], d)
    {
      assert Added(g, h, d);
      InGraph(g, h, d);
      var k :| 0 <= k < n && FromLink(h, plan, made, plan.links[k], d);
      OlderStays(g, h, plan, made, plan.links[k], d, c, h');
      assert FromLink(h', plan, made, plan.links[k], d);
    }
    forall k | 0 <= k < n ensures LinkHeld(h', plan, made, plan.links[k]) {
      HeldStays(h, plan, made, plan.links[k], c, h');
    }
    assert forall i :: 0 <= i < |linked| ==> linked[i] in linked && linked[i] != c;
    assert exists k :: 0 <= k < n + 1 && FromLink(h', plan, made, plan.links[k], c);
  }

  lemma NewestAdded(g: Graph, h: Graph, plan: Plan, made: seq<Id>, n: nat, source: Id, target: Id, c: Id, h': Graph)
    requires n < |plan.links| && c !in h.connections && g.connections.Keys <= h.connections.Keys
    requires Denotes(plan, made, plan.links[n].source, source) && Denotes(plan, made, plan.links[n].target, target)
    requires !Linked(h, source, plan.links[n].kind, target)
    requires h'
        == h.(connections := h.connections[c := NewLink(source, plan.links[n].kind, target, plan.links[n].description)])
    ensures Added(g, h', c) && FromLink(h', plan, made, plan.links[n], c) && LinkHeld(h', plan, made, plan.links[n])
  {
  }

  lemma InGraph(g: Graph, h: Graph, c: Id)
    requires Added(g, h, c)
    ensures c in h.connections
  {
  }

  lemma OlderStays(g: Graph, h: Graph, plan: Plan, made: seq<Id>, link: CreateLink, d: Id, c: Id, h': Graph)
    requires Added(g, h, d) && FromLink(h, plan, made, link, d)
    requires c !in h.connections && c in h'.connections
        && h' == h.(connections := h.connections[c := h'.connections[c]])
    requires !Linked(h, h'.connections[c].source, h'.connections[c].kind, h'.connections[c].target)
    ensures d in h.connections && Added(g, h', d) && FromLink(h', plan, made, link, d)
  {
  }

  lemma HeldStays(h: Graph, plan: Plan, made: seq<Id>, link: CreateLink, c: Id, h': Graph)
    requires LinkHeld(h, plan, made, link) && c !in h.connections && c in h'.connections
    requires h' == h.(connections := h.connections[c := h'.connections[c]])
    ensures LinkHeld(h', plan, made, link)
  {
    hide Denotes;
    var source, target :| Denotes(plan, made, link.source, source) && Denotes(plan, made, link.target, target)
                          && Linked(h, source, link.kind, target);
    var d :| d in h.connections && !h.connections[d].archived && h.connections[d].source == source
             && h.connections[d].kind == link.kind && h.connections[d].target == target;
    assert d in h'.connections && h'.connections[d] == h.connections[d];
    assert Linked(h', source, link.kind, target);
  }

  /** Distinct references of an allowed link denote distinct live Objects. */
  lemma EndsDiffer(g: Graph, h: Graph, w: Window, plan: Plan, made: seq<Id>, link: CreateLink, source: Id, target: Id)
    requires Normal(plan) && |made| == |plan.creates| && MemoriesAdded(g, h, w, plan, made)
        && LinkAllowed(g, w, plan, link)
    requires Denotes(plan, made, link.source, source) && Denotes(plan, made, link.target, target)
    ensures Live(h, source) && Live(h, target)
    ensures source == target <==> link.source == link.target
  {
  }

  class Store {
    var graph: Graph
    var journal: seq<Entry>   // of one run, in sequence order

    constructor (graph: Graph)
      ensures this.graph == graph && journal == []
    {
      this.graph := graph;
      journal := [];
    }

    method CreateMemories(w: Window, plan: Plan, run: Id) returns (created: map<string, Id>, made: seq<Id>)
      requires Normal(plan)
      modifies this
      ensures |made| == |plan.creates| && MemoriesAdded(old(graph), graph, w, plan, made)
          && graph.connections == old(graph).connections
      ensures journal == old(journal) + CreatedEntries(run, |old(journal)|, made, [])
      ensures forall k :: 0 <= k < |made| ==>
          plan.creates[k].client in created && created[plan.creates[k].client] == made[k]
    {
      hide MemoriesAdded;
      created, made := map[], [];
      assert MemoriesAdded(graph, graph, w, plan, []) by { NothingAdded(graph, w, plan); }
      for k := 0 to |plan.creates|
        invariant |made| == k && MemoriesAdded(old(graph), graph, w, plan, made)
            && graph.connections == old(graph).connections
        invariant journal == old(journal) + CreatedEntries(run, |old(journal)|, made, [])
        invariant forall i :: 0 <= i < k ==>
            plan.creates[i].client in created && created[plan.creates[i].client] == made[i]
      {
        var id := Fresh(graph.objects.Keys);
        ghost var before := graph;
        graph := graph.(objects := graph.objects[id := NewMemory(plan.creates[k], w.chat)]);
        journal := journal + [ObjectEntry(run, |journal| + 1, id, None, 1)];
        MemoryStep(old(graph), before, w, plan, made, id, graph);
        assert CreatedEntries(run, |old(journal)|, made + [id], []) == CreatedEntries(run, |old(journal)|, made, [])
            + [ObjectEntry(run, |old(journal)| + k + 1, id, None, 1)];
        made := made + [id];
        created := created[plan.creates[k].client := id];
      }
    }

    method CreateLinks(w: Window, plan: Plan, run: Id, created: map<string, Id>, ghost g: Graph, ghost made: seq<Id>)
        returns (ok: bool, ghost linked: seq<Id>)
      requires Normal(plan) && PolicyOk(g, w, plan) && |made| == |plan.creates|
          && MemoriesAdded(g, graph, w, plan, made)
      requires graph.connections == g.connections
      requires forall k :: 0 <= k < |made| ==>
          plan.creates[k].client in created && created[plan.creates[k].client] == made[k]
      modifies this
      ensures ok <==> NoLoops(plan)
      ensures ok ==> graph.objects == old(graph).objects && LinksAdded(g, graph, plan, made, |plan.links|, linked)
      ensures ok ==> journal == old(journal) + CreatedEntries(run, |old(journal)|, [], linked)
    {
      hide MemoriesAdded, LinksAdded, Normal;
      linked := [];
      assert LinksAdded(g, graph, plan, made, 0, []) by { NoLinksAdded(g, graph, plan, made); }
      for k := 0 to |plan.links|
        invariant graph.objects == old(graph).objects && LinksAdded(g, graph, plan, made, k, linked)
        invariant journal == old(journal) + CreatedEntries(run, |old(journal)|, [], linked)
        invariant forall i :: 0 <= i < k ==> plan.links[i].source != plan.links[i].target
      {
        var link := plan.links[k];
        var source, target := Resolve(link.source, created), Resolve(link.target, created);
        assert LinkAllowed(g, w, plan, link);
        assert Denotes(plan, made, link.source, source) && Denotes(plan, made, link.target, target);
        EndsDiffer(g, old(graph), w, plan, made, link, source, target);
        if source == target || !Live(graph, source) || !Live(graph, target) { return false, linked; }
        if Linked(graph, source, link.kind, target) {
          HeldStep(g, graph, plan, made, k, linked, source, target);
        } else {
          var c := Fresh(graph.connections.Keys);
          ghost var before := graph;
          graph := graph.(connections := graph.connections[c := NewLink(source, link.kind, target, link.description)]);
          journal := journal + [ConnEntry(run, |journal| + 1, c, None, 1)];
          LinkStep(g, before, plan, made, k, linked, source, target, c, graph);
          assert CreatedEntries(run, |old(journal)|, [], linked + [c])
              == CreatedEntries(run, |old(journal)|, [], linked)
                  + [ConnEntry(run, |old(journal)| + |linked| + 1, c, None, 1)];
          linked := linked + [c];
        }
      }
      ok := true;
    }

    /** Before the plan, the Chat's summary: written over the row the worker had seen, if that is still there and left
        to the system, and journaled with the row it replaced. `due` says that there is something to summarise. */
    method Summarize(r: Rules, chat: Id, seen: ObjectRow, due: bool, summary: Summary, run: Id) returns (written: bool)
      modifies this
      ensures written <==> due && !seen.protected && seen.updatedByType == System && SummaryOk(r, summary)
                           && chat in old(graph).objects && old(graph).objects[chat].revision == seen.revision
                           && !old(graph).objects[chat].protected && old(graph).objects[chat].updatedByType == System
      ensures written ==>
          graph == old(graph).(objects := old(graph).objects[chat := Summarized(old(graph).objects[chat],
                  TidySummary(r, summary))])
      ensures written ==>
          graph.objects[chat] == old(graph).objects[chat].(
            title := Text.Trim(r.white, summary.title), description := Text.Trim(r.white, summary.description),
            provenance := summary.provenance, revision := seen.revision + 1, updatedByType := System,
            updatedBy := "context-curator")
      ensures written ==>
          journal == old(journal)
              + [ObjectEntry(run, |old(journal)| + 1, chat, Some(old(graph).objects[chat]), seen.revision + 1)]
      ensures !written ==> graph == old(graph) && journal == old(journal)
    {
      if !due || !Automatic(seen) || !SummaryOk(r, summary) { return false; }
      if chat !in graph.objects || graph.objects[chat].revision != seen.revision || !Automatic(graph.objects[chat]) {
        return false;
      }
      var before := graph.objects[chat];
      graph := graph.(objects := graph.objects[chat := Summarized(before, TidySummary(r, summary))]);
      journal := journal + [ObjectEntry(run, |journal| + 1, chat, Some(before), seen.revision + 1)];
      written := true;
    }

    /** One transaction: the plan is normalised, checked against the run's window and the store, and added. */
    method Commit(r: Rules, raw: Plan, w: Window, run: Id)
        returns (ok: bool, ghost made: seq<Id>, ghost linked: seq<Id>)
      requires PlainKinds(r)
      modifies this
      ensures ok <==> Accepted(r, raw) && PolicyOk(old(graph), w, Tidy(r, raw)) && NoLoops(Tidy(r, raw))
      ensures !ok ==> graph == old(graph) && journal == old(journal)
      ensures ok ==> Committed(old(graph), graph, w, Tidy(r, raw), made, linked)
      ensures ok ==> journal == old(journal) + CreatedEntries(run, |old(journal)|, made, linked)
    {
      hide Accepted, PolicyOk, NoLoops, Tidy, MemoriesAdded, LinksAdded, Normal, PlainKinds;
      made, linked := [], [];
      var first := Validate(r, raw);
      if first.None? { return false, made, linked; }
      ValidateIdempotent(r, raw);
      var again := Validate(r, first.value);
      assert again == Some(Tidy(r, raw));
      var plan := again.value;
      NormalNames(r, plan);
      if !PolicyOk(graph, w, plan) { return false, made, linked; }
      var savedGraph, savedJournal := graph, journal;
      var created;
      created, made := CreateMemories(w, plan, run);
      ghost var middle := graph;
      ok, linked := CreateLinks(w, plan, run, created, savedGraph, made);
      if !ok {
        graph, journal := savedGraph, savedJournal;
      } else {
        SameMemories(savedGraph, middle, graph, w, plan, made);
        JoinEntries(run, |savedJournal|, made, linked);
      }
    }
  }

  function Resolve(ref: Ref, created: map<string, Id>): Id {
    match ref
    case Existing(id) => id
    case Created(client) => if client in created then created[client] else 0
  }

  lemma NothingAdded(g: Graph, w: Window, plan: Plan)
    ensures MemoriesAdded(g, g, w, plan, [])
  {
  }

  lemma NoLinksAdded(g: Graph, h: Graph, plan: Plan, made: seq<Id>)
    requires h.connections == g.connections
    ensures LinksAdded(g, h, plan, made, 0, [])
  {
  }

  lemma HeldStep(g: Graph, h: Graph, plan: Plan, made: seq<Id>, n: nat, linked: seq<Id>, source: Id, target: Id)
    requires n < |plan.links| && LinksAdded(g, h, plan, made, n, linked)
    requires Denotes(plan, made, plan.links[n].source, source) && Denotes(plan, made, plan.links[n].target, target)
    requires Linked(h, source, plan.links[n].kind, target)
    ensures LinksAdded(g, h, plan, made, n + 1, linked)
  {
    hide Denotes, FromLink, Added;
    assert LinkHeld(h, plan, made, plan.links[n]);
  }

  lemma SameMemories(g: Graph, middle: Graph, h: Graph, w: Window, plan: Plan, made: seq<Id>)
    requires MemoriesAdded(g, middle, w, plan, made) && h.objects == middle.objects
    ensures MemoriesAdded(g, h, w, plan, made)
  {
  }

  lemma JoinEntries(run: Id, base: nat, made: seq<Id>, linked: seq<Id>)
    ensures CreatedEntries(run, base, made, []) + CreatedEntries(run, base + |made|, [], linked)
        == CreatedEntries(run, base, made, linked)
  {
  }

  // ----- what a commit means -----

  /** Main theorem: a commit changes no existing row; each new Memory rests on human messages of the window and
      has an active derived_from connection to its Chat; and the graph stays sound. */
  lemma CommitGrounds(g: Graph, h: Graph, w: Window, plan: Plan, made: seq<Id>, linked: seq<Id>, k: nat)
    requires Normal(plan) && PolicyOk(g, w, plan) && Committed(g, h, w, plan, made, linked) && k < |made|
    ensures made[k] !in g.objects && Live(h, made[k]) && h.objects[made[k]].provenance.chat == Some(w.chat)
    ensures var m := h.objects[made[k]].provenance.messages; m != [] && forall x :: x in m ==>
        x in w.human && w.human[x]
    ensures Linked(h, made[k], "derived_from", w.chat)
  {
    hide PolicyOk, MemoriesAdded, LinksAdded, Linked, Live;
    MemoryRow(g, h, w, plan, made, k);
    MemoryPolicy(g, w, plan, k);
    OriginLink(g, h, w, plan, made, linked, k);
  }

  lemma MemoryRow(g: Graph, h: Graph, w: Window, plan: Plan, made: seq<Id>, k: nat)
    requires MemoriesAdded(g, h, w, plan, made) && k < |made|
    ensures made[k] !in g.objects && Live(h, made[k]) && h.objects[made[k]] == NewMemory(plan.creates[k], w.chat)
  {
  }

  lemma MemoryPolicy(g: Graph, w: Window, plan: Plan, k: nat)
    requires PolicyOk(g, w, plan) && k < |plan.creates|
    ensures HumanGrounded(w, plan.creates[k]) && FromChat(w, plan, plan.creates[k])
  {
  }

  lemma OriginLink(g: Graph, h: Graph, w: Window, plan: Plan, made: seq<Id>, linked: seq<Id>, k: nat)
    requires Normal(plan) && |made| == |plan.creates| && LinksAdded(g, h, plan, made, |plan.links|, linked)
        && k < |made|
    requires FromChat(w, plan, plan.creates[k])
    ensures Linked(h, made[k], "derived_from", w.chat)
  {
  }

  lemma CommitKeepsSound(g: Graph, h: Graph, w: Window, plan: Plan, made: seq<Id>, linked: seq<Id>)
    requires Normal(plan) && PolicyOk(g, w, plan) && NoLoops(plan) && Committed(g, h, w, plan, made, linked) && Sound(g)
    ensures Sound(h)
  {
    hide PolicyOk, Denotes, MemoriesAdded;
    forall c | ActiveEdge(h, c) ensures EndsLive(h, h.connections[c]) {
      if c in linked {
        var n :| 0 <= n < |plan.links| && FromLink(h, plan, made, plan.links[n], c);
        assert LinkAllowed(g, w, plan, plan.links[n]) by { LinkPolicy(g, w, plan, n); }
        EndsDiffer(g, h, w, plan, made, plan.links[n], h.connections[c].source, h.connections[c].target);
      } else {
        assert ActiveEdge(g, c) && EndsLive(g, g.connections[c]);
        LiveStays(g, h, w, plan, made, g.connections[c].source);
        LiveStays(g, h, w, plan, made, g.connections[c].target);
      }
    }
    forall c, d | ActiveEdge(h, c) && ActiveEdge(h, d) && SameTriple(h.connections[c], h.connections[d])
      ensures c == d
    {
      if c in linked { assert Added(g, h, c); }
      if d in linked { assert Added(g, h, d); }
    }
  }

  lemma LinkPolicy(g: Graph, w: Window, plan: Plan, n: nat)
    requires PolicyOk(g, w, plan) && n < |plan.links|
    ensures LinkAllowed(g, w, plan, plan.links[n])
  {
  }

  lemma LiveStays(g: Graph, h: Graph, w: Window, plan: Plan, made: seq<Id>, id: Id)
    requires MemoriesAdded(g, h, w, plan, made) && Live(g, id)
    ensures Live(h, id)
  {
  }

  // ----- undo -----

  /** Who undoes, and the description rules a restored or archived Object must still meet. */
  datatype Reverser = Reverser(kind: ActorType, name: string, textOk: (string, string) -> bool)

  function ArchivedEdge(u: Reverser, row: ConnRow): ConnRow {
    row.(archived := true, revision := row.revision + 1, updatedByType := u.kind, updatedBy := u.name)
  }

  function ArchivedObject(u: Reverser, row: ObjectRow): ObjectRow {
    row.(archived := true, revision := row.revision + 1, updatedByType := u.kind, updatedBy := u.name)
  }

  function RestoredObject(u: Reverser, row: ObjectRow, was: ObjectRow): ObjectRow {
    row.(title := was.title, description := was.description, protected := was.protected, provenance := was.provenance,
         revision := row.revision + 1, updatedByType := u.kind, updatedBy := u.name)
  }

  /** One journal row taken back; None is a conflict that aborts the whole undo. */
  function RevertEntry(u: Reverser, g: Graph, e: Entry): Option<Graph> {
    match e
    case ConnEntry(_, _, id, was, rev) =>
      if !ActiveEdge(g, id) || g.connections[id].revision != rev then None
      else if was.None? then Some(g.(connections := g.connections[id := ArchivedEdge(u, g.connections[id])]))
      else
        var back := g.connections[id].(kind := was.value.kind, description := was.value.description,
                                       protected := was.value.protected,
                                       revision := rev + 1, updatedByType := u.kind, updatedBy := u.name);
        if exists c :: c in g.connections && c != id && !g.connections[c].archived
            && SameTriple(g.connections[c], back) then None
        else Some(g.(connections := g.connections[id := back]))
    case ObjectEntry(_, _, id, was, rev) =>
      if !Live(g, id) || g.objects[id].revision != rev then None
      else if was.None? then
        if !u.textOk(g.objects[id].title, g.objects[id].description) || ActiveEdgesOf(g, id) != {} then None
        else Some(g.(objects := g.objects[id := ArchivedObject(u, g.objects[id])]))
      else if !u.textOk(was.value.title, was.value.description) then None
      else Some(g.(objects := g.objects[id := RestoredObject(u, g.objects[id], was.value)]))
  }

  function RevertAll(u: Reverser, g: Graph, journal: seq<Entry>): Option<Graph>
    decreases |journal|
  {
    if journal == [] then Some(g)
    else
      match RevertEntry(u, g, journal[|journal| - 1])
      case None => None
      case Some(h) => RevertAll(u, h, journal[..|journal| - 1])
  }

  /** The loop of undo_as, over the run's journal in reverse. */
  method Undo(u: Reverser, g: Graph, journal: seq<Entry>) returns (undone: Option<Graph>)
    ensures undone == RevertAll(u, g, journal)
  {
    var graph, left := g, |journal|;
    assert journal[..left] == journal;
    while left > 0
      invariant 0 <= left <= |journal| && RevertAll(u, graph, journal[..left]) == RevertAll(u, g, journal)
    {
      assert journal[..left][..left - 1] == journal[..left - 1];
      var next := RevertEntry(u, graph, journal[left - 1]);
      if next.None? { return None; }
      graph, left := next.value, left - 1;
    }
    undone := Some(graph);
  }

  function EdgesArchived(u: Reverser, g: Graph, ids: seq<Id>): Graph {
    g.(connections := map c | c in g.connections :: if c in ids then ArchivedEdge(u, g.connections[c])
       else g.connections[c])
  }

  function ObjectsArchived(u: Reverser, g: Graph, ids: seq<Id>): Graph {
    g.(objects := map x | x in g.objects :: if x in ids then ArchivedObject(u, g.objects[x]) else g.objects[x])
  }

  /** An added connection nobody changed since. */
  predicate EdgeUntouched(g: Graph, c: Id) {
    ActiveEdge(g, c) && g.connections[c].revision == 1
  }

  /** An added Memory nobody changed since, nor linked except by the run. */
  predicate MemoryUntouched(u: Reverser, g: Graph, linked: seq<Id>, id: Id) {
    && Live(g, id) && g.objects[id].revision == 1 && u.textOk(g.objects[id].title, g.objects[id].description)
    && forall c :: c in ActiveEdgesOf(g, id) ==> c in linked
  }

  lemma RevertLast(u: Reverser, g: Graph, before: seq<Entry>, e: Entry)
    ensures RevertAll(u, g, before + [e]) ==
            match RevertEntry(u, g, e) { case None => None case Some(h) => RevertAll(u, h, before) }
  {
  }

  lemma OneEntryMore(run: Id, base: nat, before: seq<Entry>, ids: seq<Id>, id: Id)
    ensures before + CreatedEntries(run, base, [], ids + [id]) == before + CreatedEntries(run, base, [], ids)
        + [ConnEntry(run, base + |ids| + 1, id, None, 1)]
    ensures before + CreatedEntries(run, base, ids + [id], []) == before + CreatedEntries(run, base, ids, [])
        + [ObjectEntry(run, base + |ids| + 1, id, None, 1)]
  {
  }

  lemma OtherLinks(u: Reverser, g: Graph, init: seq<Id>, c: Id, h: Graph)
    requires c !in init && EdgeUntouched(g, c)
        && h == g.(connections := g.connections[c := ArchivedEdge(u, g.connections[c])])
    ensures forall x :: x in init ==> EdgeUntouched(h, x) == EdgeUntouched(g, x)
    ensures EdgesArchived(u, h, init) == EdgesArchived(u, g, init + [c])
  {
  }

  lemma RevertLink(u: Reverser, g: Graph, run: Id, k: nat, c: Id)
    ensures RevertEntry(u, g, ConnEntry(run, k, c, None, 1)) ==
            if EdgeUntouched(g, c) then Some(g.(connections := g.connections[c := ArchivedEdge(u, g.connections[c])]))
                else None
  {
  }

  lemma RevertMemory(u: Reverser, g: Graph, run: Id, k: nat, x: Id)
    ensures RevertEntry(u, g, ObjectEntry(run, k, x, None, 1)) ==
            if Bare(u, g, x) then Some(g.(objects := g.objects[x := ArchivedObject(u, g.objects[x])])) else None
  {
  }

  lemma NoneArchived(u: Reverser, g: Graph, before: seq<Entry>, run: Id, base: nat)
    ensures before + CreatedEntries(run, base, [], []) == before && EdgesArchived(u, g, []) == g
        && ObjectsArchived(u, g, []) == g
  {
  }

  lemma {:induction false} RevertLinks(u: Reverser, g: Graph, before: seq<Entry>, run: Id, base: nat, linked: seq<Id>)
    requires Distinct(linked)
    ensures RevertAll(u, g, before + CreatedEntries(run, base, [], linked)) ==
            if forall c :: c in linked ==>
                EdgeUntouched(g, c) then RevertAll(u, EdgesArchived(u, g, linked), before) else None
    decreases |linked|
  {
    if linked == [] {
      NoneArchived(u, g, before, run, base);
    } else {
      var init, c := linked[..|linked| - 1], linked[|linked| - 1];
      assert linked == init + [c] && c !in init;
      hide RevertAll, RevertEntry, CreatedEntries, EdgesArchived, ArchivedEdge;
      OneEntryMore(run, base, before, init, c);
      RevertLast(u, g, before + CreatedEntries(run, base, [], init), ConnEntry(run, base + |init| + 1, c, None, 1));
      RevertLink(u, g, run, base + |init| + 1, c);
      if EdgeUntouched(g, c) {
        var h := g.(connections := g.connections[c := ArchivedEdge(u, g.connections[c])]);
        OtherLinks(u, g, init, c, h);
        hide EdgeUntouched;
        RevertLinks(u, h, before, run, base, init);
      }
    }
  }

  /** Memories without active connections left. */
  predicate Bare(u: Reverser, g: Graph, id: Id) {
    Live(g, id) && g.objects[id].revision == 1 && u.textOk(g.objects[id].title, g.objects[id].description)
        && ActiveEdgesOf(g, id) == {}
  }

  lemma {:induction false} RevertMemories(u: Reverser, g: Graph, before: seq<Entry>, run: Id, base: nat, made: seq<Id>)
    requires Distinct(made)
    ensures RevertAll(u, g, before + CreatedEntries(run, base, made, [])) ==
            if forall x :: x in made ==> Bare(u, g, x) then RevertAll(u, ObjectsArchived(u, g, made), before) else None
    decreases |made|
  {
    if made == [] {
      NoneArchived(u, g, before, run, base);
    } else {
      var init, x := made[..|made| - 1], made[|made| - 1];
      assert made == init + [x] && x !in init;
      hide RevertAll, RevertEntry, CreatedEntries, ObjectsArchived, ArchivedObject;
      OneEntryMore(run, base, before, init, x);
      RevertLast(u, g, before + CreatedEntries(run, base, init, []), ObjectEntry(run, base + |init| + 1, x, None, 1));
      RevertMemory(u, g, run, base + |init| + 1, x);
      if Bare(u, g, x) {
        var h := g.(objects := g.objects[x := ArchivedObject(u, g.objects[x])]);
        OtherMemories(u, g, init, x, h);
        hide Bare;
        RevertMemories(u, h, before, run, base, init);
      }
    }
  }

  lemma OtherMemories(u: Reverser, g: Graph, init: seq<Id>, x: Id, h: Graph)
    requires x !in init && Live(g, x) && h == g.(objects := g.objects[x := ArchivedObject(u, g.objects[x])])
    ensures forall y :: y in init ==> Bare(u, h, y) == Bare(u, g, y)
    ensures ObjectsArchived(u, h, init) == ObjectsArchived(u, g, init + [x])
  {
  }

  lemma BareAfter(u: Reverser, g: Graph, linked: seq<Id>, id: Id)
    requires forall c :: c in linked ==> EdgeUntouched(g, c)
    ensures Bare(u, EdgesArchived(u, g, linked), id) == MemoryUntouched(u, g, linked, id)
  {
    var h := EdgesArchived(u, g, linked);
    assert forall c :: ActiveEdge(h, c) <==> ActiveEdge(g, c) && c !in linked;
    assert ActiveEdgesOf(h, id) == set c | c in ActiveEdgesOf(g, id) && c !in linked;
  }

  /** Nobody has changed what a commit added, nor linked its Memories to anything else. */
  predicate CommitUntouched(u: Reverser, g: Graph, made: seq<Id>, linked: seq<Id>) {
    (forall c :: c in linked ==> EdgeUntouched(g, c)) && (forall x :: x in made ==> MemoryUntouched(u, g, linked, x))
  }

  function CommitArchived(u: Reverser, g: Graph, made: seq<Id>, linked: seq<Id>): Graph {
    ObjectsArchived(u, EdgesArchived(u, g, linked), made)
  }

  /** Main theorem: whatever the run journaled before and whatever happened to the graph since, taking back a commit
      gets past it exactly when it is untouched; it then has archived what the commit added and nothing more. */
  lemma UndoIff(u: Reverser, g: Graph, before: seq<Entry>, run: Id, base: nat, made: seq<Id>, linked: seq<Id>)
    requires Distinct(made) && Distinct(linked)
    ensures RevertAll(u, g, before + CreatedEntries(run, base, made, linked)) ==
            if CommitUntouched(u, g, made, linked) then RevertAll(u, CommitArchived(u, g, made, linked), before)
                else None
  {
    hide EdgeUntouched, MemoryUntouched, Bare, EdgesArchived, ObjectsArchived, CreatedEntries;
    JoinEntries(run, base, made, linked);
    var entries := CreatedEntries(run, base, made, []);
    assert before + CreatedEntries(run, base, made, linked) == before + entries
        + CreatedEntries(run, base + |made|, [], linked);
    RevertLinks(u, g, before + entries, run, base + |made|, linked);
    if forall c :: c in linked ==> EdgeUntouched(g, c) {
      var h := EdgesArchived(u, g, linked);
      forall x ensures Bare(u, h, x) == MemoryUntouched(u, g, linked, x) { BareAfter(u, g, linked, x); }
      RevertMemories(u, h, before, run, base, made);
    }
  }

  /** The worker summarises the Chat first, in the same journal. Then undo succeeds exactly when moreover the Chat is
      live, unchanged since the summary, and its earlier text still meets the rules; the Chat then has it back. */
  lemma UndoSummaryIff(u: Reverser, g: Graph, chat: Id, was: ObjectRow, rev: int, run: Id, base: nat, made: seq<Id>,
                       linked: seq<Id>)
    requires Distinct(made) && Distinct(linked) && chat !in made
    ensures RevertAll(u, g, [ObjectEntry(run, base, chat, Some(was), rev)] + CreatedEntries(run, base, made, linked)) ==
            if CommitUntouched(u, g, made, linked)
               && Live(g, chat) && g.objects[chat].revision == rev && u.textOk(was.title, was.description)
            then Some(SummaryUndone(u, CommitArchived(u, g, made, linked), chat, was)) else None
  {
    hide CommitUntouched, CreatedEntries;
    var summary := ObjectEntry(run, base, chat, Some(was), rev);
    UndoIff(u, g, [summary], run, base, made, linked);
    if CommitUntouched(u, g, made, linked) {
      var h := CommitArchived(u, g, made, linked);
      RevertLast(u, h, [], summary);
      assert [] + [summary] == [summary];
    }
  }

  function SummaryUndone(u: Reverser, g: Graph, chat: Id, was: ObjectRow): Graph {
    if chat in g.objects then g.(objects := g.objects[chat := RestoredObject(u, g.objects[chat], was)]) else g
  }

  /** Undo checks descriptions by the rules plans are validated by. */
  ghost predicate SameTextRules(u: Reverser, r: Rules) {
    forall t, d :: u.textOk(t, d) <==> TextOk(r, d, r.descriptionMax) && !r.weak(t, Trim(r, d))
  }

  lemma CommittedText(u: Reverser, r: Rules, plan: Plan, k: nat)
    requires Accepted(r, plan) && Tidy(r, plan) == plan && SameTextRules(u, r) && k < |plan.creates|
    ensures u.textOk(plan.creates[k].title, plan.creates[k].description)
  {
  }

  /** Every connection names Objects that exist, archived or not: the foreign keys of the schema. */
  ghost predicate EndsExist(g: Graph) {
    forall c :: c in g.connections ==> g.connections[c].source in g.objects && g.connections[c].target in g.objects
  }

  /** Rows of g are as they were, and whatever it lacked is archived. */
  ghost predicate TakenBack(g: Graph, back: Graph) {
    && (forall x :: x in g.objects ==> x in back.objects && back.objects[x] == g.objects[x])
    && (forall x :: x in back.objects && x !in g.objects ==> back.objects[x].archived)
    && (forall c :: c in g.connections ==> c in back.connections && back.connections[c] == g.connections[c])
    && (forall c :: c in back.connections && c !in g.connections ==> back.connections[c].archived)
  }

  /** Round trip: right after the commit, undo gets past it, leaves every earlier row as it was and archives the rest.
      */
  lemma CommitThenUndo(u: Reverser, r: Rules, g: Graph, h: Graph, w: Window, plan: Plan, made: seq<Id>, linked: seq<Id>,
                       before: seq<Entry>, run: Id, base: nat)
    requires Accepted(r, plan) && Tidy(r, plan) == plan && SameTextRules(u, r)
    requires EndsExist(g) && Committed(g, h, w, plan, made, linked)
    ensures CommitUntouched(u, h, made, linked) && TakenBack(g, CommitArchived(u, h, made, linked))
    ensures RevertAll(u, h, before + CreatedEntries(run, base, made, linked))
         == RevertAll(u, CommitArchived(u, h, made, linked), before)
  {
    hide *;
    UndoIff(u, h, before, run, base, made, linked) by { AddedDistinct(g, h, w, plan, made, linked); }
    JustCommitted(u, r, g, h, w, plan, made, linked);
    JustArchived(u, g, h, w, plan, made, linked);
  }

  lemma AddedDistinct(g: Graph, h: Graph, w: Window, plan: Plan, made: seq<Id>, linked: seq<Id>)
    requires Committed(g, h, w, plan, made, linked)
    ensures Distinct(made) && Distinct(linked)
  {
  }

  lemma JustCommitted(u: Reverser, r: Rules, g: Graph, h: Graph, w: Window, plan: Plan, made: seq<Id>, linked: seq<Id>)
    requires Accepted(r, plan) && Tidy(r, plan) == plan && SameTextRules(u, r)
    requires EndsExist(g) && Committed(g, h, w, plan, made, linked)
    ensures CommitUntouched(u, h, made, linked)
  {
    hide Trim, Accepted, Tidy, EndsExist, MemoryUntouched;
    forall k | 0 <= k < |plan.creates| ensures u.textOk(plan.creates[k].title, plan.creates[k].description) {
      CommittedText(u, r, plan, k);
    }
    forall c | c in linked ensures EdgeUntouched(h, c) { assert Added(g, h, c); }
    forall x | x in made ensures MemoryUntouched(u, h, linked, x) {
      MadeUntouched(u, g, h, w, plan, made, linked, x);
    }
  }

  lemma JustArchived(u: Reverser, g: Graph, h: Graph, w: Window, plan: Plan, made: seq<Id>, linked: seq<Id>)
    requires Committed(g, h, w, plan, made, linked)
    ensures TakenBack(g, CommitArchived(u, h, made, linked))
  {
    hide FromLink, LinkHeld;
    assert forall c :: c in linked ==> Added(g, h, c);
  }

  lemma MadeUntouched(u: Reverser, g: Graph, h: Graph, w: Window, plan: Plan, made: seq<Id>, linked: seq<Id>, x: Id)
    requires EndsExist(g) && Committed(g, h, w, plan, made, linked) && x in made
    requires forall k :: 0 <= k < |plan.creates| ==> u.textOk(plan.creates[k].title, plan.creates[k].description)
    ensures MemoryUntouched(u, h, linked, x)
  {
    assert forall c :: ActiveEdge(g, c) ==> !Touches(g.connections[c], x);
  }

  /** TakenBack, but for the revision and the last writer of the Chat. */
  ghost predicate RunTakenBack(u: Reverser, g: Graph, back: Graph, chat: Id)
    requires chat in g.objects
  {
    var was := g.objects[chat];
    && chat in back.objects
    && back.objects[chat] == was.(revision := was.revision + 2, updatedByType := u.kind, updatedBy := u.name)
    && TakenBack(g, back.(objects := back.objects[chat := was]))
  }

  /** Round trip of a whole worker run, summary and commit: undo right after succeeds exactly when the Chat is live and
      the text the summary replaced meets the rules of today. Then every row is as before the run, but for the
      revision and last writer of the Chat, and what the run added is archived. */
  lemma RunThenUndo(u: Reverser, r: Rules, g: Graph, s: Graph, h: Graph, w: Window, plan: Plan, summary: Summary,
                    made: seq<Id>, linked: seq<Id>, run: Id, base: nat)
    requires Accepted(r, plan) && Tidy(r, plan) == plan && SameTextRules(u, r)
    requires EndsExist(g) && w.chat in g.objects
        && s == g.(objects := g.objects[w.chat := Summarized(g.objects[w.chat], summary)])
    requires Committed(s, h, w, plan, made, linked)
    ensures var was := g.objects[w.chat];
      var entry := ObjectEntry(run, base, w.chat, Some(was), was.revision + 1);
      var back := RevertAll(u, h, [entry] + CreatedEntries(run, base, made, linked));
      && (back.Some? <==> !was.archived && u.textOk(was.title, was.description))
      && (back.Some? ==> RunTakenBack(u, g, back.value, w.chat))
  {
    hide Trim, Accepted, Tidy, RevertAll, CommitUntouched, CommitArchived, Summarized, TakenBack;
    SummaryRow(g, s, h, w, plan, made, linked, summary);
    CommitThenUndo(u, r, s, h, w, plan, made, linked, [], run, base);
    UndoSummaryIff(u, h, w.chat, g.objects[w.chat], g.objects[w.chat].revision + 1, run, base, made, linked);
    if CommitUntouched(u, h, made, linked) { ChatBack(u, g, s, CommitArchived(u, h, made, linked), w.chat, summary); }
  }

  lemma SummaryRow(g: Graph, s: Graph, h: Graph, w: Window, plan: Plan, made: seq<Id>, linked: seq<Id>,
                   summary: Summary)
    requires EndsExist(g) && w.chat in g.objects
        && s == g.(objects := g.objects[w.chat := Summarized(g.objects[w.chat], summary)])
    requires Committed(s, h, w, plan, made, linked)
    ensures EndsExist(s) && w.chat !in made && w.chat in h.objects && h.objects[w.chat] == s.objects[w.chat]
    ensures s.objects[w.chat].revision == g.objects[w.chat].revision + 1
        && s.objects[w.chat].archived == g.objects[w.chat].archived
  {
  }

  lemma ChatBack(u: Reverser, g: Graph, s: Graph, a: Graph, chat: Id, summary: Summary)
    requires chat in g.objects && s == g.(objects := g.objects[chat := Summarized(g.objects[chat], summary)])
        && TakenBack(s, a)
    ensures var back := SummaryUndone(u, a, chat, g.objects[chat]);
      RunTakenBack(u, g, back, chat)
  {
    hide CommitArchived;
    var was := g.objects[chat];
    var back := SummaryUndone(u, a, chat, was);
    assert a.objects[chat] == s.objects[chat];
    assert back.objects[chat := was] == a.objects[chat := was];
  }
}
