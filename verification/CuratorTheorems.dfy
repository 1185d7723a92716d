/** What a curator plan must be, what the worker's filters leave of it and what its commit adds, in terms of the plan's
    own fields and of rows and columns. */
module CuratorTheorems {
  import opened Wrappers
  import opened Collections
  import Text
  import opened MemoryGraph
  import opened CuratorPlan
  import opened CuratorCommit

  // ----- which plans are accepted -----

  /** Text of 1 to max characters once the white space around it is gone. */
  predicate Sized(r: Rules, s: string, max: nat) {
    1 <= |Text.Trim(r.white, s)| <= max
  }

  /** Some Memory of the plan has this name, white space around both aside. */
  predicate NamesMemory(r: Rules, plan: Plan, ref: Ref) {
    ref.Created? ==>
      && Sized(r, ref.client, 100)
      && exists item :: item in plan.creates && Text.Trim(r.white, item.client) == Text.Trim(r.white, ref.client)
  }

  predicate SameEvidence(a: seq<Id>, b: seq<Id>) {
    |a| == |b| && (forall m :: m in a ==> m in b) && forall m :: m in b ==> m in a
  }

  predicate MemoryItem(r: Rules, item: CreateObject) {
    && Sized(r, item.client, 100) && Sized(r, item.title, 300) && Sized(r, item.description, r.descriptionMax)
    && r.lower(Text.Trim(r.white, item.kind)) == "memory" && item.memory.Some? && !item.foreign
    && !r.weak(Text.Trim(r.white, item.title), Text.Trim(r.white, item.description))
  }

  predicate LinkItem(r: Rules, plan: Plan, link: CreateLink) {
    && NamesMemory(r, plan, link.source) && NamesMemory(r, plan, link.target) && Sized(r, link.description, 1000)
    && var kind := r.lower(Text.Trim(r.white, link.kind));
       kind == "involves" || kind == "about" || kind == "themed" || kind == "related_to" || kind == "derived_from"
  }

  /** A link of the plan says that the Memory comes from a stored Object, on the same messages. */
  predicate RestsOn(r: Rules, plan: Plan, item: CreateObject) {
    exists k :: 0 <= k < |plan.links|
      && r.lower(Text.Trim(r.white, plan.links[k].kind)) == "derived_from"
      && plan.links[k].source.Created?
      && Text.Trim(r.white, plan.links[k].source.client) == Text.Trim(r.white, item.client)
      && plan.links[k].target.Existing? && SameEvidence(plan.links[k].messages, item.messages)
  }

  /** Main theorem on validation: a plan is accepted exactly if it has at most a hundred operations and no update among
      them, its Memories are named apart and well formed, its links name stored Objects or its own Memories, and every
      Memory rests on a stored Object. */
  lemma AcceptedIff(r: Rules, plan: Plan)
    ensures Accepted(r, plan) <==>
      && |plan.creates| + |plan.links| <= 100 && plan.objectUpdates == 0 && plan.linkUpdates == 0
      && (forall i :: 0 <= i < |plan.creates| ==> MemoryItem(r, plan.creates[i]) && RestsOn(r, plan, plan.creates[i]))
      && (forall i, j :: 0 <= i < j < |plan.creates| ==>
            Text.Trim(r.white, plan.creates[i].client) != Text.Trim(r.white, plan.creates[j].client))
      && (forall k :: 0 <= k < |plan.links| ==> LinkItem(r, plan, plan.links[k]))
  {
    hide Text.Trim;
    forall i | 0 <= i < |plan.creates|
      ensures CreateOk(r, plan.creates[i]) <==> MemoryItem(r, plan.creates[i])
      ensures Grounded(r, plan.links, plan.creates[i]) <==> RestsOn(r, plan, plan.creates[i])
    {
      MemoryItemIff(r, plan.creates[i]);
      RestsOnIff(r, plan, plan.creates[i]);
    }
    forall k | 0 <= k < |plan.links|
      ensures LinkOk(r, plan.links[k], Clients(r, plan.creates)) <==> LinkItem(r, plan, plan.links[k])
    {
      LinkItemIff(r, plan, plan.links[k]);
    }
    hide CreateOk, MemoryItem, Grounded, RestsOn, LinkOk, LinkItem;
  }

  lemma MemoryItemIff(r: Rules, item: CreateObject)
    ensures CreateOk(r, item) <==> MemoryItem(r, item)
  {
    hide Text.Trim;
  }

  lemma RestsOnIff(r: Rules, plan: Plan, item: CreateObject)
    ensures Grounded(r, plan.links, item) <==> RestsOn(r, plan, item)
  {
    hide Text.Trim;
    forall a, b ensures SameMessages(a, b) <==> SameEvidence(a, b) { SameEvidenceIff(a, b); }
  }

  lemma SameEvidenceIff(a: seq<Id>, b: seq<Id>)
    ensures SameMessages(a, b) <==> SameEvidence(a, b)
  {
    var sa, sb := set m | m in a, set m | m in b;
    if SameMessages(a, b) {
      forall m | m in a ensures m in b { assert m in sa; }
      forall m | m in b ensures m in a { assert m in sb; }
    }
  }

  lemma LinkItemIff(r: Rules, plan: Plan, link: CreateLink)
    ensures LinkOk(r, link, Clients(r, plan.creates)) <==> LinkItem(r, plan, link)
  {
    NamesIff(r, plan, link.source);
    NamesIff(r, plan, link.target);
    hide Text.Trim, RefOk, NamesMemory, Clients;
  }

  lemma NamesIff(r: Rules, plan: Plan, ref: Ref)
    ensures RefOk(r, ref, Clients(r, plan.creates)) <==> NamesMemory(r, plan, ref)
  {
    hide Text.Trim;
  }

  /** What an accepted plan becomes: white space around names and texts goes, kinds are the known ones, nothing else
      changes. */
  lemma NormalForm(r: Rules, plan: Plan)
    requires Accepted(r, plan)
    ensures var p := Tidy(r, plan);
      && |p.creates| == |plan.creates| && |p.links| == |plan.links| && p.objectUpdates == p.linkUpdates == 0
      && (forall i :: 0 <= i < |plan.creates| ==>
            var item := plan.creates[i];
            p.creates[i] == CreateObject(Text.Trim(r.white, item.client), "memory", Text.Trim(r.white, item.title),
                                         Text.Trim(r.white, item.description), item.memory, false, item.messages))
      && (forall k :: 0 <= k < |plan.links| ==>
            var link := plan.links[k];
            p.links[k]
                == CreateLink(Spelled(r, link.source), r.lower(Text.Trim(r.white, link.kind)), Spelled(r, link.target),
                                     Text.Trim(r.white, link.description), link.messages))
  {
    hide Text.Trim;
    AcceptedIff(r, plan);
    hide Accepted;
  }

  function Spelled(r: Rules, ref: Ref): Ref {
    match ref
    case Existing(id) => Existing(id)
    case Created(client) => Created(Text.Trim(r.white, client))
  }

  // ----- what the worker's filters leave -----

  /** What the worker does not let pass: another kind than a Memory, a report about its own records, no evidence, or
      evidence that is not all human. */
  predicate Rejected(item: CreateObject, human: set<Id>, report: string -> bool) {
    item.kind != "memory" || report(item.description) || item.messages == []
    || exists k :: 0 <= k < |item.messages| && item.messages[k] !in human
  }

  predicate BadName(plan: Plan, human: set<Id>, report: string -> bool, client: string) {
    exists i :: 0 <= i < |plan.creates| && plan.creates[i].client == client && Rejected(plan.creates[i], human, report)
  }

  predicate NamesBad(plan: Plan, human: set<Id>, report: string -> bool, ref: Ref) {
    ref.Created? && BadName(plan, human, report, ref.client)
  }

  /** The first filter keeps exactly the Memories under whose name the plan proposes nothing to be rejected, and the
      links that name no other. */
  lemma DropIff(plan: Plan, human: set<Id>, report: string -> bool)
    ensures var p := DropDisallowed(plan, human, report);
      && (forall item :: item in p.creates <==> item in plan.creates && !BadName(plan, human, report, item.client))
      && (forall link :: link in p.links <==>
            link in plan.links && !NamesBad(plan, human, report, link.source)
                && !NamesBad(plan, human, report, link.target))
      && p.objectUpdates == plan.objectUpdates && p.linkUpdates == plan.linkUpdates
  {
    var dropped := Dropped(plan, human, report);
    forall i | 0 <= i < |plan.creates|
      ensures Disallowed(plan.creates[i], human, report) <==> Rejected(plan.creates[i], human, report)
    {
    }
    hide Disallowed, Rejected;
    forall client ensures client in dropped <==> BadName(plan, human, report, client) {
    }
    hide Dropped, BadName;
  }

  /** An end the worker can resolve: a Memory of the plan, the Chat, or a candidate no other candidate shares kind and
      title with, white space and capitals aside. */
  ghost predicate Resolvable(r: Rules, candidates: seq<Candidate>, chat: Id, ref: Ref) {
    ref.Created? || ref.id == chat ||
    exists i :: 0 <= i < |candidates| && candidates[i].id == ref.id && Alone(r, candidates, i)
  }

  ghost predicate Alone(r: Rules, candidates: seq<Candidate>, i: nat)
    requires i < |candidates|
  {
    forall j :: 0 <= j < |candidates| && j != i ==>
      candidates[j].kind != candidates[i].kind
      || r.lower(Text.Trim(r.white, candidates[j].title)) != r.lower(Text.Trim(r.white, candidates[i].title))
  }

  /** The second filter keeps exactly the links both of whose ends can be resolved. */
  lemma ResolvedIff(r: Rules, plan: Plan, candidates: seq<Candidate>, chat: Id)
    ensures var p := DropUnresolved(r, plan, candidates, chat);
      && p.creates == plan.creates
      && forall link :: link in p.links <==>
           link in plan.links && Resolvable(r, candidates, chat, link.source)
               && Resolvable(r, candidates, chat, link.target)
  {
    hide Text.Trim;
    var eligible := Unambiguous(r, candidates);
    forall id ensures id in eligible <==>
      exists i :: 0 <= i < |candidates| && candidates[i].id == id && Alone(r, candidates, i)
    {
      EligibleIff(r, candidates, id);
    }
    hide Unambiguous, Alone;
  }

  lemma EligibleIff(r: Rules, candidates: seq<Candidate>, id: Id)
    ensures id in Unambiguous(r, candidates) <==>
      exists i :: 0 <= i < |candidates| && candidates[i].id == id && Alone(r, candidates, i)
  {
    hide Text.Trim;
    forall i | 0 <= i < |candidates|
      ensures Alone(r, candidates, i) <==>
        forall j :: 0 <= j < |candidates| && j != i ==> Identity(r, candidates[j]) != Identity(r, candidates[i])
    {
    }
    hide Identity, Alone;
  }

  // ----- what a commit asks for -----

  /** Messages of the window, at least one. */
  predicate Cited(w: Window, messages: seq<Id>) {
    |messages| > 0 && forall k :: 0 <= k < |messages| ==> messages[k] in w.human
  }

  /** An end of a new connection: a Memory of the plan, or a live Object that is the Chat or that the run retrieved. */
  predicate End(g: Graph, w: Window, plan: Plan, ref: Ref) {
    match ref
    case Created(client) => exists item :: item in plan.creates && item.client == client
    case Existing(id) => id in g.objects && !g.objects[id].archived && (id == w.chat || id in w.consulted)
  }

  /** A new Memory: its messages are human ones of the window, its wording meets the rules, and a link of the plan
      derives it from the Chat on the same messages. */
  predicate Grounding(w: Window, plan: Plan, item: CreateObject) {
    && Cited(w, item.messages) && (forall k :: 0 <= k < |item.messages| ==> w.human[item.messages[k]])
        && w.wording(item)
    && exists k :: 0 <= k < |plan.links| && plan.links[k].kind == "derived_from"
         && plan.links[k].source == Created(item.client) && plan.links[k].target == Existing(w.chat)
         && SameEvidence(plan.links[k].messages, item.messages)
  }

  /** A new connection: it cites the window, has such ends, and one of them is a Memory. */
  predicate Connecting(g: Graph, w: Window, plan: Plan, link: CreateLink) {
    && Cited(w, link.messages) && End(g, w, plan, link.source) && End(g, w, plan, link.target)
    && (link.source.Created? || link.target.Created?
        || g.objects[link.source.id].kind == "memory" || g.objects[link.target.id].kind == "memory")
  }

  /** Which plans the committing transaction allows, beyond what validation asks. */
  lemma PolicyIff(g: Graph, w: Window, plan: Plan)
    ensures PolicyOk(g, w, plan) <==>
      && (forall k :: 0 <= k < |plan.creates| ==> Grounding(w, plan, plan.creates[k]))
      && (forall k :: 0 <= k < |plan.links| ==> Connecting(g, w, plan, plan.links[k]))
  {
    forall k | 0 <= k < |plan.creates|
      ensures HumanGrounded(w, plan.creates[k]) && FromChat(w, plan, plan.creates[k]) <==>
          Grounding(w, plan, plan.creates[k])
    {
      GroundingIff(w, plan, plan.creates[k]);
    }
    forall k | 0 <= k < |plan.links|
      ensures LinkAllowed(g, w, plan, plan.links[k]) <==> Connecting(g, w, plan, plan.links[k])
    {
      ConnectingIff(g, w, plan, plan.links[k]);
    }
    hide HumanGrounded, FromChat, Grounding, LinkAllowed, Connecting;
  }

  lemma CitedIff(w: Window, messages: seq<Id>)
    ensures InWindow(w, messages) <==> Cited(w, messages)
  {
  }

  lemma GroundingIff(w: Window, plan: Plan, item: CreateObject)
    ensures HumanGrounded(w, item) && FromChat(w, plan, item) <==> Grounding(w, plan, item)
  {
    CitedIff(w, item.messages);
    hide Cited, InWindow;
    forall a, b ensures SameMessages(a, b) <==> SameEvidence(a, b) { SameEvidenceIff(a, b); }
    hide SameMessages, SameEvidence;
  }

  lemma ConnectingIff(g: Graph, w: Window, plan: Plan, link: CreateLink)
    ensures LinkAllowed(g, w, plan, link) <==> Connecting(g, w, plan, link)
  {
    CitedIff(w, link.messages);
    hide Cited, InWindow;
  }

  // ----- what a commit adds -----

  /** Memory k of the plan is stored as it was proposed, on its messages and from the Chat, unlocked and unprotected. */
  lemma AddedMemory(g: Graph, h: Graph, w: Window, plan: Plan, made: seq<Id>, linked: seq<Id>, k: nat)
    requires Committed(g, h, w, plan, made, linked) && k < |made|
    ensures k < |plan.creates| && made[k] !in g.objects && made[k] in h.objects
    ensures var item := plan.creates[k];
      h.objects[made[k]] ==
      ObjectRow("memory", item.title, item.description,
                Provenance("context_curator", None, item.messages, Some(w.chat), false, [], None),
                item.memory, false, false, 1, System, "context-curator", System, "context-curator")
  {
    hide LinksAdded;
  }

  /** An Object the run may connect: one it made, the Chat or one it retrieved, live when the commit began. */
  predicate Reachable(g: Graph, w: Window, made: seq<Id>, x: Id) {
    x in made || ((x == w.chat || x in w.consulted) && x in g.objects && !g.objects[x].archived)
  }

  predicate IsMemory(h: Graph, x: Id) {
    x in h.objects && h.objects[x].kind == "memory"
  }

  /** The row link `link` makes between these ends. */
  predicate Makes(link: CreateLink, row: ConnRow) {
    row == ConnRow(row.source, link.kind, row.target, link.description, false, false, 1, System, System,
                   "context-curator")
  }

  /** Main theorem on the connections of a commit: each joins a Memory to Objects the run made or was shown, and cites
      messages of the window for it. */
  lemma AddedLink(g: Graph, h: Graph, w: Window, plan: Plan, made: seq<Id>, linked: seq<Id>, c: Id)
    requires Normal(plan) && PolicyOk(g, w, plan) && Committed(g, h, w, plan, made, linked)
    requires c in h.connections && c !in g.connections
    ensures var row := h.connections[c];
      && Reachable(g, w, made, row.source) && Reachable(g, w, made, row.target)
      && (IsMemory(h, row.source) || IsMemory(h, row.target))
      && exists k :: 0 <= k < |plan.links| && Makes(plan.links[k], row)
           && |plan.links[k].messages| > 0 && forall m :: m in plan.links[k].messages ==> m in w.human
  {
    hide Denotes, MemoriesAdded, PolicyOk, Normal, Connecting, LinkHeld, Added, Reachable, IsMemory;
    assert c in linked;
    var k :| 0 <= k < |plan.links| && FromLink(h, plan, made, plan.links[k], c);
    var link, row := plan.links[k], h.connections[c];
    PolicyIff(g, w, plan);
    LinkEnd(g, h, w, plan, made, link.source, row.source);
    LinkEnd(g, h, w, plan, made, link.target, row.target);
    OneIsMemory(g, h, w, plan, made, link, row.source, row.target);
    assert Connecting(g, w, plan, link);
    CitesWindow(g, w, plan, link);
  }

  lemma CitesWindow(g: Graph, w: Window, plan: Plan, link: CreateLink)
    requires Connecting(g, w, plan, link)
    ensures |link.messages| > 0 && forall m :: m in link.messages ==> m in w.human
    ensures End(g, w, plan, link.source) && End(g, w, plan, link.target)
  {
  }

  lemma LinkEnd(g: Graph, h: Graph, w: Window, plan: Plan, made: seq<Id>, ref: Ref, x: Id)
    requires |made| == |plan.creates| && MemoriesAdded(g, h, w, plan, made) && Denotes(plan, made, ref, x)
    ensures End(g, w, plan, ref) ==> Reachable(g, w, made, x)
  {
  }

  lemma OneIsMemory(g: Graph, h: Graph, w: Window, plan: Plan, made: seq<Id>, link: CreateLink, source: Id, target: Id)
    requires |made| == |plan.creates| && MemoriesAdded(g, h, w, plan, made)
    requires Denotes(plan, made, link.source, source) && Denotes(plan, made, link.target, target)
    ensures Connecting(g, w, plan, link) ==> IsMemory(h, source) || IsMemory(h, target)
  {
  }

  /** And every such plan commits. */
  method CommitAllowed(store: Store, r: Rules, raw: Plan, w: Window, run: Id)
      returns (ghost made: seq<Id>, ghost linked: seq<Id>)
    requires PlainKinds(r) && Accepted(r, raw)
    requires forall k :: 0 <= k < |raw.creates| ==> Grounding(w, Tidy(r, raw), Tidy(r, raw).creates[k])
    requires forall k :: 0 <= k < |raw.links| ==>
      Connecting(store.graph, w, Tidy(r, raw), Tidy(r, raw).links[k])
          && Tidy(r, raw).links[k].source != Tidy(r, raw).links[k].target
    modifies store
    ensures Committed(old(store.graph), store.graph, w, Tidy(r, raw), made, linked)
    ensures store.journal == old(store.journal) + CreatedEntries(run, |old(store.journal)|, made, linked)
  {
    hide Accepted, Committed, PlainKinds, Grounding, Connecting;
    PolicyIff(store.graph, w, Tidy(r, raw));
    hide PolicyOk;
    var ok;
    ok, made, linked := store.Commit(r, raw, w, run);
  }

  // ----- undo whenever it comes -----

  /** Whatever was written since, an undo that succeeds leaves a sound graph sound: no connection doubles another, none
      is left on an archived Object. */
  lemma {:induction false} UndoKeepsSound(u: Reverser, g: Graph, journal: seq<Entry>)
    requires Sound(g) && RevertAll(u, g, journal).Some?
    ensures Sound(RevertAll(u, g, journal).value)
    decreases |journal|
  {
    if journal != [] {
      var e := journal[|journal| - 1];
      RevertSound(u, g, e);
      hide Sound, RevertEntry;
      UndoKeepsSound(u, RevertEntry(u, g, e).value, journal[..|journal| - 1]);
    }
  }

  lemma RevertSound(u: Reverser, g: Graph, e: Entry)
    requires Sound(g) && RevertEntry(u, g, e).Some?
    ensures Sound(RevertEntry(u, g, e).value)
  {
    var h := RevertEntry(u, g, e).value;
    if e.ConnEntry? {
      RevertedEdge(u, g, e);
      hide RevertEntry;
      forall c | ActiveEdge(h, c) ensures EndsLive(h, h.connections[c]) {
        assert ActiveEdge(g, c) && EndsLive(g, g.connections[c]);
      }
      forall c, d | ActiveEdge(h, c) && ActiveEdge(h, d) && SameTriple(h.connections[c], h.connections[d])
        ensures c == d
      {
        assert ActiveEdge(g, c) && ActiveEdge(g, d);
      }
    } else {
      forall c | ActiveEdge(h, c) ensures EndsLive(h, h.connections[c]) {
        assert ActiveEdge(g, c) && EndsLive(g, g.connections[c]);
        if e.was.None? { assert c !in ActiveEdgesOf(g, e.id); }
      }
      assert forall c, d :: ActiveEdge(h, c) && ActiveEdge(h, d) ==> ActiveEdge(g, c) && ActiveEdge(g, d);
    }
  }

  lemma RevertedEdge(u: Reverser, g: Graph, e: Entry)
    requires e.ConnEntry? && RevertEntry(u, g, e).Some?
    ensures var h := RevertEntry(u, g, e).value;
      && e.id in g.connections && e.id in h.connections && !g.connections[e.id].archived
      && h == g.(connections := g.connections[e.id := h.connections[e.id]])
      && h.connections[e.id].source == g.connections[e.id].source
          && h.connections[e.id].target == g.connections[e.id].target
      && (!h.connections[e.id].archived ==>
            forall c :: ActiveEdge(g, c) && c != e.id ==> !SameTriple(g.connections[c], h.connections[e.id]))
  {
  }

  /** A connection edited by the run and by nobody since is again what it was, but for its revision and last writer. */
  lemma EditedLinkBack(u: Reverser, g: Graph, run: Id, k: nat, c: Id, was: ConnRow)
    requires c in g.connections && !was.archived
    requires var n := g.connections[c];
      n == was.(kind := n.kind, description := n.description, protected := n.protected, revision := was.revision + 1,
                updatedByType := n.updatedByType, updatedBy := n.updatedBy)
    ensures var back := RevertEntry(u, g, ConnEntry(run, k, c, Some(was), was.revision + 1));
      && (back.Some? <==> forall d :: ActiveEdge(g, d) && d != c ==> !SameTriple(g.connections[d], was))
      && (back.Some? ==> back.value == g.(connections := g.connections[
            c := was.(revision := was.revision + 2, updatedByType := u.kind, updatedBy := u.name)]))
  {
  }
}
