/** The curator's append-only plan: normalising and validating it, and the filters that run before. Validation
    happens twice, outside and inside the committing transaction, so it must not change an accepted plan. */
module CuratorPlan {
  import opened Wrappers
  import opened Collections
  import Text
  import opened MemoryGraph

  datatype Ref = Existing(id: Id) | Created(client: string)

  /** `memory` is the time of the Memory fields; `foreign` says that fields of another kind are present. */
  datatype CreateObject = CreateObject(
    client: string, kind: string, title: string, description: string,
    memory: Option<int>, foreign: bool, messages: seq<Id>)

  datatype CreateLink = CreateLink(source: Ref, kind: string, target: Ref, description: string, messages: seq<Id>)

  /** Updates are refused by count, so only their number matters. */
  datatype Plan = Plan(creates: seq<CreateObject>, objectUpdates: nat, links: seq<CreateLink>, linkUpdates: nat)

  const MAX_OPERATIONS := 100
  const OBJECT_KINDS: seq<string> := ["memory"]
  const LINK_KINDS: seq<string> := ["involves", "about", "themed", "related_to", "derived_from"]

  /** White space, lower case, the description limit and the wording rules for descriptions. */
  datatype Rules = Rules(white: char -> bool, lower: string -> string, descriptionMax: nat,
                         weak: (string, string) -> bool)

  /** The known kinds are lower case already and have no white space around them. */
  ghost predicate PlainKinds(r: Rules) {
    forall k :: k in OBJECT_KINDS || k in LINK_KINDS ==> r.lower(k) == k && Text.Trimmed(r.white, k)
  }

  // ----- text -----

  function Trim(r: Rules, s: string): (t: string)
    ensures Text.Trimmed(r.white, t)
    ensures Text.Trimmed(r.white, s) ==> t == s
  {
    Text.Trim(r.white, s)
  }

  predicate TextOk(r: Rules, s: string, max: nat) {
    0 < |Trim(r, s)| <= max
  }

  function Plain(r: Rules, s: string): string {
    r.lower(Trim(r, s))
  }

  // ----- what a plan must be, and its normal form -----

  predicate CreateOk(r: Rules, item: CreateObject) {
    && TextOk(r, item.client, 100) && Plain(r, item.kind) in OBJECT_KINDS && TextOk(r, item.title, 300)
    && TextOk(r, item.description, r.descriptionMax) && !r.weak(Trim(r, item.title), Trim(r, item.description))
    && item.memory.Some? && !item.foreign
  }

  function TidyCreate(r: Rules, item: CreateObject): CreateObject {
    item.(client := Trim(r, item.client), kind := Plain(r, item.kind), title := Trim(r, item.title),
          description := Trim(r, item.description))
  }

  function Clients(r: Rules, creates: seq<CreateObject>): set<string> {
    set i | 0 <= i < |creates| :: Trim(r, creates[i].client)
  }

  predicate RefOk(r: Rules, ref: Ref, clients: set<string>) {
    ref.Created? ==> TextOk(r, ref.client, 100) && Trim(r, ref.client) in clients
  }

  function TidyRef(r: Rules, ref: Ref): Ref {
    if ref.Created? then Created(Trim(r, ref.client)) else ref
  }

  predicate LinkOk(r: Rules, link: CreateLink, clients: set<string>) {
    && RefOk(r, link.source, clients) && RefOk(r, link.target, clients)
    && Plain(r, link.kind) in LINK_KINDS && TextOk(r, link.description, 1000)
  }

  function TidyLink(r: Rules, link: CreateLink): CreateLink {
    link.(source := TidyRef(r, link.source), target := TidyRef(r, link.target), kind := Plain(r, link.kind),
          description := Trim(r, link.description))
  }

  predicate SameMessages(a: seq<Id>, b: seq<Id>) {
    |a| == |b| && (set m | m in a) == (set m | m in b)
  }

  /** The link records where the Memory comes from, on the same evidence. */
  predicate Grounds(r: Rules, link: CreateLink, memory: CreateObject) {
    && Plain(r, link.kind) == "derived_from" && TidyRef(r, link.source) == Created(Trim(r, memory.client))
    && link.target.Existing? && SameMessages(link.messages, memory.messages)
  }

  predicate Grounded(r: Rules, links: seq<CreateLink>, memory: CreateObject) {
    exists k :: 0 <= k < |links| && Grounds(r, links[k], memory)
  }

  ghost predicate UniqueClients(r: Rules, creates: seq<CreateObject>) {
    forall i, j :: 0 <= i < j < |creates| ==> Trim(r, creates[i].client) != Trim(r, creates[j].client)
  }

  predicate Append(plan: Plan) {
    |plan.creates| + plan.objectUpdates + |plan.links| + plan.linkUpdates <= MAX_OPERATIONS && plan.objectUpdates == 0
        && plan.linkUpdates == 0
  }

  ghost predicate Accepted(r: Rules, plan: Plan) {
    && Append(plan)
    && (forall i :: 0 <= i < |plan.creates| ==> CreateOk(r, plan.creates[i]))
    && UniqueClients(r, plan.creates)
    && (forall k :: 0 <= k < |plan.links| ==> LinkOk(r, plan.links[k], Clients(r, plan.creates)))
    && (forall i :: 0 <= i < |plan.creates| ==> Grounded(r, plan.links, plan.creates[i]))
  }

  function TidyCreates(r: Rules, creates: seq<CreateObject>): seq<CreateObject> {
    seq(|creates|, i requires 0 <= i < |creates| => TidyCreate(r, creates[i]))
  }

  function TidyLinks(r: Rules, links: seq<CreateLink>): seq<CreateLink> {
    seq(|links|, i requires 0 <= i < |links| => TidyLink(r, links[i]))
  }

  function Tidy(r: Rules, plan: Plan): Plan {
    plan.(creates := TidyCreates(r, plan.creates), links := TidyLinks(r, plan.links))
  }

  // ----- validation -----

  method NormalizeCreates(r: Rules, creates: seq<CreateObject>)
      returns (tidy: Option<seq<CreateObject>>, clients: set<string>)
    ensures tidy.Some? <==> (forall i :: 0 <= i < |creates| ==> CreateOk(r, creates[i])) && UniqueClients(r, creates)
    ensures tidy.Some? ==> tidy.value == TidyCreates(r, creates) && clients == Clients(r, creates)
  {
    hide Trim, CreateOk;
    clients := {};
    var done := [];
    for i := 0 to |creates|
      invariant |done| == i && forall k :: 0 <= k < i ==>
          done[k] == TidyCreate(r, creates[k]) && CreateOk(r, creates[k])
      invariant clients == Clients(r, creates[..i])
      invariant UniqueClients(r, creates[..i])
    {
      var item := creates[i];
      if !CreateOk(r, item) || Trim(r, item.client) in clients { return None, clients; }
      clients := clients + {Trim(r, item.client)};
      done := done + [TidyCreate(r, item)];
      ClientsGrow(r, creates, i);
    }
    assert creates[..|creates|] == creates;
    tidy := Some(done);
  }

  lemma ClientsGrow(r: Rules, creates: seq<CreateObject>, i: nat)
    requires i < |creates|
    ensures Clients(r, creates[..i + 1]) == Clients(r, creates[..i]) + {Trim(r, creates[i].client)}
  {
  }

  method NormalizeLinks(r: Rules, links: seq<CreateLink>, clients: set<string>) returns (tidy: Option<seq<CreateLink>>)
    ensures tidy.Some? <==> forall k :: 0 <= k < |links| ==> LinkOk(r, links[k], clients)
    ensures tidy.Some? ==> tidy.value == TidyLinks(r, links)
  {
    var done := [];
    for i := 0 to |links|
      invariant |done| == i && forall k :: 0 <= k < i ==>
          done[k] == TidyLink(r, links[k]) && LinkOk(r, links[k], clients)
    {
      if !LinkOk(r, links[i], clients) { return None; }
      done := done + [TidyLink(r, links[i])];
    }
    tidy := Some(done);
  }

  /** Rewrites the plan to its normal form, or refuses it; the last check looks at the rewritten plan. */
  method Validate(r: Rules, plan: Plan) returns (normal: Option<Plan>)
    requires PlainKinds(r)
    ensures normal.Some? <==> Accepted(r, plan)
    ensures normal.Some? ==> normal.value == Tidy(r, plan)
  {
    hide TidyCreate, TidyLink, CreateOk, LinkOk, UniqueClients, Grounds;
    if !Append(plan) { return None; }
    var creates, clients := NormalizeCreates(r, plan.creates);
    if creates.None? { return None; }
    var links := NormalizeLinks(r, plan.links, clients);
    if links.None? { return None; }
    forall k | 0 <= k < |plan.links| ensures Plain(r, plan.links[k].kind) in LINK_KINDS {
      LinkKind(r, plan.links[k], clients);
    }
    for i := 0 to |plan.creates|
      invariant forall k :: 0 <= k < i ==> Grounded(r, plan.links, plan.creates[k])
    {
      TidyGrounded(r, plan.links, plan.creates[i]);
      if !Grounded(r, links.value, creates.value[i]) { return None; }
    }
    normal := Some(plan.(creates := creates.value, links := links.value));
  }

  lemma TidyGrounds(r: Rules, link: CreateLink, memory: CreateObject)
    requires PlainKinds(r) && Plain(r, link.kind) in LINK_KINDS
    ensures Grounds(r, TidyLink(r, link), TidyCreate(r, memory)) == Grounds(r, link, memory)
  {
  }

  lemma TidyGrounded(r: Rules, links: seq<CreateLink>, memory: CreateObject)
    requires PlainKinds(r) && forall k :: 0 <= k < |links| ==> Plain(r, links[k].kind) in LINK_KINDS
    ensures Grounded(r, TidyLinks(r, links), TidyCreate(r, memory)) == Grounded(r, links, memory)
  {
    hide Grounds, TidyLink, TidyCreate, Plain;
    forall k | 0 <= k < |links|
      ensures Grounds(r, TidyLinks(r, links)[k], TidyCreate(r, memory)) == Grounds(r, links[k], memory)
    {
      TidyGrounds(r, links[k], memory);
    }
  }

  // ----- validation is idempotent -----

  lemma TidyCreateOk(r: Rules, item: CreateObject)
    requires PlainKinds(r) && CreateOk(r, item)
    ensures CreateOk(r, TidyCreate(r, item)) && TidyCreate(r, TidyCreate(r, item)) == TidyCreate(r, item)
  {
  }

  lemma TidyLinkOk(r: Rules, link: CreateLink, clients: set<string>)
    requires PlainKinds(r) && LinkOk(r, link, clients)
    ensures LinkOk(r, TidyLink(r, link), clients) && TidyLink(r, TidyLink(r, link)) == TidyLink(r, link)
  {
  }

  lemma TidyClients(r: Rules, creates: seq<CreateObject>)
    ensures Clients(r, TidyCreates(r, creates)) == Clients(r, creates)
    ensures UniqueClients(r, TidyCreates(r, creates)) == UniqueClients(r, creates)
  {
    assert forall i :: 0 <= i < |creates| ==> Trim(r, TidyCreates(r, creates)[i].client) == Trim(r, creates[i].client);
  }

  /** Main theorem: validating an accepted plan again accepts it and changes nothing, so the plan recorded before
      the transaction is the plan committed in it. */
  lemma ValidateIdempotent(r: Rules, plan: Plan)
    requires PlainKinds(r) && Accepted(r, plan)
    ensures Accepted(r, Tidy(r, plan)) && Tidy(r, Tidy(r, plan)) == Tidy(r, plan)
  {
    hide TidyCreate, TidyLink, CreateOk, LinkOk, Grounds, UniqueClients, Clients, Trim, PlainKinds, Text.Trimmed;
    TidyClients(r, plan.creates);
    var clients := Clients(r, plan.creates);
    forall i | 0 <= i < |plan.creates|
      ensures CreateOk(r, TidyCreates(r, plan.creates)[i])
          && Grounded(r, TidyLinks(r, plan.links), TidyCreates(r, plan.creates)[i])
      ensures TidyCreates(r, TidyCreates(r, plan.creates))[i] == TidyCreates(r, plan.creates)[i]
    {
      TidyCreateOk(r, plan.creates[i]);
      forall k | 0 <= k < |plan.links| ensures Plain(r, plan.links[k].kind) in LINK_KINDS {
        LinkKind(r, plan.links[k], clients);
      }
      TidyGrounded(r, plan.links, plan.creates[i]);
    }
    forall k | 0 <= k < |plan.links|
      ensures LinkOk(r, TidyLinks(r, plan.links)[k], clients)
      ensures TidyLinks(r, TidyLinks(r, plan.links))[k] == TidyLinks(r, plan.links)[k]
    {
      TidyLinkOk(r, plan.links[k], clients);
    }
    assert TidyCreates(r, TidyCreates(r, plan.creates)) == TidyCreates(r, plan.creates);
    assert TidyLinks(r, TidyLinks(r, plan.links)) == TidyLinks(r, plan.links);
  }

  lemma LinkKind(r: Rules, link: CreateLink, clients: set<string>)
    requires LinkOk(r, link, clients)
    ensures Plain(r, link.kind) in LINK_KINDS
  {
  }

  // ----- the worker's filters -----

  /** `human` are the human messages that are not noise; `report` is the wording captured elsewhere. */
  predicate Disallowed(item: CreateObject, human: set<Id>, report: string -> bool) {
    || item.kind != "memory" || report(item.description) || item.messages == []
    || exists m :: m in item.messages && m !in human
  }

  function Dropped(plan: Plan, human: set<Id>, report: string -> bool): set<string> {
    set i | 0 <= i < |plan.creates| && Disallowed(plan.creates[i], human, report) :: plan.creates[i].client
  }

  predicate Uses(ref: Ref, clients: set<string>) {
    ref.Created? && ref.client in clients
  }

  function WithoutClients(plan: Plan, dropped: set<string>): Plan {
    plan.(creates := Kept(plan.creates, (item: CreateObject) => item.client !in dropped),
          links := Kept(plan.links, (link: CreateLink) => !Uses(link.source, dropped) && !Uses(link.target, dropped)))
  }

  function DropDisallowed(plan: Plan, human: set<Id>, report: string -> bool): Plan {
    WithoutClients(plan, Dropped(plan, human, report))
  }

  datatype Candidate = Candidate(id: Id, kind: string, title: string)

  function Identity(r: Rules, c: Candidate): (string, string) {
    (c.kind, Plain(r, c.title))
  }

  /** Candidates no other candidate shares kind and title with. */
  function Unambiguous(r: Rules, candidates: seq<Candidate>): set<Id> {
    set i | 0 <= i < |candidates|
            && forall j :: 0 <= j < |candidates| && j != i ==> Identity(r, candidates[j]) != Identity(r, candidates[i])
          :: candidates[i].id
  }

  predicate Resolved(ref: Ref, eligible: set<Id>, chat: Id) {
    ref.Existing? ==> ref.id == chat || ref.id in eligible
  }

  /** A link may name new Memories, the Chat and unambiguous candidates. */
  function DropUnresolved(r: Rules, plan: Plan, candidates: seq<Candidate>, chat: Id): Plan {
    var eligible := Unambiguous(r, candidates);
    plan.(links := Kept(plan.links, (link: CreateLink) => Resolved(link.source, eligible, chat)
                        && Resolved(link.target, eligible, chat)))
  }

  /** After the filter every Memory left is supported by human messages only, no link names a dropped one,
      and nothing else was removed. */
  lemma DropLeavesNoReference(plan: Plan, human: set<Id>, report: string -> bool)
    ensures var p, dropped := DropDisallowed(plan, human, report), Dropped(plan, human, report);
      && (forall item :: item in p.creates ==>
          item.kind == "memory" && item.messages != [] && forall m :: m in item.messages ==> m in human)
      && (forall link :: link in p.links ==> !Uses(link.source, dropped) && !Uses(link.target, dropped))
      && (forall item :: item in plan.creates && item !in p.creates ==> item.client in dropped)
      && (forall link :: link in plan.links && link !in p.links ==>
          Uses(link.source, dropped) || Uses(link.target, dropped))
      && (dropped == {} ==> p == plan)
  {
    var p, dropped := DropDisallowed(plan, human, report), Dropped(plan, human, report);
    forall item | item in p.creates ensures !Disallowed(item, human, report) {
      var i :| 0 <= i < |plan.creates| && plan.creates[i] == item;
      assert item.client !in dropped;
    }
    if dropped == {} {
      KeptAll(plan.creates, (item: CreateObject) => item.client !in dropped);
      KeptAll(plan.links, (link: CreateLink) => !Uses(link.source, dropped) && !Uses(link.target, dropped));
    }
  }

  lemma {:induction false} KeptUnique(r: Rules, creates: seq<CreateObject>, keep: CreateObject -> bool)
    requires UniqueClients(r, creates)
    ensures UniqueClients(r, Kept(creates, keep))
  {
    hide Trim;
    if creates == [] {
    } else {
      var init, last := creates[..|creates| - 1], creates[|creates| - 1];
      KeptUnique(r, init, keep);
      forall i | 0 <= i < |Kept(init, keep)| ensures Trim(r, Kept(init, keep)[i].client) != Trim(r, last.client) {
        assert Kept(init, keep)[i] in init;
      }
    }
  }

  function Names(r: Rules, clients: set<string>): set<string> {
    set c | c in clients :: Trim(r, c)
  }

  /** Once white space is trimmed, the link names one of these. */
  predicate NamesOne(r: Rules, link: CreateLink, clients: set<string>) {
    (link.source.Created? && Trim(r, link.source.client) in Names(r, clients))
    || (link.target.Created? && Trim(r, link.target.client) in Names(r, clients))
  }

  lemma KeptRefOk(r: Rules, creates: seq<CreateObject>, dropped: set<string>, ref: Ref)
    requires UniqueClients(r, creates) && RefOk(r, ref, Clients(r, creates))
    requires forall d :: d in dropped ==> exists i :: 0 <= i < |creates| && creates[i].client == d
    ensures RefOk(r, ref, Clients(r, Kept(creates, (item: CreateObject) => item.client !in dropped)))
            <==> !(ref.Created? && Trim(r, ref.client) in Names(r, dropped))
  {
    hide Trim;
    if ref.Created? {
      var left := Kept(creates, (item: CreateObject) => item.client !in dropped);
      var name := Trim(r, ref.client);
      var i :| 0 <= i < |creates| && name == Trim(r, creates[i].client);
      if d :| d in dropped && Trim(r, d) == name {
        var j :| 0 <= j < |creates| && creates[j].client == d;
        assert i == j;
        forall k | 0 <= k < |left| ensures Trim(r, left[k].client) != name {
          assert left[k] in left;
          var m :| 0 <= m < |creates| && creates[m] == left[k];
          assert m != i;
        }
      } else {
        assert creates[i].client !in dropped;
        assert creates[i] in left;
        var k :| 0 <= k < |left| && left[k] == creates[i];
      }
    }
  }

  lemma KeptGrounded(r: Rules, plan: Plan, dropped: set<string>, memory: CreateObject)
    requires UniqueClients(r, plan.creates) && Grounded(r, plan.links, memory) && memory in plan.creates
        && memory.client !in dropped
    requires forall d :: d in dropped ==> exists i :: 0 <= i < |plan.creates| && plan.creates[i].client == d
    ensures Grounded(r, WithoutClients(plan, dropped).links, memory)
  {
    hide Trim, Plain;
    var k :| 0 <= k < |plan.links| && Grounds(r, plan.links[k], memory);
    var link := plan.links[k];
    var i :| 0 <= i < |plan.creates| && plan.creates[i] == memory;
    forall d | d in dropped ensures d != link.source.client {
      var j :| 0 <= j < |plan.creates| && plan.creates[j].client == d;
      assert j != i;
    }
    var left := WithoutClients(plan, dropped).links;
    assert link in left;
    var m :| 0 <= m < |left| && left[m] == link;
  }

  lemma LeftAcceptedIff(r: Rules, plan: Plan, human: set<Id>, report: string -> bool)
    requires Accepted(r, plan)
    ensures var p, dropped := DropDisallowed(plan, human, report), Dropped(plan, human, report);
      Accepted(r, p) <==> forall link :: link in p.links ==> !NamesOne(r, link, dropped)
  {
    hide Trim, CreateOk, Grounds, Plain, Disallowed;
    var dropped := Dropped(plan, human, report);
    var p := WithoutClients(plan, dropped);
    KeptUnique(r, plan.creates, (item: CreateObject) => item.client !in dropped);
    forall i | 0 <= i < |p.creates| ensures CreateOk(r, p.creates[i]) && Grounded(r, p.links, p.creates[i]) {
      assert p.creates[i] in p.creates;
      KeptGrounded(r, plan, dropped, p.creates[i]);
    }
    forall k | 0 <= k < |p.links|
      ensures LinkOk(r, p.links[k], Clients(r, p.creates)) <==> !NamesOne(r, p.links[k], dropped)
    {
      assert p.links[k] in p.links;
      KeptRefOk(r, plan.creates, dropped, p.links[k].source);
      KeptRefOk(r, plan.creates, dropped, p.links[k].target);
    }
    assert forall link :: link in p.links ==> exists k :: 0 <= k < |p.links| && p.links[k] == link;
  }

  /** Filtering leaves an acceptable plan acceptable exactly when every link that names a dropped Memory, once white
      space is trimmed, spells it as the plan does: the filters run before names are trimmed. */
  lemma DropKeepsAcceptedIff(r: Rules, plan: Plan, human: set<Id>, report: string -> bool)
    requires Accepted(r, plan)
    ensures var p, dropped := DropDisallowed(plan, human, report), Dropped(plan, human, report);
      Accepted(r, p) <==> forall link :: link in plan.links && NamesOne(r, link, dropped) ==>
                            Uses(link.source, dropped) || Uses(link.target, dropped)
  {
    hide Accepted, Dropped, NamesOne, Uses;
    LeftAcceptedIff(r, plan, human, report);
  }

  /** Blanks are the only white space, there are no capitals and any wording will do. */
  ghost predicate SimpleRules(r: Rules) {
    && (forall c :: r.white(c) <==> c == ' ') && (forall s :: r.lower(s) == s)
    && (forall t, d :: !r.weak(t, d)) && r.descriptionMax == 600
  }

  /** One Memory without evidence, named with a blank before it; its link names it without. */
  const UNTIDY := Plan([CreateObject(" a", "memory", "t", "d", Some(0), false, [])], 0,
                       [CreateLink(Created("a"), "derived_from", Existing(0), "d", [])], 0)

  /** An acceptable plan that the filter makes unacceptable. */
  lemma DropBreaksUntidyNames(r: Rules, report: string -> bool)
    requires SimpleRules(r)
    ensures Accepted(r, UNTIDY) && !Accepted(r, DropDisallowed(UNTIDY, {}, report))
  {
    hide Disallowed, Kept, Accepted, Trim;
    var item, link := UNTIDY.creates[0], UNTIDY.links[0];
    UntidyAccepted(r);
    assert Disallowed(item, {}, report) by { UntidyDisallowed(report); }
    DropLeavesNoReference(UNTIDY, {}, report);
    assert item == UNTIDY.creates[0] && " a" in Dropped(UNTIDY, {}, report);
    BlankName(r);
    assert "a" in Names(r, Dropped(UNTIDY, {}, report));
    assert link in UNTIDY.links && NamesOne(r, link, Dropped(UNTIDY, {}, report));
    DropKeepsAcceptedIff(r, UNTIDY, {}, report);
  }

  lemma UntidyDisallowed(report: string -> bool)
    ensures Disallowed(UNTIDY.creates[0], {}, report)
  {
  }

  lemma BlankName(r: Rules)
    requires SimpleRules(r)
    ensures Trim(r, " a") == "a"
  {
    var blank := " a";
    assert blank[0] == ' ' && blank[1..] == "a";
    assert Text.TrimStart(r.white, blank) == Text.TrimStart(r.white, blank[1..]);
    assert Text.TrimStart(r.white, "a") == "a" && Text.TrimEnd(r.white, "a") == "a";
  }

  lemma UntidyAccepted(r: Rules)
    requires SimpleRules(r)
    ensures Accepted(r, UNTIDY)
  {
    hide Trim;
    var item, link := UNTIDY.creates[0], UNTIDY.links[0];
    BlankName(r);
    assert Trim(r, "a") == "a" && Trim(r, "memory") == "memory" && Trim(r, "t") == "t" && Trim(r, "d") == "d"
        && Trim(r, "derived_from") == "derived_from";
    assert CreateOk(r, item);
    assert Clients(r, UNTIDY.creates) == {"a"};
    assert LinkOk(r, link, {"a"});
    assert Grounds(r, link, item);
  }

  // ----- links the worker cannot resolve -----

  /** How many candidates have this identity. */
  function Count(r: Rules, candidates: seq<Candidate>, identity: (string, string)): nat {
    if candidates == [] then 0
    else Count(r, candidates[..|candidates| - 1], identity)
         + (if Identity(r, candidates[|candidates| - 1]) == identity then 1 else 0)
  }

  lemma {:induction false} CountZero(r: Rules, candidates: seq<Candidate>, identity: (string, string))
    ensures Count(r, candidates, identity) == 0 <==>
        forall j :: 0 <= j < |candidates| ==> Identity(r, candidates[j]) != identity
  {
    hide Identity;
    if candidates == [] {
      assert Count(r, candidates, identity) == 0;
    } else {
      CountZero(r, candidates[..|candidates| - 1], identity);
      assert forall j :: 0 <= j < |candidates| ==>
          j == |candidates| - 1 || candidates[j] == candidates[..|candidates| - 1][j];
    }
  }

  /** A count of one says that no other candidate is of the same kind and title. */
  lemma {:induction false} CountOneIff(r: Rules, candidates: seq<Candidate>, i: nat)
    requires i < |candidates|
    ensures Count(r, candidates, Identity(r, candidates[i])) >= 1
    ensures Count(r, candidates, Identity(r, candidates[i])) == 1 <==>
            forall j :: 0 <= j < |candidates| && j != i ==> Identity(r, candidates[j]) != Identity(r, candidates[i])
  {
    hide Identity;
    var init, last := candidates[..|candidates| - 1], |candidates| - 1;
    assert forall j :: 0 <= j < last ==> init[j] == candidates[j];
    if i == last {
      CountZero(r, init, Identity(r, candidates[i]));
    } else {
      CountOneIff(r, init, i);
    }
  }

  /** The worker's own loops: count identities, take the candidates counted once, keep the links they resolve. */
  method FilterLinks(r: Rules, plan: Plan, candidates: seq<Candidate>, chat: Id) returns (p: Plan, dropped: nat)
    ensures p == DropUnresolved(r, plan, candidates, chat)
    ensures dropped == |plan.links| - |p.links|
  {
    hide Identity, Resolved, Unambiguous;
    var eligible := UnambiguousIds(r, candidates);
    var keep := (link: CreateLink) => Resolved(link.source, eligible, chat) && Resolved(link.target, eligible, chat);
    var links := [];
    for i := 0 to |plan.links|
      invariant links == Kept(plan.links[..i], keep)
    {
      assert plan.links[..i + 1][..i] == plan.links[..i];
      if Resolved(plan.links[i].source, eligible, chat) && Resolved(plan.links[i].target, eligible, chat) {
        links := links + [plan.links[i]];
      }
    }
    assert plan.links[..|plan.links|] == plan.links;
    SameKept(plan.links, keep, (link: CreateLink) => Resolved(link.source, Unambiguous(r, candidates), chat)
                                                    && Resolved(link.target, Unambiguous(r, candidates), chat));
    p := plan.(links := links);
    dropped := |plan.links| - |links|;
  }

  method UnambiguousIds(r: Rules, candidates: seq<Candidate>) returns (eligible: set<Id>)
    ensures eligible == Unambiguous(r, candidates)
  {
    hide Identity;
    var counts: map<(string, string), nat> := map[];
    for i := 0 to |candidates|
      invariant forall k :: (if k in counts then counts[k] else 0) == Count(r, candidates[..i], k)
    {
      var k := Identity(r, candidates[i]);
      assert candidates[..i + 1][..i] == candidates[..i];
      counts := counts[k := (if k in counts then counts[k] else 0) + 1];
    }
    assert candidates[..|candidates|] == candidates;
    eligible := {};
    for i := 0 to |candidates|
      invariant forall id :: id in eligible <==>
                  exists j :: 0 <= j < i && candidates[j].id == id
                      && Count(r, candidates, Identity(r, candidates[j])) == 1
    {
      CountOneIff(r, candidates, i);
      if counts[Identity(r, candidates[i])] == 1 { eligible := eligible + {candidates[i].id}; }
    }
    CountedOnce(r, candidates, eligible);
  }

  lemma CountedOnce(r: Rules, candidates: seq<Candidate>, eligible: set<Id>)
    requires forall id :: id in eligible <==>
               exists j :: 0 <= j < |candidates| && candidates[j].id == id
                   && Count(r, candidates, Identity(r, candidates[j])) == 1
    ensures eligible == Unambiguous(r, candidates)
  {
    hide Identity, Count;
    forall j | 0 <= j < |candidates|
      ensures Count(r, candidates, Identity(r, candidates[j])) == 1 <==>
              forall k :: 0 <= k < |candidates| && k != j ==> Identity(r, candidates[k]) != Identity(r, candidates[j])
    {
      CountOneIff(r, candidates, j);
    }
  }

  lemma {:induction false} SameKept<T(!new)>(s: seq<T>, keep: T -> bool, keep': T -> bool)
    requires forall x :: keep(x) == keep'(x)
    ensures Kept(s, keep) == Kept(s, keep')
  {
    if s == [] {
      assert Kept(s, keep) == [];
    } else {
      SameKept(s[..|s| - 1], keep, keep');
    }
  }

  /** The memory is grounded in the Chat itself. */
  predicate GroundedInChat(r: Rules, plan: Plan, chat: Id, memory: CreateObject) {
    exists k :: 0 <= k < |plan.links| && Grounds(r, plan.links[k], memory) && plan.links[k].target == Existing(chat)
  }

  /** So a plan whose Memories are all grounded in the Chat, as the commit demands, is still accepted. */
  lemma DropUnresolvedKeepsAccepted(r: Rules, plan: Plan, candidates: seq<Candidate>, chat: Id)
    requires Accepted(r, plan) && forall i :: 0 <= i < |plan.creates| ==> GroundedInChat(r, plan, chat, plan.creates[i])
    ensures Accepted(r, DropUnresolved(r, plan, candidates, chat))
    ensures forall i :: 0 <= i < |plan.creates| ==>
        GroundedInChat(r, DropUnresolved(r, plan, candidates, chat), chat, plan.creates[i])
  {
    hide Trim, CreateOk, LinkOk, Unambiguous, Plain;
    var p := DropUnresolved(r, plan, candidates, chat);
    forall i | 0 <= i < |plan.creates|
      ensures GroundedInChat(r, p, chat, plan.creates[i]) && Grounded(r, p.links, plan.creates[i])
    {
      var k :| 0 <= k < |plan.links| && Grounds(r, plan.links[k], plan.creates[i])
          && plan.links[k].target == Existing(chat);
      assert plan.links[k] in p.links;
      var j :| 0 <= j < |p.links| && p.links[j] == plan.links[k];
      assert Grounds(r, p.links[j], plan.creates[i]);
    }
    forall k | 0 <= k < |p.links| ensures LinkOk(r, p.links[k], Clients(r, p.creates)) {
      assert p.links[k] in p.links;
      assert p.links[k] in plan.links;
    }
  }
}
