/** Fitting a review batch into the model's input. Targets, context links and nearby messages are advisory: they are
    packed greedily into what the required evidence leaves. A batch too large or incomplete is shrunk, never cut
    short. */
module AdvisoryContext {
  import opened Wrappers
  import opened Collections
  import opened MemoryGraph

  const INPUT_BYTES: nat := 24000
  const MAX_CONNECTIONS: nat := 100

  /** Bytes of the object around the four lists. */
  const ENVELOPE: nat := 51

  /** `bytes` is the length of the item's JSON text in the model input. */
  datatype Memory = Memory(id: Id, keys: set<EvidenceKey>, bytes: nat)
  datatype Target = Target(id: Id, bytes: nat)
  datatype EvidenceKind = MessageItem | EventItem | ReceiptItem | LinkItem(source: Id, target: Id)
  datatype Evidence = Evidence(id: Id, kind: EvidenceKind, contextOnly: bool, truncated: bool, bytes: nat)
  datatype Input = Input(memories: seq<Memory>, connections: seq<nat>, evidence: seq<Evidence>, targets: seq<Target>)

  // ----- size -----

  function Total(sizes: seq<nat>): nat {
    if sizes == [] then 0 else Total(sizes[..|sizes| - 1]) + sizes[|sizes| - 1]
  }

  /** A JSON list: brackets, items and the commas between them. */
  function ListBytes(sizes: seq<nat>): nat {
    2 + Total(sizes) + (if sizes == [] then 0 else |sizes| - 1)
  }

  function MemorySizes(s: seq<Memory>): seq<nat> { seq(|s|, i requires 0 <= i < |s| => s[i].bytes) }
  function TargetSizes(s: seq<Target>): seq<nat> { seq(|s|, i requires 0 <= i < |s| => s[i].bytes) }
  function EvidenceSizes(s: seq<Evidence>): seq<nat> { seq(|s|, i requires 0 <= i < |s| => s[i].bytes) }

  function Bytes(b: Input): nat {
    ENVELOPE + ListBytes(MemorySizes(b.memories)) + ListBytes(b.connections) + ListBytes(EvidenceSizes(b.evidence))
        + ListBytes(TargetSizes(b.targets))
  }

  /** The JSON text of the object: four lists under their names. */
  function Rendered(memories: seq<string>, connections: seq<string>, evidence: seq<string>,
                    targets: seq<string>): string {
    "{" + "\"memories\":" + List(memories) + ",\"connections\":" + List(connections) + ",\"evidence\":" + List(evidence)
    + ",\"targets\":" + List(targets) + "}"
  }

  function List(items: seq<string>): string {
    "[" + Joined(items) + "]"
  }

  function Joined(items: seq<string>): string {
    if items == [] then ""
    else if |items| == 1 then items[0]
    else Joined(items[..|items| - 1]) + "," + items[|items| - 1]
  }

  function Lengths(items: seq<string>): seq<nat> { seq(|items|, i requires 0 <= i < |items| => |items[i]|) }

  lemma {:induction false} JoinedLength(items: seq<string>)
    ensures |List(items)| == ListBytes(Lengths(items))
  {
    if |items| > 1 {
      var init := items[..|items| - 1];
      JoinedLength(init);
      assert Lengths(items) == Lengths(init) + [|items[|items| - 1]|];
    } else if |items| == 1 {
      var sizes := Lengths(items);
      assert sizes[..0] == [] && Total(sizes) == Total(sizes[..0]) + sizes[0];
    }
  }

  /** The size computed is that of the text, whatever the items say. */
  lemma BytesAreText(b: Input, memories: seq<string>, connections: seq<string>, evidence: seq<string>,
                     targets: seq<string>)
    requires MemorySizes(b.memories) == Lengths(memories) && b.connections == Lengths(connections)
    requires EvidenceSizes(b.evidence) == Lengths(evidence) && TargetSizes(b.targets) == Lengths(targets)
    ensures |Rendered(memories, connections, evidence, targets)| == Bytes(b)
  {
    JoinedLength(memories);
    JoinedLength(connections);
    JoinedLength(evidence);
    JoinedLength(targets);
    hide List, ListBytes;
  }

  // ----- required evidence -----

  function Required(b: Input): set<EvidenceKey> {
    set i, k | 0 <= i < |b.memories| && k in b.memories[i].keys :: k
  }

  function KeyOf(e: Evidence): EvidenceKey {
    match e.kind
    case EventItem => EventKey(e.id)
    case ReceiptItem => ReceiptKey(e.id)
    case _ => MessageKey(e.id)
  }

  /** Named by some Memory, under whichever kind. */
  predicate Original(required: set<EvidenceKey>, e: Evidence) {
    MessageKey(e.id) in required || EventKey(e.id) in required || ReceiptKey(e.id) in required
  }

  predicate AdvisoryLink(required: set<EvidenceKey>, e: Evidence) {
    !Original(required, e) && e.kind.LinkItem?
  }

  predicate AdvisoryMessage(required: set<EvidenceKey>, e: Evidence) {
    !Original(required, e) && !e.kind.LinkItem? && e.contextOnly
  }

  predicate Advisory(required: set<EvidenceKey>, e: Evidence) {
    AdvisoryLink(required, e) || AdvisoryMessage(required, e)
  }

  function Available(evidence: seq<Evidence>): set<EvidenceKey> {
    set i | 0 <= i < |evidence| && !evidence[i].truncated :: KeyOf(evidence[i])
  }

  predicate Incomplete(b: Input) {
    || |b.connections| > MAX_CONNECTIONS
    || (exists i :: 0 <= i < |b.evidence| && b.evidence[i].truncated)
    || (exists i :: 0 <= i < |b.memories| &&
          (b.memories[i].keys == {} || !(b.memories[i].keys <= Available(b.evidence))))
  }

  // ----- packing -----

  predicate Visible(b: Input, id: Id) {
    (exists i :: 0 <= i < |b.memories| && b.memories[i].id == id)
        || (exists i :: 0 <= i < |b.targets| && b.targets[i].id == id)
  }

  function WithTarget(b: Input, t: Target): Input { b.(targets := b.targets + [t]) }
  function WithEvidence(b: Input, e: Evidence): Input { b.(evidence := b.evidence + [e]) }

  /** Each item goes in if the input then still fits. */
  function PackTargets(b: Input, targets: seq<Target>, limit: nat): Input {
    if targets == [] then b
    else
      var packed := PackTargets(b, targets[..|targets| - 1], limit);
      var more := WithTarget(packed, targets[|targets| - 1]);
      if Bytes(more) > limit then packed else more
  }

  function PackEvidence(b: Input, items: seq<Evidence>): Input {
    if items == [] then b
    else
      var packed := PackEvidence(b, items[..|items| - 1]);
      var more := WithEvidence(packed, items[|items| - 1]);
      if Bytes(more) > INPUT_BYTES then packed else more
  }

  function Core(b: Input): Input {
    b.(evidence := Kept(b.evidence, e => !Advisory(Required(b), e)), targets := [])
  }

  function TargetLimit(required: nat): nat {
    required + (if required < INPUT_BYTES then INPUT_BYTES - required else 0) / 2
  }

  function WithTargets(b: Input): Input {
    PackTargets(Core(b), b.targets, TargetLimit(Bytes(Core(b))))
  }

  /** Links between visible Objects first, then context messages. */
  function Extras(b: Input): seq<Evidence> {
    var shown := WithTargets(b);
    Kept(Kept(b.evidence, e => AdvisoryLink(Required(b), e)),
         (e: Evidence) => e.kind.LinkItem? && Visible(shown, e.kind.source) && Visible(shown, e.kind.target))
    + Kept(b.evidence, e => AdvisoryMessage(Required(b), e))
  }

  function Fitted(b: Input): Input {
    PackEvidence(WithTargets(b), Extras(b))
  }

  /** The batch is refilled in place: what is required stays, then targets, then links and messages while they fit. */
  method Fit(b: Input) returns (r: Input)
    ensures r == Fitted(b)
  {
    hide Bytes, Kept;
    r := Core(b);
    var limit := TargetLimit(Bytes(r));
    for i := 0 to |b.targets|
      invariant r == PackTargets(Core(b), b.targets[..i], limit)
    {
      assert b.targets[..i + 1][..i] == b.targets[..i];
      r := r.(targets := r.targets + [b.targets[i]]);
      if Bytes(r) > limit {
        r := r.(targets := r.targets[..|r.targets| - 1]); PushPop(PackTargets(Core(b), b.targets[..i], limit),
                                                                  b.targets[i]);
      }
    }
    assert b.targets[..|b.targets|] == b.targets;
    var extras := Extras(b);
    for i := 0 to |extras|
      invariant r == PackEvidence(WithTargets(b), extras[..i])
    {
      assert extras[..i + 1][..i] == extras[..i];
      ghost var before := r;
      r := r.(evidence := r.evidence + [extras[i]]);
      if Bytes(r) > INPUT_BYTES { r := r.(evidence := r.evidence[..|r.evidence| - 1]); assert r == before; }
    }
    assert extras[..|extras|] == extras;
  }

  lemma PushPop(b: Input, t: Target)
    ensures WithTarget(b, t).targets[..|b.targets|] == b.targets
  {
  }

  // ----- what fitting promises -----

  lemma {:induction false} PackTargetsFacts(b: Input, targets: seq<Target>, limit: nat)
    requires Bytes(b) <= limit
    ensures var r := PackTargets(b, targets, limit);
      && r == b.(targets := r.targets) && b.targets <= r.targets && Bytes(b) <= Bytes(r) <= limit
      && forall t :: t in r.targets ==> t in b.targets || t in targets
  {
    hide Bytes;
    if targets == [] {
    } else {
      var packed := PackTargets(b, targets[..|targets| - 1], limit);
      PackTargetsFacts(b, targets[..|targets| - 1], limit);
      TargetGrows(packed, targets[|targets| - 1]);
    }
  }

  lemma TotalAppend(s: seq<nat>, n: nat)
    ensures ListBytes(s) + n <= ListBytes(s + [n]) <= ListBytes(s) + n + 1
    ensures ListBytes(s + [n]) == ListBytes(s) + n + (if s == [] then 0 else 1)
  {
  }

  lemma TargetGrows(b: Input, t: Target)
    ensures Bytes(b) <= Bytes(WithTarget(b, t))
  {
    hide ListBytes;
    assert TargetSizes(b.targets + [t]) == TargetSizes(b.targets) + [t.bytes];
    TotalAppend(TargetSizes(b.targets), t.bytes);
  }

  /** What one more evidence item costs depends only on whether it is the first. */
  lemma EvidenceGrows(b: Input, e: Evidence)
    ensures Bytes(WithEvidence(b, e)) == Bytes(b) + e.bytes + (if b.evidence == [] then 0 else 1)
  {
    hide ListBytes;
    assert EvidenceSizes(b.evidence + [e]) == EvidenceSizes(b.evidence) + [e.bytes];
    TotalAppend(EvidenceSizes(b.evidence), e.bytes);
  }

  lemma {:induction false} PackEvidenceFacts(b: Input, items: seq<Evidence>)
    ensures var r := PackEvidence(b, items);
      && r == b.(evidence := r.evidence) && b.evidence <= r.evidence && Bytes(b) <= Bytes(r)
      && (Bytes(r) <= INPUT_BYTES || r == b)
      && (forall e :: e in r.evidence ==> e in b.evidence || e in items)
  {
    hide Bytes;
    if items == [] {
    } else {
      PackEvidenceFacts(b, items[..|items| - 1]);
      EvidenceGrows(PackEvidence(b, items[..|items| - 1]), items[|items| - 1]);
    }
  }

  /** Nothing that was left out would fit now. */
  lemma {:induction false} PackMaximal(b: Input, items: seq<Evidence>, e: Evidence)
    requires e in items && e !in PackEvidence(b, items).evidence
    ensures Bytes(WithEvidence(PackEvidence(b, items), e)) > INPUT_BYTES
  {
    hide Bytes;
    var init, last := items[..|items| - 1], items[|items| - 1];
    var packed := PackEvidence(b, init);
    EvidenceGrows(packed, last);
    EvidenceGrows(packed, e);
    EvidenceGrows(PackEvidence(b, items), e);
    PackEvidenceFacts(b, init);
    if e in init && e !in packed.evidence { PackMaximal(b, init, e); }
  }

  /** Main theorem: fitting keeps all Memories, connections and required evidence in order, adds only advisory items
      the batch had, shows a link only between visible Objects, leaves out no link or message that would still fit,
      and ends within the larger of the budget and what is required. */
  lemma FitKeepsRequired(b: Input)
    ensures var r := Fitted(b);
      && r.memories == b.memories && r.connections == b.connections
      && Core(b).evidence <= r.evidence
      && (forall e :: e in b.evidence && !Advisory(Required(b), e) ==> e in r.evidence)
      && (forall e :: e in r.evidence ==> e in b.evidence)
      && (forall t :: t in r.targets ==> t in b.targets)
  {
    hide Bytes, Visible, Advisory;
    PackTargetsFacts(Core(b), b.targets, TargetLimit(Bytes(Core(b))));
    PackEvidenceFacts(WithTargets(b), Extras(b));
  }

  lemma FitWithinBudget(b: Input)
    ensures Bytes(Fitted(b)) <= (if Bytes(Core(b)) > INPUT_BYTES then Bytes(Core(b)) else INPUT_BYTES)
  {
    hide Bytes;
    PackTargetsFacts(Core(b), b.targets, TargetLimit(Bytes(Core(b))));
    PackEvidenceFacts(WithTargets(b), Extras(b));
  }

  lemma FitLinksVisible(b: Input, e: Evidence)
    requires e in Fitted(b).evidence && AdvisoryLink(Required(b), e)
    ensures Visible(Fitted(b), e.kind.source) && Visible(Fitted(b), e.kind.target)
  {
    PackTargetsFacts(Core(b), b.targets, TargetLimit(Bytes(Core(b))));
    PackEvidenceFacts(WithTargets(b), Extras(b));
  }

  /** Some Memory of the batch rests on this message, event or receipt. */
  predicate Needed(b: Input, id: Id) {
    exists m :: m in b.memories && (MessageKey(id) in m.keys || EventKey(id) in m.keys || ReceiptKey(id) in m.keys)
  }

  predicate Shown(b: Input, id: Id) {
    (exists m :: m in b.memories && m.id == id) || (exists t :: t in b.targets && t.id == id)
  }

  /** Evidence is left out only if no Memory needs it, and then only because it no longer fits, because it is a link
      that shows an Object the batch does not, never otherwise: a message that is not mere context stays. */
  lemma FitMaximal(b: Input, e: Evidence)
    requires e in b.evidence && e !in Fitted(b).evidence
    ensures !Needed(b, e.id)
    ensures e.kind.LinkItem? || e.contextOnly
    ensures Bytes(WithEvidence(Fitted(b), e)) > 24000
            || (e.kind.LinkItem? && !(Shown(Fitted(b), e.kind.source) && Shown(Fitted(b), e.kind.target)))
  {
    hide Bytes, Kept, Visible, Shown, PackTargets, PackEvidence;
    FitKeepsRequired(b);
    NeededIff(b, e);
    FittedTargets(b);
    hide Fitted, Needed, Required;
    if e in Extras(b) {
      ExtraMaximal(b, e);
    } else {
      ShownIff(Fitted(b), e.kind.source);
      ShownIff(Fitted(b), e.kind.target);
    }
  }

  lemma NeededIff(b: Input, e: Evidence)
    ensures Original(Required(b), e) <==> Needed(b, e.id)
  {
    if Original(Required(b), e) {
      var k :| k in Required(b) && (k == MessageKey(e.id) || k == EventKey(e.id) || k == ReceiptKey(e.id));
      var i :| 0 <= i < |b.memories| && k in b.memories[i].keys;
      assert b.memories[i] in b.memories;
    }
    if m :| m in b.memories && (MessageKey(e.id) in m.keys || EventKey(e.id) in m.keys || ReceiptKey(e.id) in m.keys) {
      var i :| 0 <= i < |b.memories| && b.memories[i] == m;
      assert forall k :: k in m.keys ==> k in Required(b);
    }
  }

  lemma ShownIff(b: Input, id: Id)
    ensures Shown(b, id) <==> Visible(b, id)
  {
    if m :| m in b.memories && m.id == id { var i :| 0 <= i < |b.memories| && b.memories[i] == m; }
    if t :| t in b.targets && t.id == id { var i :| 0 <= i < |b.targets| && b.targets[i] == t; }
  }

  lemma FittedTargets(b: Input)
    ensures Fitted(b).targets == WithTargets(b).targets && Fitted(b).memories == WithTargets(b).memories
    ensures forall id :: Visible(Fitted(b), id) == Visible(WithTargets(b), id)
  {
    PackEvidenceFacts(WithTargets(b), Extras(b));
  }

  lemma ExtraMaximal(b: Input, e: Evidence)
    requires e in Extras(b) && e !in Fitted(b).evidence
    ensures Bytes(WithEvidence(Fitted(b), e)) > INPUT_BYTES
  {
    PackMaximal(WithTargets(b), Extras(b), e);
  }

  lemma {:induction false} PackInTurn(b: Input, first: seq<Evidence>, next: seq<Evidence>)
    ensures PackEvidence(b, first + next) == PackEvidence(PackEvidence(b, first), next)
  {
    hide Bytes;
    if next == [] {
      assert first + next == first;
    } else {
      var all, init := first + next, next[..|next| - 1];
      assert all[..|all| - 1] == first + init && all[|all| - 1] == next[|next| - 1];
      PackInTurn(b, first, init);
    }
  }

  function VisibleLinks(b: Input): seq<Evidence> {
    var shown := WithTargets(b);
    Kept(Kept(b.evidence, e => AdvisoryLink(Required(b), e)),
         (e: Evidence) => e.kind.LinkItem? && Visible(shown, e.kind.source) && Visible(shown, e.kind.target))
  }

  /** Links go before context messages: one that is left out although both its ends are shown would not have fitted
      before any context message was added either. */
  lemma LinksFirst(b: Input, e: Evidence)
    requires e in b.evidence && e !in Fitted(b).evidence && e.kind.LinkItem?
    requires Shown(Fitted(b), e.kind.source) && Shown(Fitted(b), e.kind.target)
    ensures exists n: nat :: BeforeMessages(b, n) && TooLongAt(Fitted(b), n, e)
  {
    hide Bytes, Kept, Visible, Shown, PackTargets, PackEvidence, Needed, Required;
    FitKeepsRequired(b);
    NeededIff(b, e);
    FittedTargets(b);
    ShownIff(Fitted(b), e.kind.source);
    ShownIff(Fitted(b), e.kind.target);
    var links, messages := VisibleLinks(b), Kept(b.evidence, e => AdvisoryMessage(Required(b), e));
    var linked := PackEvidence(WithTargets(b), links);
    PackInTurn(WithTargets(b), links, messages);
    PackEvidenceFacts(linked, messages);
    PackEvidenceFacts(WithTargets(b), links);
    PackMaximal(WithTargets(b), links, e);
    CoreEvidence(b);
    assert linked == Fitted(b).(evidence := Fitted(b).evidence[..|linked.evidence|]);
    forall x | x in linked.evidence ensures Needed(b, x.id) || x.kind.LinkItem? || !x.contextOnly {
      NeededIff(b, x);
    }
    assert BeforeMessages(b, |linked.evidence|) && TooLongAt(Fitted(b), |linked.evidence|, e);
  }

  lemma CoreEvidence(b: Input)
    ensures WithTargets(b).evidence == Core(b).evidence
    ensures forall e :: e in Core(b).evidence ==> !Advisory(Required(b), e)
  {
    PackTargetsFacts(Core(b), b.targets, TargetLimit(Bytes(Core(b))));
  }

  /** After the first n items of evidence this one no longer fits. */
  predicate TooLongAt(b: Input, n: nat, e: Evidence) {
    n <= |b.evidence| && Bytes(WithEvidence(b.(evidence := b.evidence[..n]), e)) > 24000
  }

  /** Among the first n items of evidence no context message has been added. */
  predicate BeforeMessages(b: Input, n: nat) {
    n <= |Fitted(b).evidence| && forall k :: 0 <= k < n ==>
      var x := Fitted(b).evidence[k]; Needed(b, x.id) || x.kind.LinkItem? || !x.contextOnly
  }

  lemma {:induction false} TargetsMaximal(b: Input, targets: seq<Target>, limit: nat, t: Target)
    requires t in targets && t !in PackTargets(b, targets, limit).targets && Bytes(b) <= limit
    ensures Bytes(WithTarget(PackTargets(b, targets, limit), t)) > limit
  {
    hide Bytes;
    var init, last := targets[..|targets| - 1], targets[|targets| - 1];
    var packed := PackTargets(b, init, limit);
    PackTargetsFacts(b, init, limit);
    if t in init && t !in packed.targets { TargetsMaximal(b, init, limit, t); }
    TargetCost(packed, last);
    TargetCost(packed, t);
    TargetCost(PackTargets(b, targets, limit), t);
  }

  lemma TargetCost(b: Input, t: Target)
    ensures Bytes(WithTarget(b, t)) == Bytes(b) + t.bytes + (if b.targets == [] then 0 else 1)
  {
    hide ListBytes;
    assert TargetSizes(b.targets + [t]) == TargetSizes(b.targets) + [t.bytes];
    TotalAppend(TargetSizes(b.targets), t.bytes);
  }

  /** Targets take at most half of the space the required evidence leaves, and none is left out that would fit it. */
  lemma FitTargets(b: Input)
    ensures var core, shown := Bytes(Core(b)), WithTargets(b);
      && Fitted(b).targets == shown.targets
      && (if core >= INPUT_BYTES then Bytes(shown) == core else core <= Bytes(shown) <= core + (INPUT_BYTES - core) / 2)
      && forall t :: t in b.targets && t !in shown.targets ==>
           Bytes(WithTarget(shown, t)) > if core >= 24000 then core else core + (24000 - core) / 2
  {
    hide Bytes, PackTargets, PackEvidence;
    var limit := TargetLimit(Bytes(Core(b)));
    PackTargetsFacts(Core(b), b.targets, limit);
    PackEvidenceFacts(WithTargets(b), Extras(b));
    forall t | t in b.targets && t !in WithTargets(b).targets ensures Bytes(WithTarget(WithTargets(b), t)) > limit {
      TargetsMaximal(Core(b), b.targets, limit, t);
    }
  }

  /** A complete batch stays complete. */
  lemma FitKeepsComplete(b: Input)
    requires !Incomplete(b)
    ensures !Incomplete(Fitted(b))
  {
    hide Fitted, Advisory, Core;
    FitKeepsRequired(b);
    var r := Fitted(b);
    forall i | 0 <= i < |r.evidence| ensures !r.evidence[i].truncated {
      assert r.evidence[i] in r.evidence;
      var j :| 0 <= j < |b.evidence| && b.evidence[j] == r.evidence[i];
    }
    forall i, k | 0 <= i < |b.memories| && k in b.memories[i].keys ensures k in Available(r.evidence) {
      assert k in Available(b.evidence);
      var j :| 0 <= j < |b.evidence| && !b.evidence[j].truncated && KeyOf(b.evidence[j]) == k;
      assert k in Required(b);
      OriginalKept(b, b.evidence[j], k);
      var n :| 0 <= n < |r.evidence| && r.evidence[n] == b.evidence[j];
    }
  }

  lemma OriginalKept(b: Input, e: Evidence, k: EvidenceKey)
    requires k in Required(b) && KeyOf(e) == k
    ensures !Advisory(Required(b), e)
  {
  }

  // ----- shrinking -----

  /** What the store gives for a selection of Memories: a batch of exactly those. */
  ghost predicate Reads(read: seq<Id> -> Input) {
    forall ids :: |read(ids).memories| == |ids| && forall i :: 0 <= i < |ids| ==> read(ids).memories[i].id == ids[i]
  }

  predicate Callable(b: Input) {
    Bytes(b) <= INPUT_BYTES && !Incomplete(b)
  }

  function Ids(b: Input): (ids: seq<Id>)
    ensures |ids| == |b.memories|
  {
    seq(|b.memories|, i requires 0 <= i < |b.memories| => b.memories[i].id)
  }

  /** Drops Memories from the end, rereading everything, until the batch fits and is complete or one is left. The
      model is called exactly on a batch that fits with all its evidence; otherwise the first Memory alone is deferred,
      and every longer selection had failed as well. */
  method Prepare(selected: seq<Id>, read: seq<Id> -> Input) returns (b: Input, call: bool)
    requires selected != [] && Reads(read)
    ensures exists n :: 1 <= n <= |selected| && b == Fitted(read(selected[..n])) && Ids(b) == selected[..n]
              && (call || n == 1) && forall m :: n < m <= |selected| ==> !Callable(Fitted(read(selected[..m])))
    ensures call <==> Callable(b)
    ensures call <==> Bytes(b) <= 24000 && Whole(b)
  {
    hide Fitted, Callable, Whole;
    var n := |selected|;
    b := Fit(read(selected[..n]));
    while !Callable(b) && n > 1
      invariant 1 <= n <= |selected| && b == Fitted(read(selected[..n]))
      invariant forall m :: n < m <= |selected| ==> !Callable(Fitted(read(selected[..m])))
    {
      n := n - 1;
      b := Fit(read(selected[..n]));
    }
    FittedIds(read(selected[..n]));
    assert Ids(b) == selected[..n];
    call := Callable(b);
    CallableIff(b);
  }

  /** This evidence is there in full, as the kind that is asked for. */
  predicate InFull(b: Input, k: EvidenceKey) {
    exists e :: e in b.evidence && !e.truncated &&
      match k
      case EventKey(id) => e.kind.EventItem? && e.id == id
      case ReceiptKey(id) => e.kind.ReceiptItem? && e.id == id
      case MessageKey(id) => !e.kind.EventItem? && !e.kind.ReceiptItem? && e.id == id
  }

  /** Nothing is missing or cut off: at most a hundred connections, no truncated evidence, and every Memory rests on
      something, all of which is there. */
  predicate Whole(b: Input) {
    && |b.connections| <= 100 && (forall e :: e in b.evidence ==> !e.truncated)
    && forall m :: m in b.memories ==> m.keys != {} && forall k :: k in m.keys ==> InFull(b, k)
  }

  lemma CallableIff(b: Input)
    ensures Callable(b) <==> Bytes(b) <= 24000 && Whole(b)
  {
    hide Bytes;
    forall k ensures k in Available(b.evidence) <==> InFull(b, k) { AvailableIff(b, k); }
    hide Available, InFull;
    if !Incomplete(b) {
      forall m, k | m in b.memories && k in m.keys ensures k in Available(b.evidence) {
        var i :| 0 <= i < |b.memories| && b.memories[i] == m;
      }
      forall m | m in b.memories ensures m.keys != {} {
        var i :| 0 <= i < |b.memories| && b.memories[i] == m;
      }
    }
  }

  lemma AvailableIff(b: Input, k: EvidenceKey)
    ensures k in Available(b.evidence) <==> InFull(b, k)
  {
    if e :| e in b.evidence && !e.truncated && KeyOf(e) == k {
      var i :| 0 <= i < |b.evidence| && b.evidence[i] == e;
    }
  }

  lemma FittedIds(b: Input)
    ensures Fitted(b).memories == b.memories
  {
    FitKeepsRequired(b);
  }
}
