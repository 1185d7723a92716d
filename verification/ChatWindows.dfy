/** Cutting a Chat's messages into curation windows. A watermark names the last message already cut; every cut, queued
    as a curator run or skipped, moves it on. Codex captures drain full windows as they go and everything at the end. */
module ChatWindows {
  import opened Wrappers

  /** `sequence` is the ingestion sequence, `key` the provider's message id. */
  datatype Message = Message(id: Id, sequence: nat, key: string, human: bool, content: string)

  /** A queued curator run's input. */
  datatype Window = Window(first: Id, last: Id, count: nat)

  /** Messages [from, to) left the backlog together, queued as a run or skipped. */
  datatype Cut = Cut(from: nat, to: nat, queued: bool)

  const CODEX_WINDOW: nat := 100

  // ----- messages in ingestion order -----

  ghost predicate Ordered(messages: seq<Message>) {
    && (forall i :: 0 <= i < |messages| ==> messages[i].sequence > 0)
    && (forall i, j :: 0 <= i < j < |messages| ==>
        messages[i].sequence < messages[j].sequence && messages[i].id != messages[j].id)
  }

  /** How many messages are cut already, given the watermark. */
  function Through(messages: seq<Message>, watermark: Option<Id>): (n: nat)
    ensures n <= |messages|
    ensures n > 0 ==> watermark == Some(messages[n - 1].id)
  {
    if watermark.None? || messages == [] then 0
    else if messages[|messages| - 1].id == watermark.value then |messages|
    else Through(messages[..|messages| - 1], watermark)
  }

  lemma {:induction false} ThroughAt(messages: seq<Message>, n: nat)
    requires Ordered(messages) && 0 < n <= |messages|
    ensures Through(messages, Some(messages[n - 1].id)) == n
  {
    if n >= |messages| {
    } else {
      ThroughAt(messages[..|messages| - 1], n);
    }
  }

  lemma {:induction false} ThroughGrows(messages: seq<Message>, watermark: Option<Id>, m: Message)
    requires Ordered(messages + [m]) && (watermark.Some? ==> Through(messages, watermark) > 0)
    ensures Through(messages + [m], watermark) == Through(messages, watermark)
  {
    var all, n := messages + [m], Through(messages, watermark);
    assert all[..|messages|] == messages;
    assert watermark.Some? ==> all[n - 1].id == watermark.value;
  }

  /** The ingestion sequence the watermark stands for; 0 when nothing was cut. */
  function WatermarkSequence(messages: seq<Message>, watermark: Option<Id>): nat {
    var n := Through(messages, watermark);
    if n == 0 then 0 else messages[n - 1].sequence
  }

  /** The query: messages behind a sequence number, in order. */
  function Behind(messages: seq<Message>, sequence: nat): seq<Message> {
    if messages == [] then []
    else Behind(messages[..|messages| - 1], sequence)
         + (if messages[|messages| - 1].sequence > sequence then [messages[|messages| - 1]] else [])
  }

  lemma {:induction false} BehindIsSuffix(messages: seq<Message>, n: nat)
    requires Ordered(messages) && n <= |messages|
    ensures Behind(messages, if n == 0 then 0 else messages[n - 1].sequence) == messages[n..]
  {
    if n == |messages| {
      if n > 0 { NoneBehind(messages, messages[n - 1].sequence); }
    } else {
      var init, m := messages[..|messages| - 1], messages[|messages| - 1];
      BehindIsSuffix(init, n);
      assert n > 0 ==> messages[n - 1].sequence < m.sequence;
      assert m.sequence > 0;
      hide Ordered;
      assert messages[n..] == init[n..] + [m];
    }
  }

  lemma {:induction false} NoneBehind(messages: seq<Message>, sequence: nat)
    requires forall i :: 0 <= i < |messages| ==> messages[i].sequence <= sequence
    ensures Behind(messages, sequence) == []
  {
    if messages == [] {
    } else {
      NoneBehind(messages[..|messages| - 1], sequence);
    }
  }

  /** What a curator run loads for its window: messages between the sequences of its first and last message. */
  function Reload(messages: seq<Message>, first: nat, last: nat): seq<Message> {
    if messages == [] then []
    else Reload(messages[..|messages| - 1], first, last)
         + (if first <= messages[|messages| - 1].sequence <= last then [messages[|messages| - 1]] else [])
  }

  lemma {:induction false} ReloadIsSlice(messages: seq<Message>, from: nat, to: nat)
    requires Ordered(messages) && from < to <= |messages|
    ensures Reload(messages, messages[from].sequence, messages[to - 1].sequence) == messages[from..to]
  {
    var init, first, last := messages[..|messages| - 1], messages[from].sequence, messages[to - 1].sequence;
    if to == |messages| {
      assert messages[from..to] == init[from..] + [messages[to - 1]];
      ReloadSuffix(init, from, first, last);
    } else {
      ReloadIsSlice(init, from, to);
      assert init[from..to] == messages[from..to];
    }
  }

  lemma {:induction false} ReloadSuffix(messages: seq<Message>, from: nat, first: nat, last: nat)
    requires from <= |messages|
    requires forall i :: 0 <= i < |messages| ==>
        messages[i].sequence <= last && (messages[i].sequence < first <==> i < from)
    ensures Reload(messages, first, last) == messages[from..]
  {
    if messages == [] {
    } else {
      var init := messages[..|messages| - 1];
      if from < |messages| {
        ReloadSuffix(init, from, first, last);
        assert messages[from..] == init[from..] + [messages[|messages| - 1]];
      } else {
        NothingReloaded(messages, first, last);
      }
    }
  }

  lemma {:induction false} NothingReloaded(messages: seq<Message>, first: nat, last: nat)
    requires forall i :: 0 <= i < |messages| ==> messages[i].sequence < first
    ensures Reload(messages, first, last) == []
  {
    if messages == [] {
    } else {
      NothingReloaded(messages[..|messages| - 1], first, last);
    }
  }

  // ----- cuts -----

  /** Consecutive, nonempty cuts covering exactly the first n messages. */
  ghost predicate Tiles(cuts: seq<Cut>, n: nat) {
    && (forall k :: 0 <= k < |cuts| ==> cuts[k].from < cuts[k].to)
    && (cuts != [] ==> cuts[0].from == 0) && (forall k :: 0 < k < |cuts| ==> cuts[k].from == cuts[k - 1].to)
    && n == if cuts == [] then 0 else cuts[|cuts| - 1].to
  }

  lemma {:induction false} TilesApart(cuts: seq<Cut>, n: nat, j: nat, k: nat)
    requires Tiles(cuts, n) && j < k < |cuts|
    ensures cuts[j].to <= cuts[k].from
    decreases k - j
  {
    if j + 1 >= k {
    } else {
      TilesApart(cuts, n, j, k - 1);
    }
  }

  predicate Holds(cut: Cut, i: nat) {
    cut.from <= i < cut.to
  }

  lemma {:induction false} TilesCover(cuts: seq<Cut>, n: nat, i: nat) returns (k: nat)
    requires Tiles(cuts, n) && i < n
    ensures k < |cuts| && Holds(cuts[k], i)
  {
    k := |cuts| - 1;
    if cuts[k].from <= i {
    } else {
      k := TilesCover(cuts[..k], cuts[k].from, i);
    }
  }

  /** The cuts partition the prefix they cover: every message before n is in exactly one, no other message in any. */
  lemma TilesPartition(cuts: seq<Cut>, n: nat, i: nat)
    requires Tiles(cuts, n)
    ensures i < n <==> exists k :: 0 <= k < |cuts| && Holds(cuts[k], i)
    ensures forall j, k :: 0 <= j < k < |cuts| ==> !(Holds(cuts[j], i) && Holds(cuts[k], i))
  {
    if i < n { var k := TilesCover(cuts, n, i); }
    forall j, k | 0 <= j < k < |cuts| ensures !(Holds(cuts[j], i) && Holds(cuts[k], i)) { TilesApart(cuts, n, j, k); }
    forall k | 0 <= k < |cuts| && Holds(cuts[k], i) ensures i < n {
      if k < |cuts| - 1 { TilesApart(cuts, n, k, |cuts| - 1); }
    }
  }

  function WindowOf(messages: seq<Message>, cut: Cut): Window
    requires cut.from < cut.to <= |messages|
  {
    Window(messages[cut.from].id, messages[cut.to - 1].id, cut.to - cut.from)
  }

  ghost predicate InRange(messages: seq<Message>, cuts: seq<Cut>) {
    forall k :: 0 <= k < |cuts| ==> cuts[k].from < cuts[k].to <= |messages|
  }

  /** The runs queued by these cuts. */
  function Windows(messages: seq<Message>, cuts: seq<Cut>): seq<Window>
    requires InRange(messages, cuts)
  {
    if cuts == [] then []
    else Windows(messages, cuts[..|cuts| - 1])
         + (if cuts[|cuts| - 1].queued then [WindowOf(messages, cuts[|cuts| - 1])] else [])
  }

  lemma {:induction false} WindowsKept(messages: seq<Message>, m: Message, cuts: seq<Cut>)
    requires InRange(messages, cuts)
    ensures InRange(messages + [m], cuts) && Windows(messages + [m], cuts) == Windows(messages, cuts)
  {
    if cuts == [] {
    } else {
      WindowsKept(messages, m, cuts[..|cuts| - 1]);
    }
  }

  /** What a run finds when it loads its window, however many messages came in since: the messages that were cut,
      as many as it recorded. */
  lemma ReloadMatches(messages: seq<Message>, later: seq<Message>, cut: Cut)
    requires Ordered(later) && messages <= later && cut.from < cut.to <= |messages|
    ensures var loaded := Reload(later, messages[cut.from].sequence, messages[cut.to - 1].sequence);
      loaded == messages[cut.from..cut.to] && |loaded| == WindowOf(messages, cut).count
  {
    assert messages[cut.from] == later[cut.from] && messages[cut.to - 1] == later[cut.to - 1];
    ReloadIsSlice(later, cut.from, cut.to);
    assert later[cut.from..cut.to] == messages[cut.from..cut.to];
  }

  // ----- one Chat -----

  /** A message by the agent that says nothing durable; arbitrary here. */
  type StatusRule = string -> bool

  predicate StatusOnly(window: seq<Message>, status: StatusRule) {
    (exists i :: 0 <= i < |window| && !window[i].human) && forall i :: 0 <= i < |window| && !window[i].human ==>
        status(window[i].content)
  }

  /** Among messages [from, to) the agent spoke, and said nothing but status. */
  predicate NothingSaid(messages: seq<Message>, from: nat, to: nat, status: StatusRule) {
    && (exists i :: from <= i < to && i < |messages| && !messages[i].human)
    && forall i :: from <= i < to && i < |messages| && !messages[i].human ==> status(messages[i].content)
  }

  lemma StatusOnlyIff(messages: seq<Message>, from: nat, to: nat, status: StatusRule)
    requires from <= to <= |messages|
    ensures StatusOnly(messages[from..to], status) <==> NothingSaid(messages, from, to, status)
  {
    var window := messages[from..to];
    assert forall i :: 0 <= i < |window| ==> window[i] == messages[from + i];
    if NothingSaid(messages, from, to, status) {
      var i :| from <= i < to && i < |messages| && !messages[i].human;
      assert !window[i - from].human;
    }
    if StatusOnly(window, status) {
      forall i | from <= i < to && !messages[i].human ensures status(messages[i].content) {
        assert window[i - from] == messages[i];
      }
    }
  }

  /** What two bounded windows leave of a backlog. */
  function Drained(backlog: nat, finished: bool): nat {
    AfterWindow(AfterWindow(backlog, finished), finished)
  }

  function AfterWindow(backlog: nat, finished: bool): nat {
    if backlog < CODEX_WINDOW && !finished then backlog else if backlog <= CODEX_WINDOW then 0
        else backlog - CODEX_WINDOW
  }

  /** The cuts tile the messages up to the watermark, the queued ones are the runs, and Codex windows are bounded. */
  ghost predicate Sound(codex: bool, messages: seq<Message>, watermark: Option<Id>, windows: seq<Window>,
                        cuts: seq<Cut>) {
    && Ordered(messages)
    && (watermark.Some? ==> Through(messages, watermark) > 0)
    && Tiles(cuts, Through(messages, watermark))
    && InRange(messages, cuts) && windows == Windows(messages, cuts)
    && (codex ==> forall k :: 0 <= k < |cuts| ==> cuts[k].to - cuts[k].from <= CODEX_WINDOW)
  }

  lemma InsertSound(codex: bool, messages: seq<Message>, watermark: Option<Id>, windows: seq<Window>, cuts: seq<Cut>,
                    m: Message)
    requires Sound(codex, messages, watermark, windows, cuts) && Ordered(messages + [m])
    ensures Sound(codex, messages + [m], watermark, windows, cuts)
    ensures Through(messages + [m], watermark) == Through(messages, watermark)
  {
    hide Ordered, Tiles, Windows, Through;
    ThroughGrows(messages, watermark, m);
    WindowsKept(messages, m, cuts);
  }

  lemma CutSound(codex: bool, messages: seq<Message>, watermark: Option<Id>, windows: seq<Window>, cuts: seq<Cut>,
                 to: nat, queued: bool)
    requires Sound(codex, messages, watermark, windows, cuts)
    requires var n := Through(messages, watermark); n < to <= |messages| && (codex ==> to - n <= CODEX_WINDOW)
    ensures var n := Through(messages, watermark);
      && Through(messages, Some(messages[to - 1].id)) == to
      && Sound(codex, messages, Some(messages[to - 1].id),
               windows + (if queued then [WindowOf(messages, Cut(n, to, queued))] else []), cuts + [Cut(n, to, queued)])
  {
    hide Ordered, Tiles, Windows, Through;
    ThroughAt(messages, to);
    Extend(messages, cuts, Through(messages, watermark), to, queued);
  }

  /** The query finds the messages not cut yet. */
  lemma PendingIsBacklog(codex: bool, messages: seq<Message>, watermark: Option<Id>, windows: seq<Window>,
                         cuts: seq<Cut>)
    requires Sound(codex, messages, watermark, windows, cuts)
    ensures Behind(messages, WatermarkSequence(messages, watermark)) == messages[Through(messages, watermark)..]
  {
    BehindIsSuffix(messages, Through(messages, watermark));
  }

  class Chat {
    const codex: bool
    const status: StatusRule
    var messages: seq<Message>
    var watermark: Option<Id>
    var windows: seq<Window>
    ghost var cuts: seq<Cut>

    constructor (codex: bool, status: StatusRule)
      ensures Valid() && messages == [] && this.codex == codex
    {
      this.codex, this.status := codex, status;
      messages, watermark, windows, cuts := [], None, [], [];
    }

    ghost predicate Valid()
      reads this
    {
      Sound(codex, messages, watermark, windows, cuts)
    }

    function Backlog(): nat
      reads this
    {
      |messages| - Through(messages, watermark)
    }

    /** Appends a message unless the provider's id is known. */
    method Insert(m: Message) returns (inserted: bool)
      requires Valid() && Ordered(messages + [m])
      modifies this`messages
      ensures Valid()
      ensures inserted <==> forall i :: 0 <= i < |old(messages)| ==> old(messages)[i].key != m.key
      ensures messages == if inserted then old(messages) + [m] else old(messages)
      ensures Backlog() == old(Backlog()) + if inserted then 1 else 0
    {
      hide Sound, Through, Ordered;
      if exists i :: 0 <= i < |messages| && messages[i].key == m.key { return false; }
      InsertSound(codex, messages, watermark, windows, cuts, m);
      messages := messages + [m];
      inserted := true;
    }

    /** Cuts the next window: queued as a run, or skipped because it is suppressed or holds status messages only. */
    method QueueNextWindow(suppressed: bool) returns (queued: bool)
      requires Valid()
      modifies this`watermark, this`windows, this`cuts
      ensures Valid()
      ensures old(Backlog()) == 0 ==>
          !queued && watermark == old(watermark) && windows == old(windows) && cuts == old(cuts)
      ensures old(Backlog()) > 0 ==>
          cuts == old(cuts) + [Cut(old(Through(messages, watermark)), Through(messages, watermark), queued)]
      ensures |windows| == |old(windows)| + if queued then 1 else 0
      ensures old(Backlog()) > 0 ==>
          Backlog() == if codex && old(Backlog()) > CODEX_WINDOW then old(Backlog()) - CODEX_WINDOW else 0
      ensures old(Backlog()) > 0 ==>
          (queued <==> !suppressed && !NothingSaid(messages, old(Through(messages, watermark)),
                                                   Through(messages, watermark), status))
    {
      hide Sound, Through, StatusOnly, NothingSaid, Behind;
      ghost var n := Through(messages, watermark);
      var pending := Behind(messages, WatermarkSequence(messages, watermark));
      PendingIsBacklog(codex, messages, watermark, windows, cuts);
      if codex && |pending| > CODEX_WINDOW { pending := pending[..CODEX_WINDOW]; }
      if pending == [] { return false; }
      ghost var to := n + |pending|;
      assert messages[n..][..|pending|] == messages[n..to];
      assert pending == messages[n..to];
      StatusOnlyIff(messages, n, to, status);
      queued := !suppressed && !StatusOnly(pending, status);
      CutSound(codex, messages, watermark, windows, cuts, to, queued);
      if queued { windows := windows + [Window(pending[0].id, pending[|pending| - 1].id, |pending|)]; }
      assert windows == old(windows) + (if queued then [WindowOf(messages, Cut(n, to, queued))] else []);
      watermark := Some(pending[|pending| - 1].id);
      cuts := cuts + [Cut(n, to, queued)];
    }

    /** The two rounds of a Codex capture. */
    method Drain(finished: bool)
      requires Valid() && codex
      modifies this`watermark, this`windows, this`cuts
      ensures Valid() && Backlog() == Drained(old(Backlog()), finished)
      ensures old(cuts) <= cuts
    {
      ghost var start := Backlog();
      var round := 0;
      while round < 2
        invariant 0 <= round <= 2 && Valid() && old(cuts) <= cuts
        invariant Backlog() == if round == 0 then start else if round == 1 then AfterWindow(start, finished)
            else Drained(start, finished)
      {
        if Backlog() == 0 || (!finished && Backlog() < CODEX_WINDOW) { break; }
        var queued := QueueNextWindow(false);
        round := round + 1;
      }
    }

    /** Takes in a batch; a known message with other content is a conflict. */
    method InsertAll(batch: seq<Message>) returns (ok: bool, inserted: nat)
      requires Valid() && Ordered(messages + batch) && DistinctKeys(batch)
      modifies this`messages
      ensures Valid()
      ensures ok <==> forall k :: 0 <= k < |batch| ==> !Conflicts(old(messages), batch[k])
      ensures ok ==>
          messages == old(messages) + Unknown(old(messages), batch) && inserted == |Unknown(old(messages), batch)|
      ensures ok ==> Backlog() == old(Backlog()) + inserted
    {
      hide Sound, Ordered, Through, Conflicts, KnownKey, Unknown;
      inserted := 0;
      NothingUnknown(messages);
      for i := 0 to |batch|
        invariant Valid() && Ordered(messages + batch[i..])
        invariant messages == old(messages) + Unknown(old(messages), batch[..i])
            && inserted == |Unknown(old(messages), batch[..i])|
        invariant forall k :: 0 <= k < i ==> !Conflicts(old(messages), batch[k])
        invariant Backlog() == old(Backlog()) + inserted
      {
        NextOrdered(messages, batch[i..]);
        assert batch[i..][1..] == batch[i + 1..];
        UnknownStep(old(messages), batch, i);
        SameVerdict(old(messages), batch, i);
        if Conflicts(messages, batch[i]) { return false, inserted; }
        var added := Insert(batch[i]);
        if added { inserted := inserted + 1; }
      }
      assert batch[..|batch|] == batch;
      ok := true;
    }

    /** One Codex capture: at most a hundred messages come in, then full windows, or at the end everything, are cut. A
        batch that is too long, repeats a message id or conflicts with what is known changes nothing. */
    method Capture(batch: seq<Captured>, finished: bool, curate: bool) returns (ok: bool, inserted: nat)
      requires Valid() && codex && WellKeyed(batch) && Ordered(messages + Messages(batch))
      modifies this
      ensures Valid() && old(cuts) <= cuts
      ensures ok <==> Acceptable(old(messages), batch)
      ensures ok <==>
        && |batch| <= 100 && (forall i, j :: 0 <= i < j < |batch| ==> batch[i].local != batch[j].local)
        && forall m, b :: m in old(messages) && b in batch && m.key == b.message.key ==>
             m.human == b.message.human && m.content == b.message.content
      ensures ok ==> old(messages) <= messages
      ensures ok ==> forall m :: m in messages <==>
        m in old(messages) || (IsNew(old(messages), m.key) && exists b :: b in batch && b.message == m)
      ensures !ok ==>
          messages == old(messages) && watermark == old(watermark) && windows == old(windows) && cuts == old(cuts)
      ensures ok ==> messages == old(messages) + Unknown(old(messages), Messages(batch))
      ensures ok ==> inserted == |Unknown(old(messages), Messages(batch))| <= CODEX_WINDOW
      ensures ok ==>
          Backlog() == if curate then Drained(old(Backlog()) + inserted, finished) else old(Backlog()) + inserted
    {
      hide Sound, Ordered, Through, Drained, Conflicts, WellKeyed, DistinctKeys, Unknown, IsNew;
      inserted := 0;
      AcceptableIff(messages, batch);
      UnknownIff(messages, batch);
      if |batch| > CODEX_WINDOW || !DistinctIds(batch) { return false, inserted; }
      LocalIdsGiveKeys(batch);
      var saved := messages;
      ok, inserted := InsertAll(Messages(batch));
      if !ok {
        messages := saved;
        return;
      }
      UnknownFewer(saved, Messages(batch));
      if curate { Drain(finished); }
    }
  }

  /** A message as it is sent: its id within the turn, the turn's id, and the row it becomes. */
  datatype Captured = Captured(turn: string, local: string, message: Message)

  function Messages(batch: seq<Captured>): (messages: seq<Message>)
    ensures |messages| == |batch| && forall k :: 0 <= k < |batch| ==> messages[k] == batch[k].message
  {
    seq(|batch|, k requires 0 <= k < |batch| => batch[k].message)
  }

  /** Turn ids are UUID texts; the stored key is the turn and the message id. */
  ghost predicate WellKeyed(batch: seq<Captured>) {
    forall k :: 0 <= k < |batch| ==>
        |batch[k].turn| == 36 && batch[k].message.key == batch[k].turn + ":" + batch[k].local
  }

  predicate DistinctIds(batch: seq<Captured>) {
    forall i, j :: 0 <= i < j < |batch| ==> batch[i].local != batch[j].local
  }

  predicate Acceptable(messages: seq<Message>, batch: seq<Captured>) {
    && |batch| <= CODEX_WINDOW && DistinctIds(batch)
    && forall k :: 0 <= k < |batch| ==> !Conflicts(messages, batch[k].message)
  }

  /** No message has this key yet. */
  predicate IsNew(messages: seq<Message>, key: string) {
    forall i :: 0 <= i < |messages| ==> messages[i].key != key
  }

  lemma AcceptableIff(messages: seq<Message>, batch: seq<Captured>)
    ensures Acceptable(messages, batch) <==>
      && |batch| <= 100 && (forall i, j :: 0 <= i < j < |batch| ==> batch[i].local != batch[j].local)
      && forall m, b :: m in messages && b in batch && m.key == b.message.key ==>
           m.human == b.message.human && m.content == b.message.content
  {
    if Acceptable(messages, batch) {
      forall m, b | m in messages && b in batch && m.key == b.message.key
        ensures m.human == b.message.human && m.content == b.message.content
      {
        var k :| 0 <= k < |batch| && batch[k] == b;
        var i :| 0 <= i < |messages| && messages[i] == m;
        assert !Conflicts(messages, batch[k].message);
      }
    }
  }

  /** What is new of a batch: the messages whose keys are not known. */
  lemma UnknownIff(messages: seq<Message>, batch: seq<Captured>)
    ensures forall m :: m in Unknown(messages, Messages(batch)) <==>
      IsNew(messages, m.key) && exists b :: b in batch && b.message == m
  {
    forall m
      ensures m in Unknown(messages, Messages(batch)) <==>
          IsNew(messages, m.key) && exists b :: b in batch && b.message == m
    {
      UnknownHas(messages, Messages(batch), m);
      if m in Messages(batch) {
        var k :| 0 <= k < |batch| && Messages(batch)[k] == m;
        assert batch[k] in batch && batch[k].message == m;
      }
      if b :| b in batch && b.message == m {
        var k :| 0 <= k < |batch| && batch[k] == b;
        assert Messages(batch)[k] == m;
      }
    }
  }

  lemma {:induction false} UnknownHas(messages: seq<Message>, batch: seq<Message>, m: Message)
    ensures m in Unknown(messages, batch) <==> m in batch && IsNew(messages, m.key)
  {
    if batch != [] {
      var init, last := batch[..|batch| - 1], batch[|batch| - 1];
      UnknownHas(messages, init, m);
      assert m in batch <==> m in init || m == last;
    }
  }

  /** Distinct message ids give distinct keys, whatever the turns. */
  lemma LocalIdsGiveKeys(batch: seq<Captured>)
    requires WellKeyed(batch) && DistinctIds(batch)
    ensures DistinctKeys(Messages(batch))
  {
    forall i, j | 0 <= i < j < |batch| ensures batch[i].message.key != batch[j].message.key {
      assert batch[i].message.key[37..] == batch[i].local;
      assert batch[j].message.key[37..] == batch[j].local;
    }
  }

  predicate KnownKey(messages: seq<Message>, key: string) {
    exists i :: 0 <= i < |messages| && messages[i].key == key
  }

  predicate DistinctKeys(batch: seq<Message>) {
    forall i, j :: 0 <= i < j < |batch| ==> batch[i].key != batch[j].key
  }

  /** The key is known with another sender or content. */
  predicate Conflicts(messages: seq<Message>, m: Message) {
    exists i :: 0 <= i < |messages| && messages[i].key == m.key
        && (messages[i].human != m.human || messages[i].content != m.content)
  }

  /** What of a batch is new. */
  function Unknown(messages: seq<Message>, batch: seq<Message>): seq<Message> {
    if batch == [] then []
    else Unknown(messages, batch[..|batch| - 1])
         + (if KnownKey(messages, batch[|batch| - 1].key) then [] else [batch[|batch| - 1]])
  }

  lemma NothingUnknown(messages: seq<Message>)
    ensures Unknown(messages, []) == []
  {
  }

  lemma UnknownStep(messages: seq<Message>, batch: seq<Message>, i: nat)
    requires i < |batch|
    ensures Unknown(messages, batch[..i + 1]) == Unknown(messages, batch[..i])
        + (if KnownKey(messages, batch[i].key) then [] else [batch[i]])
  {
    assert batch[..i + 1][..i] == batch[..i];
  }

  lemma {:induction false} UnknownFewer(messages: seq<Message>, batch: seq<Message>)
    ensures |Unknown(messages, batch)| <= |batch|
    ensures forall m :: m in Unknown(messages, batch) ==> m in batch
  {
    if batch == [] {
    } else {
      UnknownFewer(messages, batch[..|batch| - 1]);
    }
  }

  /** Earlier messages of the batch decide nothing about a later one: their keys differ. */
  lemma SameVerdict(messages: seq<Message>, batch: seq<Message>, i: nat)
    requires DistinctKeys(batch) && i < |batch|
    ensures var now := messages + Unknown(messages, batch[..i]);
      && KnownKey(now, batch[i].key) == KnownKey(messages, batch[i].key)
      && Conflicts(now, batch[i]) == Conflicts(messages, batch[i])
      && (KnownKey(now, batch[i].key) <==> !(forall k :: 0 <= k < |now| ==> now[k].key != batch[i].key))
  {
    var added := Unknown(messages, batch[..i]);
    var now := messages + added;
    UnknownFewer(messages, batch[..i]);
    forall k | 0 <= k < |added| ensures added[k].key != batch[i].key {
      assert added[k] in batch[..i];
    }
    assert forall k :: 0 <= k < |messages| ==> now[k] == messages[k];
    assert forall k :: |messages| <= k < |now| ==> now[k] == added[k - |messages|];
  }

  lemma NextOrdered(messages: seq<Message>, rest: seq<Message>)
    requires Ordered(messages + rest) && rest != []
    ensures Ordered(messages + [rest[0]])
    ensures Ordered(messages + [rest[0]] + rest[1..]) && Ordered(messages + rest[1..])
  {
    var all := messages + rest;
    assert messages + [rest[0]] + rest[1..] == all;
    assert messages + [rest[0]] == all[..|messages| + 1];
    var less := messages + rest[1..];
    assert forall i :: 0 <= i < |less| ==> less[i] == all[if i < |messages| then i else i + 1];
  }

  lemma Extend(messages: seq<Message>, cuts: seq<Cut>, n: nat, to: nat, queued: bool)
    requires Tiles(cuts, n) && InRange(messages, cuts) && n < to <= |messages|
    ensures var more := cuts + [Cut(n, to, queued)];
      && Tiles(more, to) && InRange(messages, more)
      && Windows(messages, more) == Windows(messages, cuts)
          + (if queued then [WindowOf(messages, Cut(n, to, queued))] else [])
  {
    var more := cuts + [Cut(n, to, queued)];
    assert more[..|more| - 1] == cuts;
    assert forall k :: 0 <= k < |cuts| ==> more[k] == cuts[k];
    assert more[|cuts|].from == n;
  }

  /** What a capture leaves: curation that was off for long catches up by 200 messages a capture. */
  lemma BacklogBounded(before: nat, inserted: nat, finished: bool)
    requires inserted <= CODEX_WINDOW
    ensures before <= 99 ==> Drained(before + inserted, finished) <= 99
    ensures Drained(before + inserted, true) == 0 <==> before + inserted <= 200
    ensures Drained(before + inserted, finished) <= 99 <==> before + inserted <= 299
  {
  }

  // ----- whole sessions -----

  datatype Request = Request(batch: seq<Captured>, finished: bool)

  /** All messages of a session, in the order in which they would be ingested. */
  function Flat(requests: seq<Request>): seq<Message> {
    if requests == [] then [] else Messages(requests[0].batch) + Flat(requests[1..])
  }

  lemma {:induction false} OrderedWithout(messages: seq<Message>, batch: seq<Message>, rest: seq<Message>)
    requires Ordered(messages + batch + rest)
    ensures Ordered(messages + Unknown(messages, batch) + rest) && Ordered(messages + batch) && Ordered(messages + rest)
    decreases |batch|
  {
    hide Ordered;
    PrefixOrdered(messages + batch, rest);
    if batch == [] {
      assert Unknown(messages, batch) == [] && messages + batch + rest == messages + rest;
      assert messages + Unknown(messages, batch) + rest == messages + rest;
    } else {
      var init, last := batch[..|batch| - 1], batch[|batch| - 1];
      assert messages + batch + rest == messages + init + ([last] + rest);
      OrderedWithout(messages, init, [last] + rest);
      var kept := messages + Unknown(messages, init);
      if KnownKey(messages, last.key) {
        assert Unknown(messages, batch) == Unknown(messages, init);
        assert kept + ([last] + rest) == kept + [last] + rest;
        MiddleDropped(kept, last, rest);
      } else {
        assert Unknown(messages, batch) == Unknown(messages, init) + [last];
        assert kept + ([last] + rest) == messages + Unknown(messages, batch) + rest;
      }
      assert messages + ([last] + rest) == messages + [last] + rest;
      MiddleDropped(messages, last, rest);
    }
  }

  lemma PrefixOrdered(messages: seq<Message>, rest: seq<Message>)
    requires Ordered(messages + rest)
    ensures Ordered(messages)
  {
    var all := messages + rest;
    assert forall i :: 0 <= i < |messages| ==> messages[i] == all[i];
  }

  lemma MiddleDropped(messages: seq<Message>, m: Message, rest: seq<Message>)
    requires Ordered(messages + [m] + rest)
    ensures Ordered(messages + rest)
  {
    var all, less := messages + [m] + rest, messages + rest;
    assert forall i :: 0 <= i < |less| ==> less[i] == all[if i < |messages| then i else i + 1];
  }

  /** Main theorem on the backlog: whatever a Codex session captures into its new Chat with curation on, accepted or
      refused, at most 99 messages wait after every capture and none after one that finishes a turn. */
  method Session(status: StatusRule, requests: seq<Request>) returns (chat: Chat, backlogs: seq<nat>, taken: seq<bool>)
    requires Ordered(Flat(requests)) && forall i :: 0 <= i < |requests| ==> WellKeyed(requests[i].batch)
    ensures fresh(chat) && chat.Valid() && |backlogs| == |taken| == |requests|
    ensures forall i :: 0 <= i < |requests| ==> backlogs[i] <= 99
    ensures forall i :: 0 <= i < |requests| && taken[i] && requests[i].finished ==> backlogs[i] == 0
    ensures requests != [] ==> chat.Backlog() == backlogs[|requests| - 1]
  {
    hide Sound, Ordered, Through, Drained, WellKeyed, Acceptable, Unknown;
    chat := new Chat(true, status);
    NewChat(chat.messages, chat.watermark);
    backlogs, taken := [], [];
    assert requests[0..] == requests && chat.messages + Flat(requests) == Flat(requests);
    for i := 0 to |requests|
      invariant fresh(chat) && chat.Valid() && chat.codex && |backlogs| == |taken| == i
      invariant Ordered(chat.messages + Flat(requests[i..]))
      invariant chat.Backlog() <= 99 && (i > 0 ==> chat.Backlog() == backlogs[i - 1])
      invariant forall k :: 0 <= k < i ==> backlogs[k] <= 99 && (taken[k] && requests[k].finished ==> backlogs[k] == 0)
    {
      var request := requests[i];
      assert requests[i..][1..] == requests[i + 1..];
      assert chat.messages + Flat(requests[i..]) == chat.messages + Messages(request.batch) + Flat(requests[i + 1..]);
      OrderedWithout(chat.messages, Messages(request.batch), Flat(requests[i + 1..]));
      ghost var before := chat.Backlog();
      var ok, inserted := chat.Capture(request.batch, request.finished, true);
      if ok { BacklogBounded(before, inserted, request.finished); }
      backlogs, taken := backlogs + [chat.Backlog()], taken + [ok];
    }
  }

  lemma NewChat(messages: seq<Message>, watermark: Option<Id>)
    requires messages == []
    ensures |messages| - Through(messages, watermark) == 0
  {
  }

  /** The inactivity sweep: every Chat due is cut to its last message. */
  method QueueInactive(due: seq<Chat>) returns (queued: nat)
    requires forall i, j :: 0 <= i < j < |due| ==> due[i] != due[j]
    requires forall i :: 0 <= i < |due| ==> due[i].Valid() && !due[i].codex && due[i].Backlog() > 0
    modifies set i | 0 <= i < |due| :: due[i]
    ensures forall i :: 0 <= i < |due| ==>
        due[i].Valid() && due[i].messages == old(due[i].messages) && due[i].Backlog() == 0
    ensures queued <= |due|
  {
    hide Sound, Through, NothingSaid;
    queued := 0;
    for i := 0 to |due|
      invariant forall k :: 0 <= k < |due| ==> due[k].Valid() && due[k].messages == old(due[k].messages)
      invariant forall k :: 0 <= k < i ==> due[k].Backlog() == 0
      invariant forall k :: i <= k < |due| ==> due[k].Backlog() > 0
      invariant queued <= i
    {
      var added := due[i].QueueNextWindow(false);
      if added { queued := queued + 1; }
    }
  }
}
