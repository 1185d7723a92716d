/** Outcome capture: passes over the committed event ledger, 25 events at a time, each event checked off by a run of its
    own. An event is remembered at most once, however late it was committed; but one that cannot be described holds up
    everything behind it. */
module MemoryCapture {
  import opened Wrappers
  import opened Listings
  import opened OutcomeRules

  const BATCH: nat := 25

  // ----- the ledger -----

  predicate Before(a: Event, b: Event) {
    a.at < b.at || (a.at == b.at && a.id < b.id)
  }

  /** Rows in ledger order; only rows of one ledger are compared, so the rest of the order does not matter. */
  ghost predicate Ledger(events: seq<Event>, lt: (Event, Event) -> bool) {
    && StrictOrder(lt)
    && (forall a, b :: a in events && b in events && a.id == b.id ==> a == b)
    && (forall a, b :: a in events && b in events ==> (lt(a, b) <==> Before(a, b)))
  }

  /** What was made of an event: nothing, or a Memory. */
  datatype Record = Skipped | Remembered

  type Checked = map<Id, Record>

  function Open(events: seq<Event>, done: Checked): (open: seq<Event>)
    ensures forall e :: e in open <==> e in events && e.id !in done
  {
    if events == [] then [] else (if events[0].id in done then [] else [events[0]]) + Open(events[1..], done)
  }

  function Pending(events: seq<Event>, lt: (Event, Event) -> bool, done: Checked): (pending: seq<Event>)
    ensures forall e :: e in pending <==> e in events && e.id !in done
  {
    Listing(Open(events, done), lt)
  }

  function Batch(events: seq<Event>, lt: (Event, Event) -> bool, done: Checked): seq<Event> {
    var pending := Pending(events, lt, done);
    if |pending| <= BATCH then pending else pending[..BATCH]
  }

  predicate Refused(w: World, batch: seq<Event>) {
    exists i :: 0 <= i < |batch| && Judge(w, batch[i]) == Refuse
  }

  function RecordOf(w: World, e: Event): Record {
    if Judge(w, e) == Remember then Remembered else Skipped
  }

  function IdsOf(batch: seq<Event>): set<Id> {
    set e | e in batch :: e.id
  }

  /** A batch checked off. */
  function CheckedOff(done: Checked, w: World, batch: seq<Event>): (after: Checked)
    ensures after.Keys == done.Keys + IdsOf(batch)
  {
    if batch == [] then done
    else
      var last := batch[|batch| - 1];
      assert batch == batch[..|batch| - 1] + [last];
      CheckedOff(done, w, batch[..|batch| - 1])[last.id := RecordOf(w, last)]
  }

  /** How many of a batch are remembered. */
  function Memories(w: World, batch: seq<Event>): nat {
    if batch == [] then 0
    else Memories(w, batch[..|batch| - 1]) + (if Judge(w, batch[|batch| - 1]) == Remember then 1 else 0)
  }

  lemma NothingChecked(done: Checked, w: World)
    ensures CheckedOff(done, w, []) == done && Memories(w, []) == 0
  {
  }

  lemma CheckedStep(done: Checked, w: World, batch: seq<Event>, i: nat)
    requires i < |batch|
    ensures CheckedOff(done, w, batch[..i + 1]) == CheckedOff(done, w, batch[..i])[batch[i].id := RecordOf(w, batch[i])]
    ensures Memories(w, batch[..i + 1])
         == Memories(w, batch[..i]) + (if Judge(w, batch[i]) == Remember then 1 else 0)
  {
    hide RecordOf, Judge;
    assert batch[..i + 1][..i] == batch[..i];
  }

  function AfterPass(events: seq<Event>, lt: (Event, Event) -> bool, w: World, done: Checked): Checked {
    var batch := Batch(events, lt, done);
    if Refused(w, batch) then done else CheckedOff(done, w, batch)
  }

  /** The batch is the oldest open events in order, 25 or all there are. */
  lemma BatchIsOldest(events: seq<Event>, lt: (Event, Event) -> bool, done: Checked)
    requires Ledger(events, lt)
    ensures var batch := Batch(events, lt, done);
      && (forall e :: e in batch ==> e in events && e.id !in done)
      && (forall i, j :: 0 <= i < j < |batch| ==> Before(batch[i], batch[j]) && batch[i].id != batch[j].id)
      && (forall e, f :: e in batch && f in events && f.id !in done && Before(f, e) ==> f in batch)
      && (|batch| == 25 || (|batch| < 25 && forall e :: e in events && e.id !in done ==> e in batch))
  {
    var pending, batch := Pending(events, lt, done), Batch(events, lt, done);
    PendingInOrder(events, lt, done);
    hide Before, Ledger, Pending;
    forall i | 0 <= i < |batch| ensures batch[i] in pending { assert batch[i] == pending[i]; }
    forall e, f | e in batch && f in events && f.id !in done && Before(f, e) ensures f in batch {
      assert f in pending;
      var i :| 0 <= i < |batch| && batch[i] == e;
      var k :| 0 <= k < |pending| && pending[k] == f;
      assert k < i;
    }
  }

  lemma PendingInOrder(events: seq<Event>, lt: (Event, Event) -> bool, done: Checked)
    requires Ledger(events, lt)
    ensures var pending := Pending(events, lt, done);
      && (forall i, j :: 0 <= i < j < |pending| ==> pending[i].id != pending[j].id)
      && (forall i, j :: 0 <= i < |pending| && 0 <= j < |pending| ==> (Before(pending[i], pending[j]) <==> i < j))
  {
    var pending := Pending(events, lt, done);
    ListingAscending(Open(events, done), lt);
    assert forall i :: 0 <= i < |pending| ==> pending[i] in pending && pending[i] in events;
    assert forall i, j :: 0 <= i < j < |pending| ==> lt(pending[i], pending[j]);
    assert forall a: Event, b: Event :: !(lt(a, b) && lt(b, a)) && !lt(a, a);
    hide Before, Pending, StrictOrder, Open, Listing;
    forall i, j | 0 <= i < |pending| && 0 <= j < |pending| ensures Before(pending[i], pending[j]) <==> i < j {
      assert lt(pending[i], pending[j]) <==> Before(pending[i], pending[j]);
      if i < j { assert lt(pending[i], pending[j]); }
      if j < i { assert lt(pending[j], pending[i]); }
    }
  }

  /** What one pass records: of a batch with a refused event nothing; else, of each event of the batch, whether it is
      remembered, and nothing of any other. */
  lemma PassRecords(events: seq<Event>, lt: (Event, Event) -> bool, w: World, done: Checked)
    requires Ledger(events, lt)
    ensures var batch, after := Batch(events, lt, done), AfterPass(events, lt, w, done);
      && ((exists e :: e in batch && Judge(w, e) == Refuse) ==> after == done)
      && ((forall e :: e in batch ==> Judge(w, e) != Refuse) ==>
            && (forall x :: x in after <==> x in done || exists e :: e in batch && e.id == x)
            && (forall e :: e in batch ==> e.id in after && (after[e.id] == Remembered <==> Judge(w, e) == Remember))
            && (forall x :: x in done ==> x in after && after[x] == done[x])
            && Memories(w, batch) == |set e | e in batch && Judge(w, e) == Remember|)
  {
    hide Judge, Batch, Ledger;
    BatchIsOldest(events, lt, done);
    var batch := Batch(events, lt, done);
    hide Before, Refused, CheckedOff, Memories;
    RefusedIff(w, batch);
    RecordsOf(done, w, batch);
    RememberedCount(w, batch);
    forall x | x in done ensures x in CheckedOff(done, w, batch) && CheckedOff(done, w, batch)[x] == done[x] {
      assert x !in IdsOf(batch);
      CheckedKept(done, w, batch, x);
    }
  }

  lemma RefusedIff(w: World, batch: seq<Event>)
    ensures Refused(w, batch) <==> exists e :: e in batch && Judge(w, e) == Refuse
  {
    hide Judge;
    if e :| e in batch && Judge(w, e) == Refuse { var i :| 0 <= i < |batch| && batch[i] == e; }
  }

  lemma {:induction false} RecordsOf(done: Checked, w: World, batch: seq<Event>)
    requires forall i, j :: 0 <= i < j < |batch| ==> batch[i].id != batch[j].id
    ensures forall e :: e in batch ==>
        e.id in CheckedOff(done, w, batch) && CheckedOff(done, w, batch)[e.id] == RecordOf(w, e)
  {
    hide RecordOf;
    if batch != [] {
      var init, last := batch[..|batch| - 1], batch[|batch| - 1];
      RecordsOf(done, w, init);
      assert forall e :: e in batch <==> e in init || e == last;
    }
  }

  lemma {:induction false} RememberedCount(w: World, batch: seq<Event>)
    requires forall i, j :: 0 <= i < j < |batch| ==> batch[i].id != batch[j].id
    ensures Memories(w, batch) == |set e | e in batch && Judge(w, e) == Remember|
  {
    hide Judge;
    if batch == [] {
      assert (set e | e in batch && Judge(w, e) == Remember) == {};
    } else {
      var init, last := batch[..|batch| - 1], batch[|batch| - 1];
      assert last !in init;
      RememberedCount(w, init);
      assert batch == init + [last];
      hide Memories;
      MemoriesLast(w, init, last);
      OneMoreRemembered(w, init, last);
    }
  }

  lemma MemoriesLast(w: World, init: seq<Event>, last: Event)
    ensures Memories(w, init + [last]) == Memories(w, init) + if Judge(w, last) == Remember then 1 else 0
  {
    hide Judge;
    assert (init + [last])[..|init|] == init;
  }

  lemma OneMoreRemembered(w: World, init: seq<Event>, last: Event)
    requires last !in init
    ensures |set e | e in init + [last] && Judge(w, e) == Remember|
         == |set e | e in init && Judge(w, e) == Remember| + if Judge(w, last) == Remember then 1 else 0
  {
    hide Judge;
    var before, after := set e | e in init && Judge(w, e) == Remember,
        set e | e in init + [last] && Judge(w, e) == Remember;
    assert after == before + if Judge(w, last) == Remember then {last} else {};
  }

  class Capture {
    var done: Checked

    constructor ()
      ensures done == map[]
    {
      done := map[];
    }

    /** One pass in one transaction: the oldest open events are checked off one by one; an event that cannot be
        described undoes the pass. */
    method Pass(events: seq<Event>, lt: (Event, Event) -> bool, w: World) returns (count: Option<nat>)
      modifies this
      ensures done == AfterPass(events, lt, w, old(done))
      ensures count.None? <==> Refused(w, Batch(events, lt, old(done)))
      ensures count.Some? ==> count.value == Memories(w, Batch(events, lt, old(done)))
    {
      hide Judge, Batch, CheckedOff, Memories, RecordOf;
      var saved, batch, n := done, Batch(events, lt, done), 0;
      NothingChecked(saved, w);
      for i := 0 to |batch|
        invariant done == CheckedOff(saved, w, batch[..i]) && n == Memories(w, batch[..i])
        invariant forall k :: 0 <= k < i ==> Judge(w, batch[k]) != Refuse
      {
        CheckedStep(saved, w, batch, i);
        if Judge(w, batch[i]) == Refuse {
          done := saved;
          return None;
        }
        done := done[batch[i].id := RecordOf(w, batch[i])];
        if Judge(w, batch[i]) == Remember { n := n + 1; }
      }
      assert batch[..|batch|] == batch;
      count := Some(n);
    }
  }

  // ----- at most once -----

  /** Nothing a pass does touches an event checked off before; so an event has one record for good. */
  lemma {:induction false} CheckedKept(done: Checked, w: World, batch: seq<Event>, x: Id)
    requires x in done && x !in IdsOf(batch)
    ensures x in CheckedOff(done, w, batch) && CheckedOff(done, w, batch)[x] == done[x]
  {
    if batch == [] {
    } else {
      assert batch[|batch| - 1] in batch;
      CheckedKept(done, w, batch[..|batch| - 1], x);
    }
  }

  lemma OnceForGood(events: seq<Event>, lt: (Event, Event) -> bool, w: World, done: Checked, x: Id)
    requires x in done
    ensures x in AfterPass(events, lt, w, done) && AfterPass(events, lt, w, done)[x] == done[x]
  {
    var batch := Batch(events, lt, done);
    assert forall e :: e in batch ==> e in Pending(events, lt, done);
    CheckedKept(done, w, batch, x);
  }

  // ----- repeated passes -----

  function Passes(events: seq<Event>, lt: (Event, Event) -> bool, w: World, done: Checked, n: nat): Checked {
    if n == 0 then done else AfterPass(events, lt, w, Passes(events, lt, w, done, n - 1))
  }

  /** A pass that reaches a refused event checks nothing off. */
  lemma RefusedOnce(events: seq<Event>, lt: (Event, Event) -> bool, w: World, done: Checked, e: Event)
    requires Ledger(events, lt) && e in events && e.id !in done && Judge(w, e) == Refuse
    ensures e.id !in AfterPass(events, lt, w, done)
  {
    hide Judge, StrictOrder, Before;
    var batch := Batch(events, lt, done);
    if i :| 0 <= i < |batch| && batch[i].id == e.id {
      assert batch[i] in Pending(events, lt, done);
      assert batch[i] == e;
      assert Refused(w, batch);
    }
  }

  /** So an event that is refused is never checked off. */
  lemma {:induction false} RefusedStays(events: seq<Event>, lt: (Event, Event) -> bool, w: World, done: Checked,
                                        n: nat, e: Event)
    requires Ledger(events, lt) && e in events && e.id !in done && Judge(w, e) == Refuse
    ensures e.id !in Passes(events, lt, w, done, n)
  {
    hide Judge, Ledger, AfterPass;
    if n == 0 {
    } else {
      RefusedStays(events, lt, w, done, n - 1, e);
      RefusedOnce(events, lt, w, Passes(events, lt, w, done, n - 1), e);
    }
  }

  /** While one is among the oldest open events, nothing is checked off at all. */
  lemma {:induction false} StallsForever(events: seq<Event>, lt: (Event, Event) -> bool, w: World, done: Checked,
                                         n: nat)
    requires Refused(w, Batch(events, lt, done))
    ensures Passes(events, lt, w, done, n) == done
  {
    hide Batch, Refused, CheckedOff, Judge;
    if n == 0 {
    } else {
      StallsForever(events, lt, w, done, n - 1);
    }
  }

  /** No open event is one that cannot be described. */
  predicate NoneRefused(events: seq<Event>, w: World, done: Checked) {
    forall e :: e in events && e.id !in done ==> Judge(w, e) != Refuse
  }

  ghost function OpenIds(events: seq<Event>, done: Checked): set<Id> {
    set e | e in events && e.id !in done :: e.id
  }

  lemma {:induction false} AllChecked(events: seq<Event>, lt: (Event, Event) -> bool, w: World, done: Checked)
      returns (n: nat)
    requires NoneRefused(events, w, done)
    ensures OpenIds(events, Passes(events, lt, w, done, n)) == {}
    decreases |OpenIds(events, done)|, 1
  {
    hide *;
    if OpenIds(events, done) == {} {
      NoPass(events, lt, w, done);
      return 0;
    }
    PassShrinks(events, lt, w, done);
    n := AllCheckedAfter(events, lt, w, done);
  }

  lemma {:induction false} AllCheckedAfter(events: seq<Event>, lt: (Event, Event) -> bool, w: World, done: Checked)
      returns (n: nat)
    requires NoneRefused(events, w, AfterPass(events, lt, w, done))
    requires OpenIds(events, AfterPass(events, lt, w, done)) < OpenIds(events, done)
    ensures OpenIds(events, Passes(events, lt, w, done, n)) == {}
    decreases |OpenIds(events, done)|, 0
  {
    hide *;
    var next := AfterPass(events, lt, w, done);
    SubsetSize(OpenIds(events, next), OpenIds(events, done));
    var m := AllChecked(events, lt, w, next);
    FirstPass(events, lt, w, done, m);
    n := m + 1;
  }

  lemma NoPass(events: seq<Event>, lt: (Event, Event) -> bool, w: World, done: Checked)
    ensures Passes(events, lt, w, done, 0) == done
  {
  }

  lemma PassShrinks(events: seq<Event>, lt: (Event, Event) -> bool, w: World, done: Checked)
    requires OpenIds(events, done) != {} && NoneRefused(events, w, done)
    ensures OpenIds(events, AfterPass(events, lt, w, done)) < OpenIds(events, done)
    ensures NoneRefused(events, w, AfterPass(events, lt, w, done))
  {
    hide Judge;
    var pending, batch := Pending(events, lt, done), Batch(events, lt, done);
    var e :| e in events && e.id !in done;
    assert e in pending && batch != [];
    forall i | 0 <= i < |batch| ensures Judge(w, batch[i]) != Refuse { assert batch[i] in pending; }
    assert batch[0] in pending;
    assert batch[0].id in OpenIds(events, done) && batch[0].id !in OpenIds(events, AfterPass(events, lt, w, done));
  }

  lemma SubsetSize(a: set<Id>, b: set<Id>)
    requires a < b
    ensures |a| < |b|
  {
    assert b == a + (b - a) && a !! (b - a);
  }

  lemma {:induction false} FirstPass(events: seq<Event>, lt: (Event, Event) -> bool, w: World, done: Checked, m: nat)
    ensures Passes(events, lt, w, done, m + 1) == Passes(events, lt, w, AfterPass(events, lt, w, done), m)
  {
    hide AfterPass;
    if m == 0 {
    } else {
      FirstPass(events, lt, w, done, m - 1);
    }
  }

  /** Main theorem: repeated passes over a ledger check off every event, late commits included, exactly when none of
      the open events is refused. */
  lemma DrainsIff(events: seq<Event>, lt: (Event, Event) -> bool, w: World, done: Checked)
    requires Ledger(events, lt)
    ensures (exists n :: OpenIds(events, Passes(events, lt, w, done, n)) == {}) <==>
            NoneRefused(events, w, done)
  {
    hide Judge, Passes;
    if NoneRefused(events, w, done) {
      var n := AllChecked(events, lt, w, done);
    } else {
      var e :| e in events && e.id !in done && Judge(w, e) == Refuse;
      forall n ensures OpenIds(events, Passes(events, lt, w, done, n)) != {} {
        RefusedStays(events, lt, w, done, n, e);
        assert e.id in OpenIds(events, Passes(events, lt, w, done, n));
      }
    }
  }

  /** There is such an event: a ledger that holds it is never drained, and while it is the oldest open one, nothing in
      the ledger is checked off, whatever else it holds. */
  lemma AwkwardStalls(events: seq<Event>, lt: (Event, Event) -> bool, w: World, done: Checked, n: nat)
    requires Ledger(events, lt) && Ordinary(w) && w.active(AWKWARD) && AWKWARD in events && AWKWARD.id !in done
    ensures OpenIds(events, Passes(events, lt, w, done, n)) != {}
    ensures AWKWARD in Batch(events, lt, done) ==> Passes(events, lt, w, done, n) == done
  {
    hide Judge, Passes, Batch, Ordinary;
    AwkwardRefused(w);
    RefusedStays(events, lt, w, done, n, AWKWARD);
    assert AWKWARD.id in OpenIds(events, Passes(events, lt, w, done, n));
    if AWKWARD in Batch(events, lt, done) {
      assert Refused(w, Batch(events, lt, done));
      StallsForever(events, lt, w, done, n);
    }
  }
}
