/** External actions as an event log. The status is the fold of the transition table over the trace; reservations and
    events are idempotent per key and principal, and a provider identity belongs to one action. */
module ExternalActions {
  import opened Wrappers

  datatype State =
    | Reserved | Previewed | Approved | Attempting | ReconciliationRequired | Accepted | Delivered | Suppressed | Failed

  datatype EventType =
    | PreviewedEvent | ApprovedEvent | AttemptStarted | AcceptedEvent | NeedsReconciliation
    | ReconciledAccepted | ReconciledAbsent | DeliveredEvent | SuppressedEvent | FailedEvent | Unknown(name: string)

  /** None is a conflict: the event is invalid in this state. */
  function Transition(s: State, e: EventType): Option<State> {
    match e
    case PreviewedEvent => if s == Reserved || s == Previewed then Some(Previewed) else None
    case ApprovedEvent => if s == Previewed then Some(Approved) else None
    case AttemptStarted => if s == Approved then Some(Attempting) else None
    case AcceptedEvent => if s == Attempting then Some(Accepted) else None
    case ReconciledAccepted => if s == ReconciliationRequired then Some(Accepted) else None
    case NeedsReconciliation => if s == Attempting then Some(ReconciliationRequired) else None
    case ReconciledAbsent => if s == ReconciliationRequired then Some(Approved) else None
    case DeliveredEvent => if s == Accepted || s == Delivered then Some(Delivered) else None
    case SuppressedEvent => if s != Delivered && s != Failed then Some(Suppressed) else None
    case FailedEvent => if s != Delivered && s != Suppressed then Some(Failed) else None
    case Unknown(_) => None
  }

  /** The state a trace of event types leads to. */
  function Fold(trace: seq<EventType>): Option<State> {
    if trace == [] then Some(Reserved)
    else
      match Fold(trace[..|trace| - 1])
      case None => None
      case Some(s) => Transition(s, trace[|trace| - 1])
  }

  predicate Legal(trace: seq<EventType>) {
    Fold(trace).Some?
  }

  /** The state before event k. */
  function At(trace: seq<EventType>, k: nat): State
    requires Legal(trace) && k <= |trace|
  {
    PrefixLegal(trace, k);
    Fold(trace[..k]).value
  }

  lemma {:induction false} PrefixLegal(trace: seq<EventType>, k: nat)
    requires Legal(trace) && k <= |trace|
    ensures Legal(trace[..k])
    decreases |trace|
  {
    if k < |trace| {
      PrefixLegal(trace[..|trace| - 1], k);
      assert trace[..|trace| - 1][..k] == trace[..k];
    } else {
      assert trace[..k] == trace;
    }
  }

  lemma StepAt(trace: seq<EventType>, k: nat)
    requires Legal(trace) && k < |trace|
    ensures Transition(At(trace, k), trace[k]) == Some(At(trace, k + 1))
  {
    assert trace[..k + 1][..k] == trace[..k];
    PrefixLegal(trace, k);
    PrefixLegal(trace, k + 1);
  }

  // ----- the order of events -----

  /** Which event may come next, by the one before it alone. */
  predicate MayFollow(last: Option<EventType>, next: EventType) {
    match next
    case PreviewedEvent => last == None || last == Some(PreviewedEvent)
    case ApprovedEvent => last == Some(PreviewedEvent)
    case AttemptStarted => last == Some(ApprovedEvent) || last == Some(ReconciledAbsent)
    case AcceptedEvent => last == Some(AttemptStarted)
    case NeedsReconciliation => last == Some(AttemptStarted)
    case ReconciledAccepted => last == Some(NeedsReconciliation)
    case ReconciledAbsent => last == Some(NeedsReconciliation)
    case DeliveredEvent => last == Some(AcceptedEvent) || last == Some(ReconciledAccepted)
        || last == Some(DeliveredEvent)
    case SuppressedEvent => last != Some(DeliveredEvent) && last != Some(FailedEvent)
    case FailedEvent => last != Some(DeliveredEvent) && last != Some(SuppressedEvent)
    case Unknown(_) => false
  }

  function Last(trace: seq<EventType>, k: nat): Option<EventType>
    requires k <= |trace|
  {
    if k == 0 then None else Some(trace[k - 1])
  }

  /** The state an event leads to, wherever it comes from. */
  function LedTo(last: Option<EventType>): State {
    match last
    case None => Reserved
    case Some(PreviewedEvent) => Previewed
    case Some(ApprovedEvent) => Approved
    case Some(AttemptStarted) => Attempting
    case Some(AcceptedEvent) => Accepted
    case Some(NeedsReconciliation) => ReconciliationRequired
    case Some(ReconciledAccepted) => Accepted
    case Some(ReconciledAbsent) => Approved
    case Some(DeliveredEvent) => Delivered
    case Some(SuppressedEvent) => Suppressed
    case _ => Failed
  }

  /** Main theorem on traces: exactly those are legal in which every event may follow the one before it; the state
      is told by the last event. */
  lemma {:induction false} LegalIff(trace: seq<EventType>)
    ensures Legal(trace) <==> forall k :: 0 <= k < |trace| ==> MayFollow(Last(trace, k), trace[k])
    ensures Legal(trace) ==> Fold(trace) == Some(LedTo(Last(trace, |trace|)))
  {
    hide MayFollow, Transition, Last;
    if trace == [] {
      NoLast();
    } else {
      var n := |trace| - 1;
      var init := trace[..n];
      LegalIff(init);
      hide LedTo;
      LastOf(trace);
      if Legal(init) {
        if n > 0 { KnownOnly(Last(trace, n - 1), trace[n - 1]); }
        NextIff(Last(trace, n), trace[n]);
      }
    }
  }

  lemma LastOf(trace: seq<EventType>)
    requires trace != []
    ensures var n := |trace| - 1;
      Last(trace, |trace|) == Some(trace[n]) && Last(trace, n)
          == (if n == 0 then None else Some(trace[n - 1])) && forall k :: 0 <= k <= n ==>
              Last(trace[..n], k) == Last(trace, k)
  {
  }

  lemma KnownOnly(last: Option<EventType>, next: EventType)
    ensures MayFollow(last, next) ==> !next.Unknown?
  {
  }

  lemma NextIff(last: Option<EventType>, next: EventType)
    requires last.Some? ==> !last.value.Unknown?
    ensures Transition(LedTo(last), next) == if MayFollow(last, next) then Some(LedTo(Some(next))) else None
  {
  }

  /** From everywhere but the end an action can still be delivered. */
  lemma CanDeliver(trace: seq<EventType>) returns (more: seq<EventType>)
    requires Legal(trace) && Fold(trace) != Some(Suppressed) && Fold(trace) != Some(Failed)
    ensures |more| <= 5 && Fold(trace + more) == Some(Delivered)
  {
    hide Fold;
    more := match Fold(trace).value
      case Reserved => [PreviewedEvent, ApprovedEvent, AttemptStarted, AcceptedEvent, DeliveredEvent]
      case Previewed => [ApprovedEvent, AttemptStarted, AcceptedEvent, DeliveredEvent]
      case Approved => [AttemptStarted, AcceptedEvent, DeliveredEvent]
      case Attempting => [AcceptedEvent, DeliveredEvent]
      case ReconciliationRequired => [ReconciledAccepted, DeliveredEvent]
      case Accepted => [DeliveredEvent]
      case _ => [];
    FoldOn(trace, more);
    Delivers(Fold(trace).value, more);
  }

  lemma Delivers(s: State, more: seq<EventType>)
    requires match s
      case Reserved => more == [PreviewedEvent, ApprovedEvent, AttemptStarted, AcceptedEvent, DeliveredEvent]
      case Previewed => more == [ApprovedEvent, AttemptStarted, AcceptedEvent, DeliveredEvent]
      case Approved => more == [AttemptStarted, AcceptedEvent, DeliveredEvent]
      case Attempting => more == [AcceptedEvent, DeliveredEvent]
      case ReconciliationRequired => more == [ReconciledAccepted, DeliveredEvent]
      case Accepted => more == [DeliveredEvent]
      case Delivered => more == []
      case _ => false
    ensures FoldFrom(s, more) == Some(Delivered)
    decreases |more|
  {
    if more != [] { Delivers(Transition(s, more[0]).value, more[1..]); }
  }

  /** Folding on from a state. */
  function FoldFrom(s: State, more: seq<EventType>): Option<State>
    decreases |more|
  {
    if more == [] then Some(s)
    else
      match Transition(s, more[0])
      case None => None
      case Some(t) => FoldFrom(t, more[1..])
  }

  lemma {:induction false} FoldOn(trace: seq<EventType>, more: seq<EventType>)
    requires Legal(trace)
    ensures Fold(trace + more) == FoldFrom(Fold(trace).value, more)
    decreases |more|
  {
    hide Transition;
    if more == [] {
      assert trace + more == trace;
    } else {
      var once := trace + [more[0]];
      assert once[..|trace|] == trace && once + more[1..] == trace + more;
      if Legal(once) { FoldOn(once, more[1..]); } else { NeverAgain(once, more[1..]); }
    }
  }

  lemma {:induction false} NeverAgain(trace: seq<EventType>, more: seq<EventType>)
    requires !Legal(trace)
    ensures !Legal(trace + more)
    decreases |more|
  {
    if more == [] {
      assert trace + more == trace;
    } else {
      var all := trace + more;
      assert all[..|all| - 1] == trace + more[..|more| - 1];
      NeverAgain(trace, more[..|more| - 1]);
    }
  }

  // ----- every legal trace -----

  predicate Final(s: State) {
    s == Delivered || s == Suppressed || s == Failed
  }

  /** Delivered, suppressed and failed are never left. */
  lemma {:induction false} FinalStays(trace: seq<EventType>, i: nat, j: nat)
    requires Legal(trace) && i <= j <= |trace| && Final(At(trace, i))
    ensures At(trace, j) == At(trace, i)
    decreases j - i
  {
    if i >= j {
    } else {
      FinalStays(trace, i, j - 1);
      StepAt(trace, j - 1);
    }
  }

  /** How far an action has come; only reconciliation to "absent" steps back. */
  function Rank(s: State): nat {
    match s
    case Reserved => 0
    case Previewed => 1
    case Approved => 2
    case Attempting => 2
    case ReconciliationRequired => 2
    case Accepted => 3
    case _ => 4
  }

  lemma {:induction false} RankGrows(trace: seq<EventType>, i: nat, j: nat)
    requires Legal(trace) && i <= j <= |trace|
    ensures Rank(At(trace, i)) <= Rank(At(trace, j))
    decreases j - i
  {
    if i >= j {
    } else {
      RankGrows(trace, i, j - 1);
      StepAt(trace, j - 1);
    }
  }

  predicate Accepts(e: EventType) {
    e == AcceptedEvent || e == ReconciledAccepted
  }

  /** An action is accepted by its provider at most once, and never attempted again afterwards. */
  lemma AcceptedOnce(trace: seq<EventType>, i: nat, j: nat)
    requires Legal(trace) && i < j < |trace| && Accepts(trace[i])
    ensures !Accepts(trace[j]) && trace[j] != AttemptStarted
  {
    StepAt(trace, i);
    StepAt(trace, j);
    RankGrows(trace, i + 1, j);
  }

  /** Main theorem: of two consecutive attempts the first was sent to reconciliation at once and reconciled as
      absent at once, and nothing else happened before the second. */
  lemma AttemptsReconciled(trace: seq<EventType>, i: nat, j: nat)
    requires Legal(trace) && i < j < |trace| && trace[i] == AttemptStarted && trace[j] == AttemptStarted
    requires forall k :: i < k < j ==> trace[k] != AttemptStarted
    ensures j == i + 3 && trace[i + 1] == NeedsReconciliation && trace[i + 2] == ReconciledAbsent
  {
    StepAt(trace, i);
    StepAt(trace, j);
    RankGrows(trace, i + 1, j);
    StepAt(trace, i + 1);
    RankGrows(trace, i + 2, j);
    StepAt(trace, i + 2);
    RankGrows(trace, i + 3, j);
    if i + 3 < j { StepAt(trace, i + 3); RankGrows(trace, i + 4, j); }
  }

  /** A delivered action was previewed, approved, attempted and accepted, in this order. */
  lemma DeliveredHistory(trace: seq<EventType>) returns (p: nat, a: nat, t: nat, c: nat)
    requires Legal(trace) && At(trace, |trace|) == Delivered
    ensures p < a < t < c < |trace|
    ensures trace[p] == PreviewedEvent && trace[a] == ApprovedEvent && trace[t] == AttemptStarted && Accepts(trace[c])
  {
    c := Entered(trace, |trace|, 3);
    StepAt(trace, c);
    t := Started(trace, c);
    StepAt(trace, t);
    a := Entered(trace, t, 2);
    StepAt(trace, a);
    p := Entered(trace, a, 1);
    StepAt(trace, p);
  }

  /** The event before position n that first reached this rank. */
  lemma {:induction false} Entered(trace: seq<EventType>, n: nat, rank: nat) returns (k: nat)
    requires Legal(trace) && n <= |trace| && 0 < rank < 4
    requires Rank(At(trace, n)) == rank || (rank == 3 && At(trace, n) == Delivered)
    ensures k < n && Rank(At(trace, k)) < rank && Rank(At(trace, k + 1)) == rank
    decreases n
  {
    assert trace[..0] == [];
    StepAt(trace, n - 1);
    if Rank(At(trace, n - 1)) < rank { k := n - 1; } else { k := Entered(trace, n - 1, rank); }
  }

  /** The attempt that was running. */
  lemma {:induction false} Started(trace: seq<EventType>, n: nat) returns (k: nat)
    requires Legal(trace) && n <= |trace| && (At(trace, n) == Attempting || At(trace, n) == ReconciliationRequired)
    ensures k < n && trace[k] == AttemptStarted
    decreases n
  {
    assert trace[..0] == [];
    StepAt(trace, n - 1);
    if trace[n - 1] == AttemptStarted { k := n - 1; } else { k := Started(trace, n - 1); }
  }

  // ----- the stored actions -----

  datatype Event = Event(kind: EventType, key: string, actor: string)

  datatype Action = Action(
    principal: string, key: string, provider: string, kind: string, externalKey: string, metadata: string,
    status: State, trace: seq<Event>)

  function Kinds(trace: seq<Event>): (kinds: seq<EventType>)
    ensures |kinds| == |trace| && forall k :: 0 <= k < |trace| ==> kinds[k] == trace[k].kind
  {
    seq(|trace|, k requires 0 <= k < |trace| => trace[k].kind)
  }

  predicate SameIdentity(a: Action, b: Action) {
    a.provider == b.provider && a.kind == b.kind && a.externalKey == b.externalKey
  }

  predicate HasKey(a: Action, key: string) {
    a.key == key || exists k :: 0 <= k < |a.trace| && a.trace[k].key == key
  }

  /** The principal's own actions that know this key, as their reservation's or an event's. */
  function Matches(actions: map<Id, Action>, principal: string, key: string): set<Id> {
    set id | id in actions && actions[id].principal == principal && HasKey(actions[id], key)
  }

  datatype Outcome = Made | Repeated | Refused

  ghost predicate Consistent(actions: map<Id, Action>) {
    && (forall id :: id in actions ==> Fold(Kinds(actions[id].trace)) == Some(actions[id].status))
    && (forall a, b :: a in actions && b in actions && SameIdentity(actions[a], actions[b]) ==> a == b)
    && (forall a, b :: a in actions && b in actions && actions[a].key == actions[b].key ==> a == b)
  }

  predicate Appendable(actions: map<Id, Action>, principal: string, id: Id, key: string, kind: EventType,
                       expected: Option<State>) {
    && Matches(actions, principal, key) == {} && id in actions
    && (expected.Some? ==> expected.value == actions[id].status) && Transition(actions[id].status, kind).Some?
  }

  class Ledger {
    var actions: map<Id, Action>

    constructor ()
      ensures Consistent(actions) && actions == map[]
    {
      actions := map[];
    }

    /** Reserves an identity for a principal. A request repeated under its key, or under a new key for the same
        identity and metadata, gives the action it made. */
    method Reserve(principal: string, key: string, provider: string, kind: string, externalKey: string,
                   metadata: string, id: Id)
      returns (outcome: Outcome, action: Id)
      requires Consistent(actions) && id !in actions
      modifies this
      ensures Consistent(actions)
      ensures outcome == Made <==> Matches(old(actions), principal, key) == {} && forall a :: a in old(actions) ==>
                old(actions)[a].key != key
                    && !SameIdentity(old(actions)[a],
                                     Action(principal, key, provider, kind, externalKey, metadata, Reserved, []))
      ensures outcome == Made ==>
          action == id
              && actions
                  == old(actions)[id := Action(principal, key, provider, kind, externalKey, metadata, Reserved, [])]
      ensures outcome != Made ==> actions == old(actions)
      ensures var wanted := Action(principal, key, provider, kind, externalKey, metadata, Reserved, []);
        forall a :: Answers(old(actions), a, wanted) ==> outcome == Repeated && action == a
      ensures outcome == Repeated ==>
          action in actions && actions[action].principal == principal && actions[action].metadata == metadata
      ensures outcome == Repeated ==>
          SameIdentity(actions[action], Action(principal, key, provider, kind, externalKey, metadata, Reserved, []))
    {
      var wanted := Action(principal, key, provider, kind, externalKey, metadata, Reserved, []);
      forall a | Answers(actions, a, wanted) ensures MadeBy(actions, a, wanted) { AnswerFacts(actions, a, wanted); }
      SameIdentityOnce(actions);
      hide Consistent, Answers;
      var known := Matches(actions, principal, key);
      if known != {} {
        action :| action in known;
        outcome := if SameIdentity(actions[action], wanted) && actions[action].metadata == metadata then Repeated
            else Refused;
        return;
      }
      action := id;
      assert forall b :: b in actions && actions[b].principal == principal && actions[b].key == key ==> b in known;
      if exists a :: a in actions && actions[a].key == key { return Refused, action; }
      if a :| a in actions && SameIdentity(actions[a], wanted) {
        outcome := if actions[a].principal == principal && actions[a].metadata == metadata then Repeated else Refused;
        action := a;
        return;
      }
      NewConsistent(actions, id, wanted);
      actions := actions[id := wanted];
      outcome := Made;
    }

    /** Appends one event, unless the sender's own actions know its key already. */
    method Append(principal: string, id: Id, key: string, kind: EventType, expected: Option<State>)
        returns (outcome: Outcome)
      requires Consistent(actions)
      modifies this
      ensures Consistent(actions)
      ensures outcome == Made <==> Appendable(old(actions), principal, id, key, kind, expected)
      ensures outcome == Made <==>
        && (forall a :: a in old(actions) && old(actions)[a].principal == principal ==> !Knows(old(actions)[a], key))
        && id in old(actions) && (expected.Some? ==> expected.value == old(actions)[id].status)
        && MayFollow(Last(Kinds(old(actions)[id].trace), |old(actions)[id].trace|), kind)
      ensures outcome == Made ==> actions == Appended(old(actions), principal, id, key, kind)
      ensures outcome != Made ==> actions == old(actions)
      ensures outcome == Repeated ==> id in Matches(actions, principal, key)
      ensures Matches(old(actions), principal, key) == {id} ==> outcome == Repeated
    {
      AppendableIff(actions, principal, id, key, kind, expected);
      hide Fold, Transition, HasKey, Consistent, Knows, MayFollow;
      var known := Matches(actions, principal, key);
      if known != {} {
        var found :| found in known;
        outcome := if found == id then Repeated else Refused;
        return;
      }
      if id !in actions { return Refused; }
      var current := actions[id];
      if expected.Some? && expected.value != current.status { return Refused; }
      var next := Transition(current.status, kind);
      if next.None? { return Refused; }
      AppendConsistent(actions, principal, id, key, kind);
      actions := actions[id := current.(status := next.value, trace := current.trace + [Event(kind, key, principal)])];
      outcome := Made;
    }
  }

  /** The action was reserved under this key, or one of its events came with it. */
  predicate Knows(a: Action, key: string) {
    a.key == key || exists e :: e in a.trace && e.key == key
  }

  /** No other action was reserved under this key, and no other of the principal's knows it. */
  ghost predicate OnlyKnownBy(actions: map<Id, Action>, principal: string, key: string, id: Id) {
    forall b :: b in actions && b != id ==>
      actions[b].key != key && (actions[b].principal == principal ==> !Knows(actions[b], key))
  }

  lemma OnlyMatch(actions: map<Id, Action>, principal: string, key: string, id: Id)
    requires OnlyKnownBy(actions, principal, key, id)
    ensures Matches(actions, principal, key) <= {id}
  {
    forall b | b in actions ensures HasKey(actions[b], key) <==> Knows(actions[b], key) { KnowsIff(actions[b], key); }
    hide HasKey, Knows;
  }

  /** The action is the one such a request makes, and no other stands in its way. */
  ghost predicate Answers(actions: map<Id, Action>, id: Id, wanted: Action) {
    && id in actions && actions[id].principal == wanted.principal && actions[id].provider == wanted.provider
    && actions[id].kind == wanted.kind && actions[id].externalKey == wanted.externalKey
    && actions[id].metadata == wanted.metadata && OnlyKnownBy(actions, wanted.principal, wanted.key, id)
  }

  /** Then only this action can be found, and it fits. */
  predicate MadeBy(actions: map<Id, Action>, id: Id, wanted: Action) {
    && id in actions && SameIdentity(actions[id], wanted) && actions[id].principal == wanted.principal
    && actions[id].metadata == wanted.metadata && Matches(actions, wanted.principal, wanted.key) <= {id}
    && forall b :: b in actions && actions[b].key == wanted.key ==> b == id
  }

  lemma AnswerFacts(actions: map<Id, Action>, id: Id, wanted: Action)
    requires Answers(actions, id, wanted)
    ensures MadeBy(actions, id, wanted)
  {
    OnlyMatch(actions, wanted.principal, wanted.key, id);
    hide Knows;
  }

  lemma SameIdentityOnce(actions: map<Id, Action>)
    requires Consistent(actions)
    ensures forall a, b :: a in actions && b in actions && SameIdentity(actions[a], actions[b]) ==> a == b
  {
  }

  lemma NewConsistent(actions: map<Id, Action>, id: Id, wanted: Action)
    requires Consistent(actions) && id !in actions && wanted.status == Reserved && wanted.trace == []
    requires forall a :: a in actions ==> actions[a].key != wanted.key && !SameIdentity(actions[a], wanted)
    ensures Consistent(actions[id := wanted])
  {
    assert Kinds([]) == [];
  }

  lemma AppendableIff(actions: map<Id, Action>, principal: string, id: Id, key: string, kind: EventType,
                      expected: Option<State>)
    requires Consistent(actions)
    ensures Appendable(actions, principal, id, key, kind, expected) <==>
      && (forall a :: a in actions && actions[a].principal == principal ==> !Knows(actions[a], key))
      && id in actions && (expected.Some? ==> expected.value == actions[id].status)
      && MayFollow(Last(Kinds(actions[id].trace), |actions[id].trace|), kind)
  {
    forall a | a in actions ensures HasKey(actions[a], key) <==> Knows(actions[a], key) { KnowsIff(actions[a], key); }
    hide HasKey, Knows;
    if id in actions { StatusAllows(actions[id], kind); }
    hide Transition, MayFollow, Fold, SameIdentity;
    forall a | a in actions && actions[a].principal == principal && HasKey(actions[a], key)
      ensures Matches(actions, principal, key) != {}
    {
      assert a in Matches(actions, principal, key);
    }
  }

  lemma KnowsIff(a: Action, key: string)
    ensures HasKey(a, key) <==> Knows(a, key)
  {
    if e :| e in a.trace && e.key == key { var k :| 0 <= k < |a.trace| && a.trace[k] == e; }
  }

  lemma StatusAllows(a: Action, kind: EventType)
    requires Fold(Kinds(a.trace)) == Some(a.status)
    ensures Transition(a.status, kind).Some? <==> MayFollow(Last(Kinds(a.trace), |a.trace|), kind)
  {
    hide Fold, Transition, MayFollow, LedTo, Last;
    var kinds := Kinds(a.trace);
    LegalIff(kinds);
    if a.trace != [] {
      LastOf(kinds);
      assert MayFollow(Last(kinds, |kinds| - 1), kinds[|kinds| - 1]);
      KnownOnly(Last(kinds, |kinds| - 1), kinds[|kinds| - 1]);
    }
    assert kinds == [] ==> Last(kinds, |kinds|) == None by { NoLast(); }
    NextIff(Last(kinds, |kinds|), kind);
  }

  lemma NoLast()
    ensures Last([], 0) == None
    ensures LedTo(None) == Reserved
  {
  }

  function Appended(actions: map<Id, Action>, principal: string, id: Id, key: string, kind: EventType): map<Id, Action>
    requires id in actions && Transition(actions[id].status, kind).Some?
  {
    var a := actions[id];
    actions[id := a.(status := Transition(a.status, kind).value, trace := a.trace + [Event(kind, key, principal)])]
  }

  lemma AppendConsistent(actions: map<Id, Action>, principal: string, id: Id, key: string, kind: EventType)
    requires Consistent(actions) && id in actions && Transition(actions[id].status, kind).Some?
    ensures Consistent(Appended(actions, principal, id, key, kind))
  {
    hide Transition, Fold;
    FoldExtends(actions[id].trace, Event(kind, key, principal));
  }

  lemma FoldExtends(trace: seq<Event>, e: Event)
    ensures Fold(Kinds(trace + [e]))
        == (if Fold(Kinds(trace)).None? then None else Transition(Fold(Kinds(trace)).value, e.kind))
  {
    assert Kinds(trace + [e]) == Kinds(trace) + [e.kind];
    assert (Kinds(trace) + [e.kind])[..|trace|] == Kinds(trace);
  }

  /** An event is recognised when it is sent again, now and after any later events, exactly when its sender is the
      principal that reserved the action. */
  lemma ResendKnown(actions: map<Id, Action>, principal: string, id: Id, key: string, kind: EventType, later: map<Id,
                    Action>)
    requires id in actions && Transition(actions[id].status, kind).Some?
    requires id in later && later[id].principal == actions[id].principal
    requires Appended(actions, principal, id, key, kind)[id].trace <= later[id].trace
    ensures id in Matches(later, principal, key) <==> actions[id].principal == principal
  {
    var n := |actions[id].trace|;
    assert later[id].trace[n] == Appended(actions, principal, id, key, kind)[id].trace[n];
  }

  /** Events that a state they lead to takes again. */
  predicate Repeatable(kind: EventType) {
    kind == PreviewedEvent || kind == DeliveredEvent || kind == SuppressedEvent || kind == FailedEvent
  }

  /** The same request sent twice is recorded twice exactly when a principal that did not reserve the action sends an
      event its own result takes again, and expected, if anything, a state the event does not change. */
  lemma DoubleRecordIff(actions: map<Id, Action>, principal: string, id: Id, key: string, kind: EventType,
                        expected: Option<State>)
    requires Appendable(actions, principal, id, key, kind, expected)
    ensures Appendable(Appended(actions, principal, id, key, kind), principal, id, key, kind, expected) <==>
            && actions[id].principal != principal && Repeatable(kind)
            && (expected.Some? ==> Transition(actions[id].status, kind) == expected)
  {
    var once := Appended(actions, principal, id, key, kind);
    assert forall a :: a in once && a != id ==> once[a] == actions[a];
    ResendKnown(actions, principal, id, key, kind, once);
    if actions[id].principal != principal { StrangerUnknown(actions, principal, id, key, kind); }
    RepeatsIff(actions[id].status, kind);
  }

  lemma RepeatsIff(s: State, kind: EventType)
    requires Transition(s, kind).Some?
    ensures Transition(Transition(s, kind).value, kind).Some? <==> Repeatable(kind)
  {
  }

  lemma StrangerUnknown(actions: map<Id, Action>, stranger: string, id: Id, key: string, kind: EventType)
    requires id in actions && Transition(actions[id].status, kind).Some? && actions[id].principal != stranger
    ensures Matches(Appended(actions, stranger, id, key, kind), stranger, key) == Matches(actions, stranger, key)
  {
    var once := Appended(actions, stranger, id, key, kind);
    assert forall a :: a in once && a != id ==> once[a] == actions[a];
  }
}
