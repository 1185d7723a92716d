/** The cutover's locks turn nobody away for good: a writer that finds its locks free commits what it is there for, or
    stops at a cutover, and gives its locks back; and no interleaving leaves everybody waiting. */
module CutoverProgress {
  import opened Cutover

  // ----- one process on its own -----

  /** The locks a process of this kind takes one after another. */
  function Needs(kind: Kind): set<Lock> {
    match kind
    case Activator => {CaptureLock, LeaseLock, WriterLock}
    case Capturer => {CaptureLock}
    case Curator => {WriterLock}
    case _ => {LeaseLock, WriterLock}
  }

  /** n steps of p. */
  function Own(p: nat, n: nat): seq<Step> {
    if n == 0 then [] else [Step(p, Advance)] + Own(p, n - 1)
  }

  /** A process of this kind about to start, which owns no lock. */
  predicate Starts(s: State, p: nat, kind: Kind) {
    p in s.procs && s.procs[p] == Proc(kind, Idle, false) && forall l :: l in s.owner ==> s.owner[l] != p
  }

  /** Its own steps bring p to an end, with the locks as they were and this added to the log. */
  ghost predicate Finishes(s: State, p: nat, added: seq<Commit>) {
    exists n :: EndsAfter(s, p, n, added)
  }

  ghost predicate EndsAfter(s: State, p: nat, n: nat, added: seq<Commit>) {
    && p in s.procs && Run(s, Own(p, n)) != []
    && var t := Run(s, Own(p, n))[0];
       t.log == s.log + added && t.owner == s.owner && t.procs == s.procs[p := s.procs[p].(pc := Finished)]
  }

  /** The state in which p is at `pc` and owns `locks` besides. */
  function Reached(s: State, p: nat, pc: Pc, locks: set<Lock>, log: seq<Commit>): State
    requires p in s.procs
  {
    State(s.procs[p := s.procs[p].(pc := pc)], map l | l in s.owner.Keys + locks :: if l in locks then p
          else s.owner[l],
          log)
  }

  /** One step of p from one such state to another. */
  ghost predicate Steps(s: State, p: nat, t: State) {
    Next(s, Step(p, Advance)) != [] && Same(Next(s, Step(p, Advance))[0], t)
  }

  lemma {:induction false} Along(path: seq<State>, p: nat)
    requires path != [] && forall i :: 0 <= i < |path| - 1 ==> Steps(path[i], p, path[i + 1])
    ensures Run(path[0], Own(p, |path| - 1)) == [path[|path| - 1]]
  {
    if |path| > 1 {
      hide Next;
      Then(path[0], Step(p, Advance), path[1], Own(p, |path| - 2));
      Along(path[1..], p);
    }
  }

  /** p owns nothing in s, and these locks are free. */
  predicate Free(s: State, p: nat, locks: set<Lock>) {
    p in s.procs && (forall l :: l in s.owner ==> s.owner[l] != p) && forall l :: l in locks ==> l !in s.owner
  }

  lemma Start(s: State, p: nat, kind: Kind)
    requires Starts(s, p, kind)
    ensures Reached(s, p, Idle, {}, s.log) == s
  {
  }

  lemma Taken(s: State, p: nat, from: Pc, locks: set<Lock>, l: Lock, to: Pc, log: seq<Commit>)
    requires Free(s, p, locks + {l}) && l !in locks
    requires var at := Reached(s, p, from, locks, log);
      Next(at, Step(p, Advance)) == Take(at, p, l, to) || Next(at, Step(p, Advance)) == Try(at, p, l, to)
    ensures Steps(Reached(s, p, from, locks, log), p, Reached(s, p, to, locks + {l}, log))
  {
    hide Next;
  }

  lemma Moved(s: State, p: nat, from: Pc, locks: set<Lock>, to: Pc, log: seq<Commit>)
    requires p in s.procs
    requires var at := Reached(s, p, from, locks, log); Next(at, Step(p, Advance)) == [Goto(at, p, to)]
    ensures Steps(Reached(s, p, from, locks, log), p, Reached(s, p, to, locks, log))
  {
    hide Next;
  }

  lemma Ended(s: State, p: nat, from: Pc, locks: set<Lock>, log: seq<Commit>)
    requires Free(s, p, locks)
    requires var at := Reached(s, p, from, locks, log); Next(at, Step(p, Advance)) == [End(at, p)]
    ensures Steps(Reached(s, p, from, locks, log), p, Reached(s, p, Finished, {}, log))
  {
    hide Next;
  }

  lemma Wrote(s: State, p: nat, from: Pc, locks: set<Lock>, log: seq<Commit>, c: Commit)
    requires Free(s, p, locks)
    requires var at := Reached(s, p, from, locks, log); Next(at, Step(p, Advance)) == [Write(End(at, p), c)]
    ensures Steps(Reached(s, p, from, locks, log), p, Reached(s, p, Finished, {}, log + [c]))
  {
    hide Next;
  }

  /** A path that leads from the start to the end proves that p finishes. */
  lemma PathFinishes(s: State, p: nat, path: seq<State>, added: seq<Commit>)
    requires p in s.procs && |path| > 1 && path[0] == s && forall i :: 0 <= i < |path| - 1 ==>
        Steps(path[i], p, path[i + 1])
    requires path[|path| - 1] == Reached(s, p, Finished, {}, s.log + added)
    ensures Finishes(s, p, added)
  {
    hide Next, Steps, Run, Own;
    Along(path, p);
    assert EndsAfter(s, p, |path| - 1, added);
  }

  lemma CapturerFinishes(s: State, p: nat)
    requires Starts(s, p, Capturer) && CaptureLock !in s.owner
    ensures Finishes(s, p, if Active(s.log) then [] else [Legacy(Capturer, false)])
  {
    hide Active, Take, Try, End, Goto, Write, Steps, Same, Finishes;
    var locks, log, c := {CaptureLock}, s.log, Legacy(Capturer, false);
    Start(s, p, Capturer);
    Taken(s, p, Idle, {}, CaptureLock, Claimed, log);
    if Active(log) {
      Ended(s, p, Claimed, locks, log);
    } else {
      Moved(s, p, Claimed, locks, Capturing, log);
      Wrote(s, p, Capturing, locks, log, c);
    }
    var claimed := Reached(s, p, Claimed, locks, log);
    assert {} + {CaptureLock} == locks;
    hide Next;
    if Active(log) {
      PathFinishes(s, p, [s, claimed, Reached(s, p, Finished, {}, log)], []);
    } else {
      PathFinishes(s, p, [s, claimed, Reached(s, p, Capturing, locks, log), Reached(s, p, Finished, {}, log + [c])],
                   [c]);
    }
  }

  lemma CuratorFinishes(s: State, p: nat)
    requires Starts(s, p, Curator) && WriterLock !in s.owner
    ensures Finishes(s, p, if Active(s.log) then [] else [Legacy(Curator, false)])
  {
    hide Active, Take, Try, End, Goto, Write, Steps, Same, Finishes;
    var locks, log, c := {WriterLock}, s.log, Legacy(Curator, false);
    Start(s, p, Curator);
    if Active(log) {
      Ended(s, p, Idle, {}, log);
      hide Next;
      PathFinishes(s, p, [s, Reached(s, p, Finished, {}, log)], []);
    } else {
      Moved(s, p, Idle, {}, Passed, log);
      Taken(s, p, Passed, {}, WriterLock, Fenced, log);
      Moved(s, p, Fenced, locks, Rechecked, log);
      Wrote(s, p, Rechecked, locks, log, c);
      assert {} + {WriterLock} == locks;
      hide Next;
      PathFinishes(s, p, [s, Reached(s, p, Passed, {}, log), Reached(s, p, Fenced, locks, log),
                          Reached(s, p, Rechecked, locks, log), Reached(s, p, Finished, {}, log + [c])], [c]);
    }
  }

  lemma ActivatorFinishes(s: State, p: nat)
    requires Starts(s, p, Activator) && forall l :: l in Needs(Activator) ==> l !in s.owner
    ensures Finishes(s, p, if Active(s.log) then [] else [CutoverRow(|s.log|)])
  {
    hide Active, Take, Try, End, Goto, Write, Steps, Same, Finishes;
    var log, c := s.log, CutoverRow(|s.log|);
    var one, two, all := {CaptureLock}, {CaptureLock, LeaseLock}, {CaptureLock, LeaseLock, WriterLock};
    Start(s, p, Activator);
    assert {} + {CaptureLock} == one && one + {LeaseLock} == two && two + {WriterLock} == all;
    Taken(s, p, Idle, {}, CaptureLock, HasCapture, log);
    Taken(s, p, HasCapture, one, LeaseLock, HasLease, log);
    Taken(s, p, HasLease, two, WriterLock, HasAll, log);
    var start := [s, Reached(s, p, HasCapture, one, log), Reached(s, p, HasLease, two, log),
                  Reached(s, p, HasAll, all, log)];
    if Active(log) {
      Ended(s, p, HasAll, all, log);
      hide Next;
      PathFinishes(s, p, start + [Reached(s, p, Finished, {}, log)], []);
    } else {
      Moved(s, p, HasAll, all, Inserted(|log|), log);
      Wrote(s, p, Inserted(|log|), all, log, c);
      hide Next;
      PathFinishes(s, p, start + [Reached(s, p, Inserted(|log|), all, log), Reached(s, p, Finished, {}, log + [c])],
                   [c]);
    }
  }

  /** From the snapshot on, a pass and a saved plan do the same. */
  function Applying(s: State, p: nat, added: seq<Commit>): seq<State>
    requires p in s.procs
  {
    var lease, both, log, snap := {LeaseLock}, {LeaseLock, WriterLock}, s.log, |s.log|;
    [Reached(s, p, Snapped(snap), lease, log), Reached(s, p, Locked(snap), both, log)]
    + (if added == [] then [Reached(s, p, Finished, {}, log)]
       else [Reached(s, p, Ready(snap), both, log), Reached(s, p, Applied, lease, log + added),
             Reached(s, p, Finished, {}, log + added)])
  }

  lemma Wrapped(s: State, p: nat, kind: Kind)
    requires Starts(s, p, kind) && (kind == DreamPass || kind == SavedPlan) && Free(s, p, {LeaseLock, WriterLock})
    ensures Steps(Reached(s, p, Ready(|s.log|), {LeaseLock, WriterLock}, s.log), p,
                  Reached(s, p, Applied, {LeaseLock}, s.log + [Legacy(kind, false)]))
  {
  }

  lemma LocksWriter(s: State, p: nat, kind: Kind)
    requires Starts(s, p, kind) && (kind == DreamPass || kind == SavedPlan) && Free(s, p, {LeaseLock, WriterLock})
    ensures Steps(Reached(s, p, Snapped(|s.log|), {LeaseLock}, s.log), p,
                  Reached(s, p, Locked(|s.log|), {LeaseLock, WriterLock}, s.log))
  {
    hide Active, Take, Try, End, Goto, Write, Steps, Same, Reached;
    assert {LeaseLock} + {WriterLock} == {LeaseLock, WriterLock};
    NextOf(s, p, kind, Snapped(|s.log|), {LeaseLock}, s.log);
    Taken(s, p, Snapped(|s.log|), {LeaseLock}, WriterLock, Locked(|s.log|), s.log);
  }

  lemma StopsAtSnapshot(s: State, p: nat, kind: Kind)
    requires Starts(s, p, kind) && (kind == DreamPass || kind == SavedPlan) && Free(s, p, {LeaseLock, WriterLock})
    requires Active(s.log)
    ensures Steps(Reached(s, p, Locked(|s.log|), {LeaseLock, WriterLock}, s.log), p,
                  Reached(s, p, Finished, {}, s.log))
  {
    hide Active, Take, Try, End, Goto, Write, Steps, Same;
    assert s.log[..|s.log|] == s.log;
    NextOf(s, p, kind, Locked(|s.log|), {LeaseLock, WriterLock}, s.log);
    Ended(s, p, Locked(|s.log|), {LeaseLock, WriterLock}, s.log);
  }

  lemma PassesSnapshot(s: State, p: nat, kind: Kind)
    requires Starts(s, p, kind) && (kind == DreamPass || kind == SavedPlan) && Free(s, p, {LeaseLock, WriterLock})
    requires !Active(s.log)
    ensures Steps(Reached(s, p, Locked(|s.log|), {LeaseLock, WriterLock}, s.log), p,
                  Reached(s, p, Ready(|s.log|), {LeaseLock, WriterLock}, s.log))
  {
    hide Active, Take, Try, End, Goto, Write, Steps, Same;
    assert s.log[..|s.log|] == s.log;
    NextOf(s, p, kind, Locked(|s.log|), {LeaseLock, WriterLock}, s.log);
    Moved(s, p, Locked(|s.log|), {LeaseLock, WriterLock}, Ready(|s.log|), s.log);
  }

  lemma LetsGo(s: State, p: nat, kind: Kind, log: seq<Commit>)
    requires Starts(s, p, kind) && (kind == DreamPass || kind == SavedPlan) && Free(s, p, {LeaseLock, WriterLock})
    ensures Steps(Reached(s, p, Applied, {LeaseLock}, log), p, Reached(s, p, Finished, {}, log))
  {
    hide Active, Take, Try, End, Goto, Write, Steps, Same;
    NextOf(s, p, kind, Applied, {LeaseLock}, log);
    Ended(s, p, Applied, {LeaseLock}, log);
  }

  lemma NextOf(s: State, p: nat, kind: Kind, pc: Pc, locks: set<Lock>, log: seq<Commit>)
    requires Starts(s, p, kind) && (kind == DreamPass || kind == SavedPlan)
    ensures var at := Reached(s, p, pc, locks, log);
      p in at.procs && at.procs[p] == Proc(kind, pc, false) && at.log == log
      && Next(at, Step(p, Advance)) == DreamStep(at, p, kind == DreamPass)
  {
    hide DreamStep;
  }

  lemma ApplyingPath(s: State, p: nat, kind: Kind)
    requires p in s.procs
    requires var lease, both, log, snap := {LeaseLock}, {LeaseLock, WriterLock}, s.log, |s.log|;
      var locked, done := Reached(s, p, Locked(snap), both, log), Reached(s, p, Finished, {}, log);
      && Steps(Reached(s, p, Snapped(snap), lease, log), p, locked)
      && if Active(log) then Steps(locked, p, done)
         else
           var ready, wrote := Reached(s, p, Ready(snap), both, log), log + [Legacy(kind, false)];
           Steps(locked, p, ready) && Steps(ready, p, Reached(s, p, Applied, lease, wrote))
           && Steps(Reached(s, p, Applied, lease, wrote), p, Reached(s, p, Finished, {}, wrote))
    ensures var path := Applying(s, p, if Active(s.log) then [] else [Legacy(kind, false)]);
      forall i :: 0 <= i < |path| - 1 ==> Steps(path[i], p, path[i + 1])
  {
    hide Steps, Active;
  }

  lemma ApplySteps(s: State, p: nat, kind: Kind)
    requires Starts(s, p, kind) && (kind == DreamPass || kind == SavedPlan) && Free(s, p, {LeaseLock, WriterLock})
    ensures var path := Applying(s, p, if Active(s.log) then [] else [Legacy(kind, false)]);
      forall i :: 0 <= i < |path| - 1 ==> Steps(path[i], p, path[i + 1])
  {
    var lease, both, log, snap := {LeaseLock}, {LeaseLock, WriterLock}, s.log, |s.log|;
    assert log[..snap] == log && lease + {WriterLock} == both;
    hide *;
    LocksWriter(s, p, kind);
    if Active(log) {
      StopsAtSnapshot(s, p, kind);
    } else {
      PassesSnapshot(s, p, kind);
      Wrapped(s, p, kind);
      LetsGo(s, p, kind, log + [Legacy(kind, false)]);
    }
    ApplyingPath(s, p, kind);
  }

  lemma SavedPlanFinishes(s: State, p: nat)
    requires Starts(s, p, SavedPlan) && Free(s, p, {LeaseLock, WriterLock})
    ensures Finishes(s, p, if Active(s.log) then [] else [Legacy(SavedPlan, false)])
  {
    var lease, log, added := {LeaseLock}, s.log, if Active(s.log) then [] else [Legacy(SavedPlan, false)];
    hide Active, Take, Try, End, Goto, Write, Steps, Same, Finishes;
    Start(s, p, SavedPlan);
    Taken(s, p, Idle, {}, LeaseLock, Leased, log);
    Moved(s, p, Leased, lease, Snapped(|log|), log);
    ApplySteps(s, p, SavedPlan);
    assert {} + {LeaseLock} == lease;
    hide Next, Steps;
    PathFinishes(s, p, [s, Reached(s, p, Leased, lease, log)] + Applying(s, p, added), added);
  }

  lemma PassFinishes(s: State, p: nat)
    requires Starts(s, p, DreamPass) && Free(s, p, {LeaseLock, WriterLock})
    ensures Finishes(s, p, if Active(s.log) then [] else [Legacy(DreamPass, false)])
  {
    var lease, log, c := {LeaseLock}, s.log, Legacy(DreamPass, false);
    hide Take, Try, End, Goto, Write, Steps, Same, Finishes;
    Start(s, p, DreamPass);
    if Active(log) {
      Ended(s, p, Idle, {}, log);
      hide Next;
      PathFinishes(s, p, [s, Reached(s, p, Finished, {}, log)], []);
    } else {
      Moved(s, p, Idle, {}, Passed, log);
      Taken(s, p, Passed, {}, LeaseLock, Leased, log);
      Moved(s, p, Leased, lease, Cleared, log);
      Moved(s, p, Cleared, lease, Snapped(|log|), log);
      ApplySteps(s, p, DreamPass);
      assert {} + {LeaseLock} == lease;
      hide Next, Steps, Active;
      PathFinishes(s, p, [s, Reached(s, p, Passed, {}, log), Reached(s, p, Leased, lease, log),
                          Reached(s, p, Cleared, lease, log)] + Applying(s, p, [c]), [c]);
    }
  }

  /** Main theorem on progress: a process of any kind that finds its locks free needs only steps of its own to come to
      its end, and gives its locks back. Without a cutover it has then committed what
      it is there for, once and under its lease; behind a cutover it has committed nothing. */
  lemma EachFinishes(s: State, p: nat, kind: Kind)
    requires Starts(s, p, kind) && forall l :: l in Needs(kind) ==> l !in s.owner
    ensures Finishes(s, p, if Active(s.log) then []
                           else if kind == Activator then [CutoverRow(|s.log|)] else [Legacy(kind, false)])
  {
    hide Finishes, Active;
    match kind
    case Activator => ActivatorFinishes(s, p);
    case Capturer => CapturerFinishes(s, p);
    case Curator => CuratorFinishes(s, p);
    case DreamPass => PassFinishes(s, p);
    case SavedPlan => SavedPlanFinishes(s, p);
  }

  // ----- all processes together -----

  /** Where a process of each kind can be. */
  predicate OnItsWay(proc: Proc) {
    (proc.pc.Idle? ==> !proc.lost) && (proc.pc.Idle? || proc.pc.Finished? ||
    match proc.kind
    case Activator => proc.pc.HasCapture? || proc.pc.HasLease? || proc.pc.HasAll? || proc.pc.Inserted?
    case Capturer => proc.pc.Claimed? || proc.pc.Capturing?
    case Curator => proc.pc.Passed? || proc.pc.Fenced? || proc.pc.Rechecked?
    case DreamPass => proc.pc.Passed? || UnderLease(proc.pc)
    case SavedPlan => UnderLease(proc.pc))
  }

  /** Where a process can own this lock. */
  predicate MayOwn(proc: Proc, l: Lock) {
    match l
    case CaptureLock =>
      proc.pc.HasCapture? || proc.pc.HasLease? || proc.pc.HasAll? || proc.pc.Inserted? || proc.pc.Claimed?
      || proc.pc.Capturing?
    case LeaseLock => proc.pc.HasLease? || proc.pc.HasAll? || proc.pc.Inserted? || UnderLease(proc.pc)
    case WriterLock =>
      proc.pc.HasAll? || proc.pc.Inserted? || proc.pc.Fenced? || proc.pc.Rechecked? || proc.pc.Locked? || proc.pc.Ready?
  }

  /** No lock is owned by a process that is done with it. */
  ghost predicate NoneLeftBehind(s: State) {
    && (forall p :: p in s.procs ==> OnItsWay(s.procs[p]))
    && (forall l :: l in s.owner ==> s.owner[l] in s.procs && MayOwn(s.procs[s.owner[l]], l))
  }

  /** At `to` the process may own what it may own where it is. */
  predicate KeepsHold(proc: Proc, to: Pc) {
    OnItsWay(proc.(pc := to)) && forall l :: MayOwn(proc, l) ==> MayOwn(proc.(pc := to), l)
  }

  lemma GotoKeepsNone(s: State, p: nat, to: Pc)
    requires NoneLeftBehind(s) && p in s.procs && KeepsHold(s.procs[p], to)
    ensures NoneLeftBehind(Goto(s, p, to))
  {
    hide OnItsWay, MayOwn;
  }

  lemma TakeKeepsNone(s: State, p: nat, l: Lock, to: Pc)
    requires NoneLeftBehind(s) && p in s.procs && KeepsHold(s.procs[p], to) && MayOwn(s.procs[p].(pc := to), l)
    ensures Take(s, p, l, to) != [] ==> NoneLeftBehind(Take(s, p, l, to)[0])
  {
    hide OnItsWay, MayOwn;
  }

  lemma EndKeepsNone(s: State, p: nat)
    requires NoneLeftBehind(s) && p in s.procs
    ensures NoneLeftBehind(End(s, p)) && forall c :: NoneLeftBehind(Write(End(s, p), c))
  {
    hide MayOwn;
  }

  lemma ActivatorKeepsNone(s: State, p: nat)
    requires NoneLeftBehind(s) && p in s.procs && s.procs[p].kind == Activator && ActivatorStep(s, p) != []
    ensures NoneLeftBehind(ActivatorStep(s, p)[0])
  {
    hide NoneLeftBehind, Active, Take, Goto, End, Write;
    match s.procs[p].pc
    case Idle => TakeKeepsNone(s, p, CaptureLock, HasCapture);
    case HasCapture => TakeKeepsNone(s, p, LeaseLock, HasLease);
    case HasLease => TakeKeepsNone(s, p, WriterLock, HasAll);
    case HasAll =>
      GotoKeepsNone(s, p, Inserted(|s.log|));
      EndKeepsNone(s, p);
    case _ => EndKeepsNone(s, p);
  }

  lemma CapturerKeepsNone(s: State, p: nat)
    requires NoneLeftBehind(s) && p in s.procs && s.procs[p].kind == Capturer && CapturerStep(s, p) != []
    ensures NoneLeftBehind(CapturerStep(s, p)[0])
  {
    EndKeepsNone(s, p);
    hide NoneLeftBehind, Active, Take, Goto, End, Write;
    match s.procs[p].pc
    case Idle => TakeKeepsNone(s, p, CaptureLock, Claimed);
    case Claimed => GotoKeepsNone(s, p, Capturing);
    case _ =>
  }

  lemma CuratorKeepsNone(s: State, p: nat)
    requires NoneLeftBehind(s) && p in s.procs && s.procs[p].kind == Curator && CuratorStep(s, p) != []
    ensures NoneLeftBehind(CuratorStep(s, p)[0])
  {
    EndKeepsNone(s, p);
    hide NoneLeftBehind, Active, Take, Goto, End, Write;
    match s.procs[p].pc
    case Idle => GotoKeepsNone(s, p, Passed);
    case Passed => TakeKeepsNone(s, p, WriterLock, Fenced);
    case Fenced => GotoKeepsNone(s, p, Rechecked);
    case _ =>
  }

  lemma DreamKeepsNone(s: State, p: nat, looks: bool)
    requires NoneLeftBehind(s) && p in s.procs && DreamStep(s, p, looks) != []
    requires s.procs[p].kind == if looks then DreamPass else SavedPlan
    ensures NoneLeftBehind(DreamStep(s, p, looks)[0])
  {
    EndKeepsNone(s, p);
    if s.procs[p].pc.Ready? { ReadyKeepsNone(s, p, looks); }
    hide NoneLeftBehind, Active, Seen, Take, Goto, End, Write;
    match s.procs[p].pc
    case Idle =>
      if looks { GotoKeepsNone(s, p, Passed); } else { TakeKeepsNone(s, p, LeaseLock, Leased); }
    case Passed => TakeKeepsNone(s, p, LeaseLock, Leased);
    case Leased =>
      if looks { GotoKeepsNone(s, p, Cleared); } else { GotoKeepsNone(s, p, Snapped(|s.log|)); }
    case Cleared => GotoKeepsNone(s, p, Snapped(|s.log|));
    case Snapped(snap) => TakeKeepsNone(s, p, WriterLock, Locked(snap));
    case Locked(snap) => GotoKeepsNone(s, p, Ready(snap));
    case _ =>
  }

  lemma ReadyKeepsNone(s: State, p: nat, looks: bool)
    requires NoneLeftBehind(s) && p in s.procs && s.procs[p].pc.Ready?
    requires s.procs[p].kind == if looks then DreamPass else SavedPlan
    ensures NoneLeftBehind(DreamStep(s, p, looks)[0])
  {
  }

  lemma StepKeepsNone(s: State, step: Step)
    requires NoneLeftBehind(s) && Next(s, step) != []
    ensures NoneLeftBehind(Next(s, step)[0])
  {
    hide ActivatorStep, CapturerStep, CuratorStep, DreamStep;
    var p := step.proc;
    if step.action.Advance? {
      hide NoneLeftBehind;
      match s.procs[p].kind
      case Activator => ActivatorKeepsNone(s, p);
      case Capturer => CapturerKeepsNone(s, p);
      case Curator => CuratorKeepsNone(s, p);
      case DreamPass => DreamKeepsNone(s, p, true);
      case SavedPlan => DreamKeepsNone(s, p, false);
    }
  }

  lemma {:induction false} RunKeepsNone(s: State, steps: seq<Step>)
    requires NoneLeftBehind(s) && Run(s, steps) != []
    ensures NoneLeftBehind(Run(s, steps)[0])
    decreases |steps|
  {
    hide Next, NoneLeftBehind;
    if steps != [] {
      StepKeepsNone(s, steps[0]);
      RunKeepsNone(Next(s, steps[0])[0], steps[1..]);
    }
  }

  /** The lock a process has to wait for where it is. */
  predicate WaitsFor(proc: Proc, l: Lock) {
    match l
    case CaptureLock => proc.kind == Activator && proc.pc.Idle?
    case LeaseLock => proc.pc.HasCapture?
    case WriterLock => proc.pc.HasLease? || (proc.kind == Curator && proc.pc.Passed?) || proc.pc.Snapped?
  }

  ghost predicate CanGo(s: State, p: nat) {
    Next(s, Step(p, Advance)) != []
  }

  lemma WaitsIff(s: State, p: nat)
    requires p in s.procs && OnItsWay(s.procs[p]) && !s.procs[p].pc.Finished?
    ensures CanGo(s, p) <==> !exists l :: WaitsFor(s.procs[p], l) && l in s.owner
  {
    hide Active, Seen;
    assert WaitsFor(s.procs[p], CaptureLock) || !WaitsFor(s.procs[p], CaptureLock);
    assert WaitsFor(s.procs[p], LeaseLock) || !WaitsFor(s.procs[p], LeaseLock);
    assert WaitsFor(s.procs[p], WriterLock) || !WaitsFor(s.procs[p], WriterLock);
  }

  /** Whoever owns the lock waited for is further on in the one order in which locks are taken. */
  lemma SomebodyGoes(s: State, p: nat)
    requires NoneLeftBehind(s) && p in s.procs && !s.procs[p].pc.Finished?
    ensures exists q :: q in s.procs && CanGo(s, q)
    decreases if WaitsFor(s.procs[p], CaptureLock) then 2 else if WaitsFor(s.procs[p], LeaseLock) then 1 else 0,
              if WaitsFor(s.procs[p], WriterLock) then 1 else 0
  {
    WaitsIff(s, p);
    hide CanGo;
    if !CanGo(s, p) {
      var l :| WaitsFor(s.procs[p], l) && l in s.owner;
      SomebodyGoes(s, s.owner[l]);
    }
  }

  /** Main theorem, no deadlock: after any run some process that is not finished can go on without waiting, unless all
      are finished. */
  lemma NeverStuck(s: State, steps: seq<Step>)
    requires Initial(s) && Run(s, steps) != []
    ensures var t := Run(s, steps)[0];
      (exists p :: p in t.procs && !t.procs[p].pc.Finished?) ==>
      exists p :: p in t.procs && Next(t, Step(p, Advance)) != []
  {
    hide Run, Next;
    RunKeepsNone(s, steps);
    var t := Run(s, steps)[0];
    if p :| p in t.procs && !t.procs[p].pc.Finished? {
      SomebodyGoes(t, p);
      var q :| q in t.procs && CanGo(t, q);
    }
  }

  /** After any run, a process that has not started owns no lock: all it needs to finish is that its locks are free. */
  lemma StartersOwnNothing(s: State, steps: seq<Step>, p: nat)
    requires Initial(s) && Run(s, steps) != []
    requires p in Run(s, steps)[0].procs && Run(s, steps)[0].procs[p].pc.Idle?
    ensures Starts(Run(s, steps)[0], p, Run(s, steps)[0].procs[p].kind)
  {
    hide Run, Next;
    RunKeepsNone(s, steps);
  }

  /** Outcome captures, passes and saved plans do not wait for the first lock they take: they end at once when another
      owns it. */
  lemma BusyLockEnds(s: State, p: nat, kind: Kind)
    requires Starts(s, p, kind)
    requires (kind == Capturer && CaptureLock in s.owner) || (kind == SavedPlan && LeaseLock in s.owner)
    ensures EndsAfter(s, p, 1, [])
  {
    Stops(End(s, p), p);
  }

  lemma Stops(s: State, p: nat)
    requires p in s.procs
    ensures Run(s, Own(p, 0)) == [s]
  {
  }
}
