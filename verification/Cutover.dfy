/** Events-first cutover. Three advisory locks and one durable row must stop every legacy Memory writer, in every
    interleaving of activations, outcome captures, curator reconciles, dream passes and saved dream plans.
    A commit appends to `log`; a snapshot is the length of the log it sees. Locks go when their transaction ends. */
module Cutover {

  /** Advisory locks 7818001, 7818002 and 7818003. */
  datatype Lock = CaptureLock | LeaseLock | WriterLock

  datatype Kind = Activator | Capturer | Curator | DreamPass | SavedPlan

  datatype Pc =
    | Idle
    | HasCapture | HasLease | HasAll      // activate: locks taken one by one
    | Inserted(baseline: nat)             // its row, with the baseline snapshot, not yet committed
    | Claimed | Capturing                 // capture_outcomes: lock taken; cutover seen inactive
    | Passed                              // reconcile or pass: first look without a lock
    | Fenced | Rechecked                  // reconcile: lock taken; cutover seen absent again
    | Leased | Cleared                    // pass or saved plan: lease taken; cutover seen inactive under it
    | Snapped(snap: nat)                  // apply transaction open, its one snapshot taken
    | Locked(snap: nat) | Ready(snap: nat)  // writer lock taken; cutover absent from that snapshot
    | Applied                             // apply committed, the caller still has its lease
    | Finished

  /** `lost`: the connection that held the lease broke while the process went on. */
  datatype Proc = Proc(kind: Kind, pc: Pc, lost: bool)

  datatype Commit =
    | CutoverRow(baseline: nat)
    | Legacy(writer: Kind, unleased: bool)

  datatype State = State(procs: map<nat, Proc>, owner: map<Lock, nat>, log: seq<Commit>)

  datatype Action = Advance | Abort | LoseLease
  datatype Step = Step(proc: nat, action: Action)

  predicate Active(log: seq<Commit>) {
    exists i :: 0 <= i < |log| && log[i].CutoverRow?
  }

  // ----- steps -----

  function Released(owner: map<Lock, nat>, p: nat): map<Lock, nat> {
    map l | l in owner && owner[l] != p :: owner[l]
  }

  function Goto(s: State, p: nat, pc: Pc): State
    requires p in s.procs
  {
    s.(procs := s.procs[p := s.procs[p].(pc := pc)])
  }

  /** A blocking acquisition: not a step while another owns the lock. */
  function Take(s: State, p: nat, l: Lock, pc: Pc): (r: seq<State>)
    requires p in s.procs
  {
    if l in s.owner then [] else [Goto(s, p, pc).(owner := s.owner[l := p])]
  }

  function End(s: State, p: nat): State
    requires p in s.procs
  {
    Goto(s, p, Finished).(owner := Released(s.owner, p))
  }

  /** A try-acquisition: gives up when another owns the lock. */
  function Try(s: State, p: nat, l: Lock, pc: Pc): seq<State>
    requires p in s.procs
  {
    if l in s.owner then [End(s, p)] else Take(s, p, l, pc)
  }

  /** Goes on unless a cutover row is visible in `seen`. */
  function Unless(s: State, p: nat, seen: seq<Commit>, pc: Pc): seq<State>
    requires p in s.procs
  {
    [if Active(seen) then End(s, p) else Goto(s, p, pc)]
  }

  function Write(s: State, c: Commit): State {
    s.(log := s.log + [c])
  }

  function Seen(s: State, snap: nat): seq<Commit> {
    if snap <= |s.log| then s.log[..snap] else s.log
  }

  function ActivatorStep(s: State, p: nat): seq<State>
    requires p in s.procs
  {
    match s.procs[p].pc
    case Idle => Take(s, p, CaptureLock, HasCapture)
    case HasCapture => Take(s, p, LeaseLock, HasLease)
    case HasLease => Take(s, p, WriterLock, HasAll)
    case HasAll => Unless(s, p, s.log, Inserted(|s.log|))
    case Inserted(baseline) => [Write(End(s, p), CutoverRow(baseline))]
    case _ => []
  }

  function CapturerStep(s: State, p: nat): seq<State>
    requires p in s.procs
  {
    match s.procs[p].pc
    case Idle => Try(s, p, CaptureLock, Claimed)
    case Claimed => Unless(s, p, s.log, Capturing)
    case Capturing => [Write(End(s, p), Legacy(Capturer, s.procs[p].lost))]
    case _ => []
  }

  function CuratorStep(s: State, p: nat): seq<State>
    requires p in s.procs
  {
    match s.procs[p].pc
    case Idle => Unless(s, p, s.log, Passed)
    case Passed => Take(s, p, WriterLock, Fenced)
    case Fenced => Unless(s, p, s.log, Rechecked)
    case Rechecked => [Write(End(s, p), Legacy(Curator, s.procs[p].lost))]
    case _ => []
  }

  /** A dream pass looks before and after it takes the lease; a saved plan does not look. Both then apply. */
  function DreamStep(s: State, p: nat, looks: bool): seq<State>
    requires p in s.procs
  {
    var proc := s.procs[p];
    match proc.pc
    case Idle => if looks then Unless(s, p, s.log, Passed) else Try(s, p, LeaseLock, Leased)
    case Passed => Try(s, p, LeaseLock, Leased)
    case Leased => if looks then Unless(s, p, s.log, Cleared) else [Goto(s, p, Snapped(|s.log|))]
    case Cleared => [Goto(s, p, Snapped(|s.log|))]
    case Snapped(snap) => Take(s, p, WriterLock, Locked(snap))
    case Locked(snap) => Unless(s, p, Seen(s, snap), Ready(snap))
    case Ready(_) =>
      var owner := if WriterLock in s.owner && s.owner[WriterLock] == p then s.owner - {WriterLock} else s.owner;
      [Write(Goto(s, p, Applied).(owner := owner), Legacy(proc.kind, proc.lost))]
    case Applied => [End(s, p)]
    case _ => []
  }

  /** The next step of one process; no state when it has to wait or is finished. */
  function Advanced(s: State, p: nat): seq<State>
    requires p in s.procs
  {
    match s.procs[p].kind
    case Activator => ActivatorStep(s, p)
    case Capturer => CapturerStep(s, p)
    case Curator => CuratorStep(s, p)
    case DreamPass => DreamStep(s, p, true)
    case SavedPlan => DreamStep(s, p, false)
  }

  predicate UnderLease(pc: Pc) {
    pc.Leased? || pc.Cleared? || pc.Snapped? || pc.Locked? || pc.Ready? || pc.Applied?
  }

  function Drop(s: State, p: nat): seq<State>
    requires p in s.procs
  {
    var proc := s.procs[p];
    if UnderLease(proc.pc) && !proc.lost
    then [s.(procs := s.procs[p := proc.(lost := true)], owner := s.owner - {LeaseLock})]
    else []
  }

  function Next(s: State, step: Step): seq<State> {
    if step.proc !in s.procs then []
    else match step.action
      case Advance => Advanced(s, step.proc)
      case Abort => [End(s, step.proc)]
      case LoseLease => Drop(s, step.proc)
  }

  /** The state after a run, if each of its steps could be taken. */
  function Run(s: State, steps: seq<Step>): seq<State>
    decreases |steps|
  {
    if steps == [] then [s]
    else
      var next := Next(s, steps[0]);
      if next == [] then [] else Run(next[0], steps[1..])
  }

  predicate Initial(s: State) {
    && s.owner == map[] && s.log == []
    && forall p :: p in s.procs ==> s.procs[p].pc == Idle && !s.procs[p].lost
  }

  // ----- what every run keeps -----

  /** One cutover at most, its baseline is everything committed before it, and a legacy write behind it
      was made by a dream apply whose lease had been lost. */
  ghost predicate FencedLog(log: seq<Commit>) {
    && (forall i :: 0 <= i < |log| && log[i].CutoverRow? ==> log[i].baseline == i)
    && (forall i, j :: 0 <= i < j < |log| && log[i].CutoverRow? ==> log[j].Legacy? && log[j].unleased)
    && (forall j :: 0 <= j < |log| && log[j].Legacy? && log[j].unleased ==>
        log[j].writer.DreamPass? || log[j].writer.SavedPlan?)
  }

  predicate Holds(s: State, p: nat, l: Lock) {
    l in s.owner && s.owner[l] == p
  }

  /** Locks a process owns at each point. */
  predicate LocksHeld(s: State, p: nat)
    requires p in s.procs
  {
    var proc := s.procs[p];
    match proc.pc
    case HasCapture => Holds(s, p, CaptureLock)
    case HasLease => Holds(s, p, CaptureLock) && Holds(s, p, LeaseLock)
    case HasAll => Holds(s, p, CaptureLock) && Holds(s, p, LeaseLock) && Holds(s, p, WriterLock)
    case Inserted(_) => Holds(s, p, CaptureLock) && Holds(s, p, LeaseLock) && Holds(s, p, WriterLock)
    case Claimed => Holds(s, p, CaptureLock)
    case Capturing => Holds(s, p, CaptureLock)
    case Fenced => Holds(s, p, WriterLock)
    case Rechecked => Holds(s, p, WriterLock)
    case Locked(_) => Holds(s, p, WriterLock) && (proc.lost || Holds(s, p, LeaseLock))
    case Ready(_) => Holds(s, p, WriterLock) && (proc.lost || Holds(s, p, LeaseLock))
    case pc => UnderLease(pc) && !proc.lost ==> Holds(s, p, LeaseLock)
  }

  /** Only these kinds reach these points. */
  predicate RightKind(proc: Proc) {
    && (proc.lost ==> proc.kind == DreamPass || proc.kind == SavedPlan)
    && (proc.pc.Capturing? ==> proc.kind == Capturer)
    && (proc.pc.Rechecked? ==> proc.kind == Curator)
    && (proc.pc.Inserted? ==> proc.kind == Activator)
    && (UnderLease(proc.pc) ==> proc.kind == DreamPass || proc.kind == SavedPlan)
  }

  /** What a process knows of the log, and must still know when it commits. */
  predicate Knows(s: State, p: nat)
    requires p in s.procs
  {
    var proc := s.procs[p];
    match proc.pc
    case Inserted(baseline) => baseline == |s.log| && !Active(s.log)
    case Capturing => !Active(s.log)
    case Rechecked => !Active(s.log)
    case Snapped(snap) => snap <= |s.log| && (proc.lost || Active(s.log) == Active(s.log[..snap]))
    case Locked(snap) => snap <= |s.log| && (proc.lost || Active(s.log) == Active(s.log[..snap]))
    case Ready(snap) => snap <= |s.log| && (proc.lost || !Active(s.log))
    case _ => true
  }

  ghost predicate Inv(s: State) {
    && FencedLog(s.log)
    && forall p :: p in s.procs ==> LocksHeld(s, p) && RightKind(s.procs[p]) && Knows(s, p)
  }

  /** What another process's step can do to q: nothing to its locks; and only a holder of the capture or the
      writer lock writes, only a holder of all three the cutover row. */
  lemma OthersKeep(s: State, s': State, p: nat, q: nat)
    requires p in s.procs && q in s.procs && p != q && q in s'.procs && s'.procs[q] == s.procs[q]
    requires LocksHeld(s, q) && Knows(s, q)
    requires forall l :: Holds(s, q, l) ==> Holds(s', q, l)
    requires s'.log == s.log || (|s'.log| == |s.log| + 1 && s.log == s'.log[..|s.log|])
    requires s'.log != s.log ==> Holds(s, p, CaptureLock) || Holds(s, p, WriterLock)
    requires Active(s'.log) != Active(s.log) ==>
        Holds(s, p, CaptureLock) && Holds(s, p, LeaseLock) && Holds(s, p, WriterLock)
    ensures LocksHeld(s', q) && Knows(s', q)
  {
  }

  /** A commit that keeps the log fenced. */
  predicate Fits(log: seq<Commit>, c: Commit) {
    && (c.CutoverRow? ==> c.baseline == |log| && !Active(log))
    && (Active(log) ==> c.Legacy? && c.unleased)
    && (c.Legacy? && c.unleased ==> c.writer.DreamPass? || c.writer.SavedPlan?)
  }

  lemma Appended(log: seq<Commit>, c: Commit)
    ensures Active(log + [c]) == (Active(log) || c.CutoverRow?)
    ensures FencedLog(log) && Fits(log, c) ==> FencedLog(log + [c])
  {
    var log' := log + [c];
    assert log'[|log|] == c;
    assert forall i :: 0 <= i < |log| ==> log'[i] == log[i];
  }

  predicate Writing(pc: Pc) {
    pc.Inserted? || pc.Capturing? || pc.Rechecked? || pc.Ready?
  }

  function Written(proc: Proc): Commit {
    match proc.pc
    case Inserted(baseline) => CutoverRow(baseline)
    case _ => Legacy(proc.kind, proc.lost)
  }

  /** A step leaves other processes and their locks alone and loses no lease; what it commits is fixed. */
  ghost predicate Tame(s: State, s': State, p: nat)
    requires p in s.procs
  {
    && s'.procs.Keys == s.procs.Keys && s'.procs[p].lost == s.procs[p].lost
    && (forall q :: q in s.procs && q != p ==> s'.procs[q] == s.procs[q])
    && (forall q, l :: q != p && Holds(s, q, l) ==> Holds(s', q, l))
    && (s'.log == s.log || (Writing(s.procs[p].pc) && s'.log == s.log + [Written(s.procs[p])]))
  }

  lemma AdvancedTame(s: State, p: nat)
    requires p in s.procs && Advanced(s, p) != []
    ensures Tame(s, Advanced(s, p)[0], p)
  {
    hide Active, ActivatorStep, CapturerStep, CuratorStep, DreamStep, Tame;
    match s.procs[p].kind
    case Activator => ActivatorTame(s, p);
    case Capturer => CapturerTame(s, p);
    case Curator => CuratorTame(s, p);
    case DreamPass => DreamTame(s, p, true);
    case SavedPlan => DreamTame(s, p, false);
  }

  lemma ActivatorTame(s: State, p: nat)
    requires p in s.procs && ActivatorStep(s, p) != []
    ensures Tame(s, ActivatorStep(s, p)[0], p)
  {
  }

  lemma CapturerTame(s: State, p: nat)
    requires p in s.procs && s.procs[p].kind.Capturer? && CapturerStep(s, p) != []
    ensures Tame(s, CapturerStep(s, p)[0], p)
  {
  }

  lemma CuratorTame(s: State, p: nat)
    requires p in s.procs && s.procs[p].kind.Curator? && CuratorStep(s, p) != []
    ensures Tame(s, CuratorStep(s, p)[0], p)
  {
  }

  lemma DreamTame(s: State, p: nat, looks: bool)
    requires p in s.procs && DreamStep(s, p, looks) != []
    ensures Tame(s, DreamStep(s, p, looks)[0], p)
  {
    hide Active, Seen, Tame, DreamStep;
    match s.procs[p].pc
    case Ready(_) => ApplyTame(s, p, looks);
    case Idle => TryTame(s, p, looks);
    case Passed => TryTame(s, p, looks);
    case _ => WaitTame(s, p, looks);
  }

  lemma TryTame(s: State, p: nat, looks: bool)
    requires p in s.procs && (s.procs[p].pc.Idle? || s.procs[p].pc.Passed?)
    requires DreamStep(s, p, looks) != []
    ensures Tame(s, DreamStep(s, p, looks)[0], p)
  {
    hide Active, Seen, Write;
  }

  lemma WaitTame(s: State, p: nat, looks: bool)
    requires p in s.procs && !s.procs[p].pc.Idle? && !s.procs[p].pc.Passed? && !s.procs[p].pc.Ready?
    requires DreamStep(s, p, looks) != []
    ensures Tame(s, DreamStep(s, p, looks)[0], p)
  {
  }

  lemma ApplyTame(s: State, p: nat, looks: bool)
    requires p in s.procs && s.procs[p].pc.Ready?
    ensures Tame(s, DreamStep(s, p, looks)[0], p)
  {
  }

  /** One step of p: its effect on the log is allowed, and the locks of others stay. */
  lemma OwnStep(s: State, p: nat, a: Action)
    requires Inv(s) && p in s.procs && Next(s, Step(p, a)) != []
    ensures var s' := Next(s, Step(p, a))[0];
      && s'.procs.Keys == s.procs.Keys && (forall q :: q in s.procs && q != p ==> s'.procs[q] == s.procs[q])
      && (forall q, l :: q != p && Holds(s, q, l) ==> Holds(s', q, l))
      && FencedLog(s'.log)
      && (s'.log == s.log || (|s'.log| == |s.log| + 1 && s.log == s'.log[..|s.log|]))
      && (s'.log != s.log ==> Holds(s, p, CaptureLock) || Holds(s, p, WriterLock))
      && (Active(s'.log) != Active(s.log) ==>
          Holds(s, p, CaptureLock) && Holds(s, p, LeaseLock) && Holds(s, p, WriterLock))
  {
    hide FencedLog, Active, Advanced;
    assert LocksHeld(s, p) && RightKind(s.procs[p]) && Knows(s, p);
    if a.Advance? {
      AdvancedTame(s, p);
      if Writing(s.procs[p].pc) { Appended(s.log, Written(s.procs[p])); }
    }
  }

  predicate Sound(s: State, p: nat) {
    p in s.procs && LocksHeld(s, p) && RightKind(s.procs[p]) && Knows(s, p)
  }

  lemma EndSound(s: State, p: nat)
    requires Sound(s, p)
    ensures Sound(End(s, p), p)
  {
  }

  lemma ActivatorFacts(s: State, p: nat)
    requires Sound(s, p) && s.procs[p].kind.Activator? && ActivatorStep(s, p) != []
    ensures Sound(ActivatorStep(s, p)[0], p)
  {
    hide Active;
  }

  lemma CapturerFacts(s: State, p: nat)
    requires Sound(s, p) && s.procs[p].kind.Capturer? && CapturerStep(s, p) != []
    ensures Sound(CapturerStep(s, p)[0], p)
  {
    hide Active;
  }

  lemma CuratorFacts(s: State, p: nat)
    requires Sound(s, p) && s.procs[p].kind.Curator? && CuratorStep(s, p) != []
    ensures Sound(CuratorStep(s, p)[0], p)
  {
  }

  lemma LeaseFacts(s: State, p: nat, looks: bool)
    requires Sound(s, p) && (s.procs[p].kind.DreamPass? || s.procs[p].kind.SavedPlan?) && DreamStep(s, p, looks) != []
    requires !(s.procs[p].pc.Snapped? || s.procs[p].pc.Locked? || s.procs[p].pc.Ready?)
    ensures Sound(DreamStep(s, p, looks)[0], p)
  {
    hide Active, Seen;
    assert s.log[..|s.log|] == s.log;
    if s.procs[p].pc.Leased? || s.procs[p].pc.Cleared? { hide Try, Take, End, Released; }
  }

  lemma ApplyFacts(s: State, p: nat, looks: bool)
    requires Sound(s, p) && (s.procs[p].kind.DreamPass? || s.procs[p].kind.SavedPlan?) && DreamStep(s, p, looks) != []
    requires s.procs[p].pc.Snapped? || s.procs[p].pc.Locked? || s.procs[p].pc.Ready?
    ensures Sound(DreamStep(s, p, looks)[0], p)
  {
    hide Active;
  }

  lemma DreamFacts(s: State, p: nat, looks: bool)
    requires Sound(s, p) && (s.procs[p].kind.DreamPass? || s.procs[p].kind.SavedPlan?) && DreamStep(s, p, looks) != []
    ensures Sound(DreamStep(s, p, looks)[0], p)
  {
    hide LocksHeld, RightKind, Knows, DreamStep;
    if s.procs[p].pc.Snapped? || s.procs[p].pc.Locked? || s.procs[p].pc.Ready? {
      ApplyFacts(s, p, looks);
    } else {
      LeaseFacts(s, p, looks);
    }
  }

  lemma OwnFacts(s: State, p: nat, a: Action)
    requires Inv(s) && p in s.procs && Next(s, Step(p, a)) != []
    ensures Sound(Next(s, Step(p, a))[0], p)
  {
    hide FencedLog, Active, ActivatorStep, CapturerStep, CuratorStep, DreamStep;
    assert Sound(s, p);
    if a.Advance? {
      hide Sound;
      match s.procs[p].kind
      case Activator => ActivatorFacts(s, p);
      case Capturer => CapturerFacts(s, p);
      case Curator => CuratorFacts(s, p);
      case DreamPass => DreamFacts(s, p, true);
      case SavedPlan => DreamFacts(s, p, false);
    } else if a.Abort? {
      EndSound(s, p);
    }
  }

  lemma StepKeeps(s: State, step: Step)
    requires Inv(s) && Next(s, step) != []
    ensures Inv(Next(s, step)[0])
  {
    hide LocksHeld, Knows, RightKind, FencedLog, Active, Advanced, End, Drop, Holds;
    var p, s' := step.proc, Next(s, step)[0];
    OwnStep(s, p, step.action);
    OwnFacts(s, p, step.action);
    forall q | q in s'.procs ensures LocksHeld(s', q) && RightKind(s'.procs[q]) && Knows(s', q) {
      if q != p {
        assert s'.procs[q] == s.procs[q];
        OthersKeep(s, s', p, q);
      }
    }
  }

  lemma {:induction false} RunKeeps(s: State, steps: seq<Step>)
    requires Inv(s) && Run(s, steps) != []
    ensures Inv(Run(s, steps)[0])
    decreases |steps|
  {
    hide Next, Inv;
    if steps == [] {
    } else {
      StepKeeps(s, steps[0]);
      RunKeeps(Next(s, steps[0])[0], steps[1..]);
    }
  }

  lemma InitialInv(s: State)
    requires Initial(s)
    ensures Inv(s)
  {
  }

  // ----- while leases last -----

  ghost predicate AllLeased(s: State) {
    && (forall p :: p in s.procs ==> !s.procs[p].lost)
    && (forall i :: 0 <= i < |s.log| && s.log[i].Legacy? ==> !s.log[i].unleased)
  }

  lemma {:induction false} RunLeased(s: State, steps: seq<Step>)
    requires AllLeased(s) && Run(s, steps) != [] && forall k :: 0 <= k < |steps| ==> steps[k].action != LoseLease
    ensures AllLeased(Run(s, steps)[0])
    decreases |steps|
  {
    hide Next, AllLeased;
    if steps == [] {
    } else {
      StepLeased(s, steps[0]);
      RunLeased(Next(s, steps[0])[0], steps[1..]);
    }
  }

  lemma StepLeased(s: State, step: Step)
    requires AllLeased(s) && Next(s, step) != [] && step.action != LoseLease
    ensures AllLeased(Next(s, step)[0])
  {
    hide Advanced;
    if step.action.Advance? { AdvancedTame(s, step.proc); }
  }

  /** Main theorem. In every interleaving a cutover row is the only one, its baseline snapshot contains exactly what
      was committed before it, and only a dream apply that lost its lease can commit behind it. */
  lemma CutoverFences(s: State, steps: seq<Step>)
    requires Initial(s) && Run(s, steps) != []
    ensures FencedLog(Run(s, steps)[0].log)
  {
    hide Next, Run, FencedLog;
    InitialInv(s);
    RunKeeps(s, steps);
  }

  /** As long as no lease is lost, nothing at all commits behind the cutover: every legacy write is in its baseline. */
  lemma NothingBehindCutover(s: State, steps: seq<Step>, i: nat)
    requires Initial(s) && Run(s, steps) != [] && forall k :: 0 <= k < |steps| ==> steps[k].action != LoseLease
    requires i < |Run(s, steps)[0].log| && Run(s, steps)[0].log[i].CutoverRow?
    ensures i == |Run(s, steps)[0].log| - 1 && Run(s, steps)[0].log[i].baseline == i
  {
    hide Next, Run;
    CutoverFences(s, steps);
    RunLeased(s, steps);
    LastOfLog(Run(s, steps)[0].log, i);
  }

  /** Commit by commit: a cutover is the last entry exactly when no apply without its lease committed behind it, and
      only dream passes and saved plans ever do. */
  lemma LastUnlessUnleased(s: State, steps: seq<Step>, i: nat)
    requires Initial(s) && Run(s, steps) != [] && i < |Run(s, steps)[0].log| && Run(s, steps)[0].log[i].CutoverRow?
    ensures var log := Run(s, steps)[0].log;
      && (i == |log| - 1 <==> forall j :: i < j < |log| ==> !(log[j].Legacy? && log[j].unleased))
      && (forall j :: i < j < |log| ==> log[j] == Legacy(DreamPass, true) || log[j] == Legacy(SavedPlan, true))
  {
    hide Next, Run;
    CutoverFences(s, steps);
    var log := Run(s, steps)[0].log;
    forall j | i < j < |log| ensures log[j] == Legacy(DreamPass, true) || log[j] == Legacy(SavedPlan, true) {
      LaterUnleased(log, i, j);
    }
    if i < |log| - 1 { LaterUnleased(log, i, |log| - 1); }
  }

  lemma LastOfLog(log: seq<Commit>, i: nat)
    requires FencedLog(log) && i < |log| && log[i].CutoverRow?
    requires forall j :: 0 <= j < |log| && log[j].Legacy? ==> !log[j].unleased
    ensures i == |log| - 1 && log[i].baseline == i
  {
    if i < |log| - 1 { LaterUnleased(log, i, |log| - 1); }
  }

  lemma LaterUnleased(log: seq<Commit>, i: nat, j: nat)
    requires FencedLog(log) && i < j < |log| && log[i].CutoverRow?
    ensures log[j].Legacy? && log[j].unleased
  {
  }

  ghost predicate Same(s: State, t: State) {
    s.procs == t.procs && s.owner == t.owner && s.log == t.log
  }

  lemma Then(s: State, step: Step, next: State, rest: seq<Step>)
    requires Next(s, step) != [] && Same(Next(s, step)[0], next)
    ensures Run(s, [step] + rest) == Run(next, rest)
  {
  }

  /** A saved plan and an activation. */
  function Two(dream: Pc, lost: bool, activate: Pc, owner: map<Lock, nat>, log: seq<Commit>): State {
    State(map[0 := Proc(SavedPlan, dream, lost), 1 := Proc(Activator, activate, false)], owner, log)
  }

  /** The writer lock and the check behind it do not suffice for a serializable apply: with its lease lost a saved
      plan commits after the cutover, from a snapshot older than the lock. */
  lemma LostLeaseBreaksFence() returns (s: State, steps: seq<Step>)
    ensures Initial(s) && Run(s, steps) != [] && Run(s, steps)[0].log == [CutoverRow(0), Legacy(SavedPlan, true)]
  {
    var dream, activate := Step(0, Advance), Step(1, Advance);
    s := Two(Idle, false, Idle, map[], []);
    var leased, open := Two(Leased, false, Idle, map[LeaseLock := 0], []),
        Two(Snapped(0), false, Idle, map[LeaseLock := 0], []);
    var lost, ready := Two(Snapped(0), true, Idle, map[], []), [dream, dream, dream];
    var steps4 := ActivateThen(ready);
    steps := [dream] + ([dream] + ([Step(0, LoseLease)] + steps4));
    hide Run, Next;
    TakesLease();
    LosesLease();
    Then(s, dream, leased, [dream] + ([Step(0, LoseLease)] + steps4));
    Then(leased, dream, open, [Step(0, LoseLease)] + steps4);
    Then(open, Step(0, LoseLease), lost, steps4);
    LateCommit();
  }

  lemma TakesLease()
    ensures var t := Next(Two(Idle, false, Idle, map[], []), Step(0, Advance));
      t != [] && Same(t[0], Two(Leased, false, Idle, map[LeaseLock := 0], []))
  {
  }

  lemma LosesLease()
    ensures var t := Next(Two(Leased, false, Idle, map[LeaseLock := 0], []), Step(0, Advance));
      t != [] && Same(t[0], Two(Snapped(0), false, Idle, map[LeaseLock := 0], []))
    ensures var t := Next(Two(Snapped(0), false, Idle, map[LeaseLock := 0], []), Step(0, LoseLease));
      t != [] && Same(t[0], Two(Snapped(0), true, Idle, map[], []))
  {
  }

  lemma RunEnds(s: State)
    ensures Run(s, []) == [s]
  {
  }

  /** An activation from lock to commit while the saved plan waits. */
  lemma ActivateThen(rest: seq<Step>) returns (steps: seq<Step>)
    ensures Run(Two(Snapped(0), true, Idle, map[], []), steps)
        == Run(Two(Snapped(0), true, Finished, map[], [CutoverRow(0)]), rest)
  {
    hide Run;
    var go := Step(1, Advance);
    var s0, s1 := Two(Snapped(0), true, Idle, map[], []), Two(Snapped(0), true, HasCapture, map[CaptureLock := 1], []);
    var s2 := Two(Snapped(0), true, HasLease, map[CaptureLock := 1, LeaseLock := 1], []);
    var owner := map[CaptureLock := 1, LeaseLock := 1, WriterLock := 1];
    var s3, s4 := Two(Snapped(0), true, HasAll, owner, []), Two(Snapped(0), true, Inserted(0), owner, []);
    var s5 := Two(Snapped(0), true, Finished, map[], [CutoverRow(0)]);
    assert Released(owner, 1) == map[];
    Then(s4, go, s5, rest);
    Then(s3, go, s4, [go] + rest);
    Then(s2, go, s3, [go] + ([go] + rest));
    Then(s1, go, s2, [go] + ([go] + ([go] + rest)));
    Then(s0, go, s1, [go] + ([go] + ([go] + ([go] + rest))));
    steps := [go] + ([go] + ([go] + ([go] + ([go] + rest))));
  }

  lemma TakesWriterLock()
    ensures var t := Next(Two(Snapped(0), true, Finished, map[], [CutoverRow(0)]), Step(0, Advance));
      t != [] && Same(t[0], Two(Locked(0), true, Finished, map[WriterLock := 0], [CutoverRow(0)]))
    ensures var t := Next(Two(Locked(0), true, Finished, map[WriterLock := 0], [CutoverRow(0)]), Step(0, Advance));
      t != [] && Same(t[0], Two(Ready(0), true, Finished, map[WriterLock := 0], [CutoverRow(0)]))
  {
  }

  lemma Commits()
    ensures var t := Next(Two(Ready(0), true, Finished, map[WriterLock := 0], [CutoverRow(0)]), Step(0, Advance));
      t != [] && Same(t[0], Two(Applied, true, Finished, map[], [CutoverRow(0), Legacy(SavedPlan, true)]))
  {
  }

  lemma LateCommit()
    ensures var done := Run(Two(Snapped(0), true, Finished, map[], [CutoverRow(0)]),
                            [Step(0, Advance), Step(0, Advance), Step(0, Advance)]);
      done != [] && done[0].log == [CutoverRow(0), Legacy(SavedPlan, true)]
  {
    var go, log := Step(0, Advance), [CutoverRow(0)];
    var s0, s1 := Two(Snapped(0), true, Finished, map[], log),
        Two(Locked(0), true, Finished, map[WriterLock := 0], log);
    var s2 := Two(Ready(0), true, Finished, map[WriterLock := 0], log);
    var s3 := Two(Applied, true, Finished, map[], [CutoverRow(0), Legacy(SavedPlan, true)]);
    TakesWriterLock();
    Commits();
    hide Next, Run;
    Then(s2, go, s3, []);
    Then(s1, go, s2, [go] + []);
    Then(s0, go, s1, [go] + ([go] + []));
    assert Run(s3, []) == [s3] by { RunEnds(s3); }
    assert [go] + ([go] + ([go] + [])) == [go, go, go];
  }
}
