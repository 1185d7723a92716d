/** The life of one curator run: claims, ten-minute takeovers, worker and API commits, failures and undo, in any
    interleaving. A failure is recorded whatever the run's status is by then, so a commit is not always the last one. */
module CuratorRuns {
  import opened Wrappers
  import Collections

  datatype Status = Queued | Running | Completed | Failed | Reversed

  /** Who may act on a run; also what result.worker_id holds. */
  datatype Actor = Nobody | Worker(id: nat) | Api

  datatype Run = Run(status: Status, owner: Actor, attempts: nat, available: int, started: Option<int>,
                     proposed: Option<nat>)

  /** How a commit came about: who made it, and the status and owner it found. */
  datatype Commit = Commit(actor: Actor, status: Status, owner: Actor, plan: nat)

  /** `working` have claimed the run and not finished; `erred` and `apiErrors` still have to record a failure.
      The rest is history: commits, claims, recorded failures, and those that hit a completed or reversed run. */
  datatype State = State(
    run: Run, working: set<nat>, erred: set<nat>, apiErrors: nat,
    commits: seq<Commit>, claims: nat, failures: nat, overwrites: nat)

  datatype Step =
    | Claim(worker: nat, now: int)
    | GiveUp(worker: nat)
    | Crash(worker: nat)
    | Attempt(actor: Actor, plan: nat, valid: bool, grounded: bool, now: int)
    | RecordFailure(actor: Actor)
    | Undo(possible: bool)

  const MAX_ATTEMPTS := 3
  const TAKEOVER_SECONDS := 600

  predicate Settled(status: Status) {
    status == Completed || status == Reversed
  }

  predicate Claimable(run: Run, now: int) {
    && run.attempts < MAX_ATTEMPTS
    && (((run.status == Queued || run.status == Failed) && run.available <= now)
        || (run.status == Running && run.started.Some? && run.started.value < now - TAKEOVER_SECONDS))
  }

  /** The status check of the committing transaction. */
  predicate MayCommit(run: Run, actor: Actor) {
    !Settled(run.status) && (run.status == Running ==> run.owner == actor)
  }

  predicate Replays(run: Run, plan: nat) {
    run.status == Completed && run.proposed == Some(plan)
  }

  function Done(s: State, actor: Actor): State {
    if actor.Worker? then s.(working := s.working - {actor.id}) else s
  }

  /** An API call records an invalid plan's failure twice, a conflict once; a worker always once. */
  function Errs(s: State, actor: Actor, conflict: bool): State {
    if actor.Worker? then s.(working := s.working - {actor.id}, erred := s.erred + {actor.id})
    else s.(apiErrors := s.apiErrors + if conflict then 1 else 2)
  }

  function CommitPlan(s: State, actor: Actor, plan: nat, now: int): State {
    var run := s.run;
    var started := if run.started.Some? then run.started else Some(now);
    var claimed := if run.status == Running then run
        else run.(owner := Api, attempts := run.attempts + 1, started := started);
    Done(s, actor).(run := claimed.(status := Completed, proposed := Some(plan)),
                    commits := s.commits + [Commit(actor, run.status, run.owner, plan)])
  }

  predicate CanAttempt(s: State, actor: Actor) {
    actor.Api? || (actor.Worker? && actor.id in s.working)
  }

  function Attempted(s: State, actor: Actor, plan: nat, valid: bool, grounded: bool, now: int): State {
    if !valid then Errs(s, actor, false)
    else if Replays(s.run, plan) then Done(s, actor)
    else if !MayCommit(s.run, actor) then Errs(s, actor, true)
    else if !grounded then Errs(s, actor, false)
    else CommitPlan(s, actor, plan, now)
  }

  function Recorded(s: State): State {
    s.(run := s.run.(status := Failed), failures := s.failures + 1,
       overwrites := s.overwrites + if Settled(s.run.status) then 1 else 0)
  }

  function Next(s: State, step: Step): Option<State> {
    match step
    case Claim(w, now) =>
      if w in s.working || w in s.erred || !Claimable(s.run, now) then None
      else Some(s.(run := s.run.(status := Running, owner := Worker(w), attempts := s.run.attempts + 1,
                                 started := if s.run.started.Some? then s.run.started else Some(now)),
                   working := s.working + {w}, claims := s.claims + 1))
    case GiveUp(w) => if w in s.working then Some(Errs(s, Worker(w), false)) else None
    case Crash(w) => Some(s.(working := s.working - {w}, erred := s.erred - {w}))
    case Attempt(actor, plan, valid, grounded, now) =>
      if CanAttempt(s, actor) then Some(Attempted(s, actor, plan, valid, grounded, now)) else None
    case RecordFailure(actor) =>
      if actor.Worker? && actor.id in s.erred then Some(Recorded(s).(erred := s.erred - {actor.id}))
      else if actor.Api? && s.apiErrors > 0 then Some(Recorded(s).(apiErrors := s.apiErrors - 1))
      else None
    case Undo(possible) =>
      if s.run.status == Completed && possible then Some(s.(run := s.run.(status := Reversed))) else Some(s)
  }

  function After(s: State, steps: seq<Step>): Option<State> {
    if steps == [] then Some(s)
    else
      match After(s, steps[..|steps| - 1])
      case None => None
      case Some(t) => Next(t, steps[|steps| - 1])
  }

  function NewRun(available: int): State {
    State(Run(Queued, Nobody, 0, available, None, None), {}, {}, 0, [], 0, 0, 0)
  }

  // ----- what holds after every history -----

  predicate GatedCommit(c: Commit) {
    && !Settled(c.status) && (c.status == Running ==> c.actor == c.owner && c.owner.Worker?)
    && (c.status == Queued ==> c.actor.Api? && c.owner == Nobody)
    && c.actor != Nobody && (c.actor.Worker? ==> c.status == Running || c.status == Failed)
  }

  /** By the owner of the run, or by the API on a run nobody has claimed, whatever status it found. */
  predicate FencedCommit(c: Commit) {
    c.actor == c.owner || (c.actor.Api? && c.owner == Nobody)
  }

  ghost predicate Inv(s: State) {
    && |s.commits| == s.overwrites + (if Settled(s.run.status) then 1 else 0)
    && s.claims <= MAX_ATTEMPTS && s.claims + (if s.run.status == Queued then |s.commits| else 0) <= s.run.attempts
    && (s.run.status == Running ==> s.run.owner.Worker? && s.run.started.Some?)
    && (s.run.status == Queued ==> s.run.owner == Nobody && s.working == {} && s.erred == {} && s.claims == 0)
    && (s.run.started.None? ==> s.claims == 0)
    && (forall k :: 0 <= k < |s.commits| ==> GatedCommit(s.commits[k]))
    && s.overwrites <= s.failures
    && (s.failures == 0 ==> s.run.status != Failed)
    && (s.failures == 0 ==> forall k :: 0 <= k < |s.commits| ==> s.commits[k].status != Failed)
  }

  lemma StepKeeps(s: State, step: Step)
    requires Inv(s) && Next(s, step).Some?
    ensures Inv(Next(s, step).value)
  {
    if step.Attempt? { AttemptKeeps(s, step); } else { OtherKeeps(s, step); }
  }

  lemma AttemptKeeps(s: State, step: Step)
    requires step.Attempt? && Inv(s) && Next(s, step).Some?
    ensures Inv(Next(s, step).value)
  {
    hide Claimable, Recorded;
  }

  lemma OtherKeeps(s: State, step: Step)
    requires !step.Attempt? && Inv(s) && Next(s, step).Some?
    ensures Inv(Next(s, step).value)
  {
    hide Attempted, CommitPlan, Replays, GatedCommit, FencedCommit;
  }

  lemma {:induction false} Always(available: int, steps: seq<Step>)
    requires After(NewRun(available), steps).Some?
    ensures Inv(After(NewRun(available), steps).value)
  {
    hide Next, Inv;
    if steps == [] {
      NewRunInv(available);
    } else {
      Always(available, steps[..|steps| - 1]);
      StepKeeps(After(NewRun(available), steps[..|steps| - 1]).value, steps[|steps| - 1]);
    }
  }

  lemma NewRunInv(available: int)
    ensures Inv(NewRun(available))
  {
  }

  /** Main theorem, a count that holds after every history: a run has committed once for each failure recorded
      over a completed or reversed run, and once more if it is completed or reversed now. So a plan commits at
      most once exactly as long as no failure is recorded over a commit. No commit ever starts from a completed
      or reversed run, and one made while the run is claimed is its claimant's. */
  lemma CommitsCounted(available: int, steps: seq<Step>)
    requires After(NewRun(available), steps).Some?
    ensures var s := After(NewRun(available), steps).value;
      && |s.commits| == s.overwrites + (if Settled(s.run.status) then 1 else 0)
      && (|s.commits| >= 2 ==> s.overwrites >= 1)
      && forall k :: 0 <= k < |s.commits| ==> GatedCommit(s.commits[k])
  {
    Always(available, steps);
  }

  /** Main theorem on ownership: whatever the history, a commit that did not find the run failed is its claimant's, or
      the API's on a run nobody claimed. */
  lemma FencedUnlessFailed(available: int, steps: seq<Step>, k: nat)
    requires After(NewRun(available), steps).Some? && k < |After(NewRun(available), steps).value.commits|
    ensures var c := After(NewRun(available), steps).value.commits[k];
      c.status != Failed ==> FencedCommit(c) && (if c.status == Running then c.owner.Worker? else c.owner == Nobody)
  {
    Always(available, steps);
    assert GatedCommit(After(NewRun(available), steps).value.commits[k]);
  }

  /** `step` makes a commit by somebody else than the run's owner. */
  ghost predicate CommitsUnfenced(s: State, step: Step) {
    && Next(s, step).Some? && |Next(s, step).value.commits| == |s.commits| + 1
    && !FencedCommit(Next(s, step).value.commits[|s.commits|])
  }

  /** Main theorem on ownership, when it can be violated: after any history, somebody else than the owner can commit
      next exactly when the run is failed and either a worker owns it or some worker is still at it. */
  lemma UnfencedIff(available: int, steps: seq<Step>)
    requires After(NewRun(available), steps).Some?
    ensures var s := After(NewRun(available), steps).value;
      (exists step :: CommitsUnfenced(s, step)) <==>
      s.run.status == Failed && (s.run.owner.Worker? || s.working != {})
  {
    var s := After(NewRun(available), steps).value;
    Always(available, steps);
    forall step | CommitsUnfenced(s, step) ensures s.run.status == Failed && (s.run.owner.Worker? || s.working != {}) {
    }
    if s.run.status == Failed && s.run.owner.Worker? {
      assert CommitsUnfenced(s, Attempt(Api, 0, true, true, 0));
    } else if s.run.status == Failed && s.working != {} {
      var w :| w in s.working;
      assert CommitsUnfenced(s, Attempt(Worker(w), 0, true, true, 0));
    }
  }

  predicate InTurn(c: Commit) {
    FencedCommit(c) && c.status == if c.actor.Worker? then Running else Queued
  }

  /** Without recorded failures, only the current claimant, or the API on a run nobody claimed, has committed, and
      once. */
  lemma FencedWithoutFailures(available: int, steps: seq<Step>)
    requires After(NewRun(available), steps).Some? && After(NewRun(available), steps).value.failures == 0
    ensures var s := After(NewRun(available), steps).value;
      |s.commits| <= 1 && forall k :: 0 <= k < |s.commits| ==> InTurn(s.commits[k])
  {
    Always(available, steps);
    var s := After(NewRun(available), steps).value;
    forall k | 0 <= k < |s.commits|
      ensures InTurn(s.commits[k])
    {
      assert GatedCommit(s.commits[k]);
    }
  }

  /** When a worker's claim succeeds, in any state, and what it writes: the start is that of the first claim. */
  lemma ClaimIff(s: State, w: nat, now: int)
    ensures Next(s, Claim(w, now)).Some? <==>
      && w !in s.working && w !in s.erred && s.run.attempts < 3
      && (((s.run.status == Queued || s.run.status == Failed) && s.run.available <= now)
          || (s.run.status == Running && s.run.started.Some? && s.run.started.value + 600 < now))
    ensures Next(s, Claim(w, now)).Some? ==>
      var t := Next(s, Claim(w, now)).value;
      && t.run.status == Running && t.run.owner == Worker(w) && t.run.attempts == s.run.attempts + 1
      && t.run.started == (if s.run.started.None? then Some(now) else s.run.started)
      && t.run.proposed == s.run.proposed && t.commits == s.commits && t.working == s.working + {w}
  {
  }

  /** What becomes of a call that does not commit: a repetition of the committed plan is done; otherwise a failure is
      still to be recorded, by a worker once, by the API once for a conflict and twice for a bad plan. */
  lemma RefusedCalls(s: State, actor: Actor, plan: nat, valid: bool, grounded: bool, now: int)
    requires CanAttempt(s, actor)
    ensures var t := Attempted(s, actor, plan, valid, grounded, now);
      t.commits == s.commits ==>
        var repeated := valid && s.run.status == Completed && s.run.proposed == Some(plan);
        && (actor.Worker? ==> t.working == s.working - {actor.id} && t.apiErrors == s.apiErrors)
        && (actor.Worker? ==> t.erred == if repeated then s.erred else s.erred + {actor.id})
        && (actor.Api? ==> t.working == s.working && t.erred == s.erred)
        && (actor.Api? ==>
              t.apiErrors == s.apiErrors + if repeated then 0 else if valid && !MayCommit(s.run, actor) then 1 else 2)
  {
  }

  /** A recorded failure fails the run whatever its status is; undo reverses a completed run and no other. */
  lemma FailureAndUndo(s: State, actor: Actor, possible: bool)
    ensures Next(s, RecordFailure(actor)).Some? <==>
      (actor.Worker? && actor.id in s.erred) || (actor.Api? && s.apiErrors > 0)
    ensures Next(s, RecordFailure(actor)).Some? ==>
      Next(s, RecordFailure(actor)).value.run == s.run.(status := Failed)
    ensures Next(s, Undo(possible)) ==
      Some(s.(run := if s.run.status == Completed && possible then s.run.(status := Reversed) else s.run))
  {
  }

  /** When a call commits, in any state: exactly when its input holds and the run is neither settled nor claimed by
      another. */
  lemma CommitIff(s: State, actor: Actor, plan: nat, valid: bool, grounded: bool, now: int)
    requires CanAttempt(s, actor)
    ensures var t := Attempted(s, actor, plan, valid, grounded, now);
      && (t.commits != s.commits <==>
          valid && grounded && !Settled(s.run.status) && (s.run.status == Running ==> s.run.owner == actor))
      && (t.commits == s.commits ==> t.run == s.run)
      && (t.commits != s.commits ==> t.run.status == Completed && t.run.proposed == Some(plan))
      && (t.commits != s.commits ==> t.commits == s.commits + [Commit(actor, s.run.status, s.run.owner, plan)])
      && (t.commits != s.commits ==> t.run.started == (if s.run.started.None? && s.run.status != Running then Some(now)
                                                       else s.run.started))
      && (t.commits != s.commits ==>
            if s.run.status == Running then t.run.owner == actor && t.run.attempts == s.run.attempts
            else t.run.owner == Api && t.run.attempts == s.run.attempts + 1)
  {
  }

  /** Workers claim a run at most three times in its whole life. */
  lemma ClaimsBounded(available: int, steps: seq<Step>)
    requires After(NewRun(available), steps).Some?
    ensures After(NewRun(available), steps).value.claims <= MAX_ATTEMPTS
  {
    Always(available, steps);
  }

  /** Once started, the start is never moved, whoever claims the run later. */
  lemma {:induction false} StartKept(s: State, steps: seq<Step>)
    requires After(s, steps).Some? && s.run.started.Some?
    ensures After(s, steps).value.run.started == s.run.started
  {
    if steps == [] {
    } else {
      StartKept(s, steps[..|steps| - 1]);
    }
  }

  // ----- takeovers -----

  /** A claim on a claimed run succeeds exactly when attempts are left and the run was first started more than ten
      minutes ago; who holds it, and since when, does not matter. */
  lemma TakeoverIff(available: int, steps: seq<Step>, other: nat, now: int)
    requires After(NewRun(available), steps).Some? && After(NewRun(available), steps).value.run.status == Running
    requires var s := After(NewRun(available), steps).value; other !in s.working && other !in s.erred
    ensures var s := After(NewRun(available), steps).value;
      && s.run.started.Some?
      && (Next(s, Claim(other, now)).Some? <==>
          s.run.attempts < MAX_ATTEMPTS && s.run.started.value + TAKEOVER_SECONDS < now)
  {
    Always(available, steps);
  }

  /** From s on, with no claim in between, `other` takes the claimed run over at `now`. */
  ghost predicate TakenOver(s: State, steps: seq<Step>, other: nat, now: int) {
    && After(s, steps).Some? && After(s, steps).value.claims == s.claims && After(s, steps).value.run.status == Running
    && Next(After(s, steps).value, Claim(other, now)).Some?
  }

  /** As long as nobody claims again, a run that is still claimed has the owner, attempts and start it had. */
  lemma {:induction false} ClaimHeld(s: State, steps: seq<Step>)
    requires s.run.status == Running && s.run.started.Some? && After(s, steps).Some?
    ensures var t := After(s, steps).value;
      && t.claims >= s.claims
      && (t.claims == s.claims && t.run.status == Running ==>
            t.run.owner == s.run.owner && t.run.attempts == s.run.attempts && t.run.started == s.run.started)
  {
    if steps == [] {
    } else {
      ClaimHeld(s, steps[..|steps| - 1]);
    }
  }

  /** Main theorem on takeovers: a claimant can be taken over in the ten minutes after its claim, by whatever happens
      next, exactly when it was not the last attempt and the run had been started before. */
  lemma EarlyTakeoverIff(s: State, w: nat, now: int)
    requires Next(s, Claim(w, now)).Some?
    ensures var claimed := Next(s, Claim(w, now)).value;
      (exists steps, other, later ::
         now <= later <= now + TAKEOVER_SECONDS && TakenOver(claimed, steps, other, later)) <==>
      s.run.attempts + 1 < MAX_ATTEMPTS && s.run.started.Some? && s.run.started.value < now
  {
    var claimed := Next(s, Claim(w, now)).value;
    forall steps, other, later | now <= later <= now + TAKEOVER_SECONDS && TakenOver(claimed, steps, other, later)
      ensures s.run.attempts + 1 < MAX_ATTEMPTS && s.run.started.Some? && s.run.started.value < now
    {
      ClaimHeld(claimed, steps);
    }
    if s.run.attempts + 1 < MAX_ATTEMPTS && s.run.started.Some? && s.run.started.value < now {
      var over := s.run.started.value + TAKEOVER_SECONDS + 1;
      var other := Collections.Fresh(claimed.working + claimed.erred);
      assert TakenOver(claimed, [], other, if over < now then now else over);
    }
  }

  // ----- what is not so -----

  lemma NoSteps(s: State)
    ensures After(s, []) == Some(s)
  {
  }

  /** One more step at the end of a history. */
  lemma Then(s: State, steps: seq<Step>, step: Step)
    requires After(s, steps).Some?
    ensures After(s, steps + [step]) == Next(After(s, steps).value, step)
  {
  }

  /** A stale caller's failure reopens a completed run: a second, different plan commits. */
  lemma SecondCommit() returns (steps: seq<Step>)
    ensures After(NewRun(0), steps).Some? && |After(NewRun(0), steps).value.commits| == 2
    ensures After(NewRun(0), steps).value.commits[0].plan != After(NewRun(0), steps).value.commits[1].plan
  {
    var a, b, c, d := Attempt(Api, 1, true, true, 0), Attempt(Api, 2, true, true, 0), RecordFailure(Api),
        Attempt(Api, 2, true, true, 0);
    NoSteps(NewRun(0));
    hide After;
    steps := [];
    Then(NewRun(0), steps, a);
    steps := steps + [a];
    Then(NewRun(0), steps, b);
    steps := steps + [b];
    Then(NewRun(0), steps, c);
    steps := steps + [c];
    Then(NewRun(0), steps, d);
    steps := steps + [d];
  }

  /** A worker whose run was taken over commits after the new claimant's failure was recorded. */
  lemma StaleCommit() returns (steps: seq<Step>)
    ensures After(NewRun(0), steps).Some?
    ensures var s := After(NewRun(0), steps).value;
      |s.commits| == 1 && s.commits[0].status == Failed && s.commits[0].actor == Worker(1)
          && s.commits[0].owner == Worker(2)
  {
    var a, b, c, d, e := Claim(1, 0), Claim(2, 601), GiveUp(2), RecordFailure(Worker(2)),
        Attempt(Worker(1), 1, true, true, 602);
    NoSteps(NewRun(0));
    hide After;
    steps := [];
    Then(NewRun(0), steps, a);
    steps := steps + [a];
    Then(NewRun(0), steps, b);
    steps := steps + [b];
    Then(NewRun(0), steps, c);
    steps := steps + [c];
    Then(NewRun(0), steps, d);
    steps := steps + [d];
    Then(NewRun(0), steps, e);
    steps := steps + [e];
  }

  /** On a failed run the claimant may commit as well: an API call with an invalid plan fails the run it works on. */
  lemma OwnerAfterFailure() returns (steps: seq<Step>)
    ensures After(NewRun(0), steps).Some?
    ensures var s := After(NewRun(0), steps).value;
      |s.commits| == 1 && s.commits[0].status == Failed && s.commits[0].actor == s.commits[0].owner == Worker(1)
  {
    var a, b, c, d := Claim(1, 0), Attempt(Api, 7, false, true, 1), RecordFailure(Api),
        Attempt(Worker(1), 1, true, true, 2);
    NoSteps(NewRun(0));
    hide After;
    steps := [];
    Then(NewRun(0), steps, a);
    steps := steps + [a];
    Then(NewRun(0), steps, b);
    steps := steps + [b];
    Then(NewRun(0), steps, c);
    steps := steps + [c];
    Then(NewRun(0), steps, d);
    steps := steps + [d];
  }

  /** The ten minutes run from the first claim: a later claimant can be taken over one second after its claim. */
  lemma EarlyTakeover() returns (steps: seq<Step>)
    ensures |steps| >= 2 && steps[|steps| - 2].Claim? && steps[|steps| - 1].Claim?
        && steps[|steps| - 1].now == steps[|steps| - 2].now + 1
    ensures After(NewRun(0), steps).Some?
        && After(NewRun(0), steps).value.run.owner == Worker(steps[|steps| - 1].worker)
  {
    var a, b, c, d, e := Claim(1, 0), GiveUp(1), RecordFailure(Worker(1)), Claim(2, 700), Claim(3, 701);
    NoSteps(NewRun(0));
    hide After;
    steps := [];
    Then(NewRun(0), steps, a);
    steps := steps + [a];
    Then(NewRun(0), steps, b);
    steps := steps + [b];
    Then(NewRun(0), steps, c);
    steps := steps + [c];
    Then(NewRun(0), steps, d);
    steps := steps + [d];
    Then(NewRun(0), steps, e);
    steps := steps + [e];
  }

  /** No claim takes a running run over within ten minutes of its first claim. */
  lemma FirstClaimSafe(available: int, w: nat, start: int, steps: seq<Step>, other: nat, now: int)
    requires Next(NewRun(available), Claim(w, start)).Some?
    requires var s := Next(NewRun(available), Claim(w, start)).value;
      After(s, steps).Some? && After(s, steps).value.run.status == Running
          && Next(After(s, steps).value, Claim(other, now)).Some?
    ensures now > start + TAKEOVER_SECONDS
  {
    StartKept(Next(NewRun(available), Claim(w, start)).value, steps);
  }
}
