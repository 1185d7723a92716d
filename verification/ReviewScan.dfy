/** The Memory review scan in preview mode: which Memory versions a pass takes, how a pass ends, and why the loop
    comes to an end. Every pass that takes something reviews, defers or charges at least one version it selected as a
    seed. */
module ReviewScan {

  const BATCH: nat := 25
  const MAX_FAILURES: nat := 3

  /** One eligible Memory version, at its fingerprint: whether its review is settled (reviewed, or deferred for good)
      and how many failed passes it has been in. */
  datatype Version = Version(settled: bool, failures: nat)

  /** How a model call over a batch ends. A failure may stop the worker's loop. */
  datatype Outcome = Reviewed | Failure(retryable: bool, stops: bool)

  /** What one pass meets: versions whose retry time has not come, old failures under another configuration,
      neighbours that ride along, the longest prefix of the selection the model can be given (0 when even one
      Memory is too large or incomplete), and how the call ends. */
  datatype Weather = Weather(waiting: set<nat>, oldFailures: set<nat>, neighbours: seq<nat>, callable: nat,
                             outcome: Outcome)

  // ----- selection -----

  predicate Seed(versions: seq<Version>, waiting: set<nat>, i: nat) {
    i < |versions| && !versions[i].settled && versions[i].failures < MAX_FAILURES && i !in waiting
  }

  /** The first seeds in review order, at most `limit`. */
  function Seeds(versions: seq<Version>, waiting: set<nat>, from: nat, limit: nat): (s: seq<nat>)
    ensures |s| <= limit && forall k :: 0 <= k < |s| ==> from <= s[k] && Seed(versions, waiting, s[k])
    ensures s == [] && limit > 0 ==> forall i :: from <= i ==> !Seed(versions, waiting, i)
    decreases |versions| - from
  {
    if limit == 0 || from >= |versions| then []
    else if Seed(versions, waiting, from) then [from] + Seeds(versions, waiting, from + 1, limit - 1)
    else Seeds(versions, waiting, from + 1, limit)
  }

  function Upto(s: seq<nat>, n: nat): seq<nat> {
    if n <= |s| then s[..n] else s
  }

  function InBounds(versions: seq<Version>, s: seq<nat>, seeds: seq<nat>): seq<nat> {
    if s == [] then []
    else InBounds(versions, s[..|s| - 1], seeds)
         + (if s[|s| - 1] < |versions| && s[|s| - 1] !in seeds then [s[|s| - 1]] else [])
  }

  /** Earlier failures cut the group to four, failures of this configuration to one; only without any may up to
      25 neighbours join. */
  function Selected(versions: seq<Version>, w: Weather): seq<nat> {
    var seeds := Seeds(versions, w.waiting, 0, BATCH);
    var failedNow := exists k :: 0 <= k < |seeds| && versions[seeds[k]].failures > 0;
    var failedBefore := exists k :: 0 <= k < |seeds| && seeds[k] in w.oldFailures;
    if failedNow then Upto(seeds, 1)
    else if failedBefore then Upto(seeds, 4)
    else seeds + Upto(InBounds(versions, w.neighbours, seeds), 25)
  }

  /** Shrinking drops from the end and leaves at least one. */
  function Taken(versions: seq<Version>, w: Weather): seq<nat> {
    Upto(Selected(versions, w), if w.callable == 0 then 1 else w.callable)
  }

  // ----- one pass -----

  function Attempts(versions: seq<Version>, taken: seq<nat>): nat {
    if taken == [] then 0
    else
      var before, last := Attempts(versions, taken[..|taken| - 1]), taken[|taken| - 1];
      if last < |versions| && versions[last].failures > before then versions[last].failures else before
  }

  /** A review settles a version, and so does a deferral without a call; a failure charges it, and settles it when
      it is not to be retried. */
  function After(v: Version, w: Weather, attempts: nat): Version {
    if w.callable == 0 || w.outcome.Reviewed? then v.(settled := true)
    else Version(v.settled || !(w.outcome.retryable && attempts < 2), v.failures + 1)
  }

  function Passed(versions: seq<Version>, w: Weather): (r: seq<Version>)
    ensures |r| == |versions|
  {
    var taken := Taken(versions, w);
    seq(|versions|, i requires 0 <= i < |versions| => if i in taken
        then After(versions[i], w, Attempts(versions, taken)) else versions[i])
  }

  // ----- what a pass takes, and what becomes of it -----

  /** A version still to be reviewed: not settled, failed less than three times, and not waiting to be retried. */
  predicate StillOpen(versions: seq<Version>, waiting: set<nat>, i: nat) {
    i < |versions| && !versions[i].settled && versions[i].failures < 3 && i !in waiting
  }

  /** The first open versions from `from` on, as many as asked for or all there are. */
  ghost predicate FirstOpen(versions: seq<Version>, waiting: set<nat>, from: nat, limit: nat, s: seq<nat>) {
    && |s| <= limit && (forall k :: 0 <= k < |s| ==> from <= s[k] && StillOpen(versions, waiting, s[k]))
    && (forall j, k :: 0 <= j < k < |s| ==> s[j] < s[k])
    && forall i :: from <= i && StillOpen(versions, waiting, i) && i !in s ==>
         |s| == limit && forall k :: 0 <= k < |s| ==> s[k] < i
  }

  /** The seeds are the first open versions in review order. */
  lemma {:induction false} SeedsAreFirst(versions: seq<Version>, waiting: set<nat>, from: nat, limit: nat)
    ensures FirstOpen(versions, waiting, from, limit, Seeds(versions, waiting, from, limit))
    decreases |versions| - from
  {
    if limit == 0 || from >= |versions| {
    } else {
      assert Seed(versions, waiting, from) == StillOpen(versions, waiting, from);
      hide FirstOpen, Seed, StillOpen;
      if StillOpen(versions, waiting, from) {
        SeedsAreFirst(versions, waiting, from + 1, limit - 1);
        OneMoreOpen(versions, waiting, from, limit, Seeds(versions, waiting, from + 1, limit - 1));
      } else {
        SeedsAreFirst(versions, waiting, from + 1, limit);
        NoMoreOpen(versions, waiting, from, limit, Seeds(versions, waiting, from + 1, limit));
      }
    }
  }

  lemma OneMoreOpen(versions: seq<Version>, waiting: set<nat>, from: nat, limit: nat, rest: seq<nat>)
    requires limit > 0 && StillOpen(versions, waiting, from) && FirstOpen(versions, waiting, from + 1, limit - 1, rest)
    ensures FirstOpen(versions, waiting, from, limit, [from] + rest)
  {
    hide StillOpen;
  }

  lemma NoMoreOpen(versions: seq<Version>, waiting: set<nat>, from: nat, limit: nat, rest: seq<nat>)
    requires !StillOpen(versions, waiting, from) && FirstOpen(versions, waiting, from + 1, limit, rest)
    ensures FirstOpen(versions, waiting, from, limit, rest)
  {
    hide StillOpen;
  }

  /** Up to 25 of the neighbours, and all of them if they are fewer: versions that are no seeds themselves. */
  ghost predicate Neighbours(versions: seq<Version>, w: Weather, seeds: seq<nat>, more: seq<nat>) {
    && |more| <= 25 && (forall x :: x in more ==> x in w.neighbours && x < |versions| && x !in seeds)
    && (|more| < 25 ==> forall x :: x in w.neighbours && x < |versions| && x !in seeds ==> x in more)
  }

  lemma {:induction false} InBoundsHas(versions: seq<Version>, s: seq<nat>, seeds: seq<nat>)
    ensures forall x :: x in InBounds(versions, s, seeds) <==> x in s && x < |versions| && x !in seeds
  {
    if s != [] {
      InBoundsHas(versions, s[..|s| - 1], seeds);
      assert s == s[..|s| - 1] + [s[|s| - 1]];
    }
  }

  /** The first `callable` of the group, or all of it, or just one if the model can be given none. */
  predicate Cut(group: seq<nat>, callable: nat, taken: seq<nat>) {
    taken <= group && (taken == group || |taken| == if callable == 0 then 1 else callable)
    && (callable > 0 ==> |taken| <= callable) && (callable == 0 ==> |taken| <= 1)
  }

  lemma UptoIs(s: seq<nat>, n: nat)
    ensures Upto(s, n) <= s && |Upto(s, n)| <= n && (|Upto(s, n)| < n ==> Upto(s, n) == s)
  {
  }

  /** What is taken is a prefix of the group that the model can be given, one version at least. The group is the first
      seed alone as soon as a seed has failed before, the first four if one failed under an earlier configuration, and
      otherwise all seeds and then their neighbours. */
  lemma TakenIs(versions: seq<Version>, w: Weather)
    ensures var s, taken := Seeds(versions, w.waiting, 0, 25), Taken(versions, w);
      exists group :: Cut(group, w.callable, taken) && IsGroup(versions, w, s, group)
  {
    var group := Selected(versions, w);
    SelectedIsGroup(versions, w);
    assert Cut(group, w.callable, Taken(versions, w));
  }

  ghost predicate IsGroup(versions: seq<Version>, w: Weather, s: seq<nat>, group: seq<nat>)
    requires forall k :: 0 <= k < |s| ==> s[k] < |versions|
  {
    if exists k :: 0 <= k < |s| && versions[s[k]].failures > 0 then group == [s[0]]
    else if exists k :: 0 <= k < |s| && s[k] in w.oldFailures then group == if |s| <= 4 then s else s[..4]
    else s <= group && Neighbours(versions, w, s, group[|s|..])
  }

  lemma SelectedIsGroup(versions: seq<Version>, w: Weather)
    ensures IsGroup(versions, w, Seeds(versions, w.waiting, 0, 25), Selected(versions, w))
  {
    var s, group := Seeds(versions, w.waiting, 0, 25), Selected(versions, w);
    InBoundsHas(versions, w.neighbours, s);
    hide Seeds, InBounds;
    if (forall k :: 0 <= k < |s| ==> versions[s[k]].failures == 0) && forall k :: 0 <= k < |s| ==>
        s[k] !in w.oldFailures {
      var all := InBounds(versions, w.neighbours, s);
      assert group[|s|..] == Upto(all, 25);
      UptoIs(all, 25);
      assert Neighbours(versions, w, s, group[|s|..]);
    }
  }

  predicate FailedTwice(versions: seq<Version>, taken: seq<nat>) {
    exists j :: j in taken && j < |versions| && versions[j].failures >= 2
  }

  /** What a pass does to each version: nothing to those not taken; a review, or a deferral without a call, settles; a
      failure is charged, and settles what is not to be retried or what rode with a version that failed twice before. */
  lemma PassedIs(versions: seq<Version>, w: Weather, i: nat)
    requires i < |versions|
    ensures var taken, v, n := Taken(versions, w), versions[i], Passed(versions, w)[i];
      && (i !in taken ==> n == v)
      && (i in taken && (w.callable == 0 || w.outcome == Reviewed) ==> n == Version(true, v.failures))
      && (i in taken && w.callable > 0 && w.outcome.Failure? ==>
            n == Version(v.settled || !w.outcome.retryable || FailedTwice(versions, taken), v.failures + 1))
  {
    hide Taken;
    AttemptsIs(versions, Taken(versions, w));
  }

  lemma {:induction false} AttemptsIs(versions: seq<Version>, taken: seq<nat>)
    ensures Attempts(versions, taken) >= 2 <==> FailedTwice(versions, taken)
  {
    if taken != [] {
      var init, last := taken[..|taken| - 1], taken[|taken| - 1];
      AttemptsIs(versions, init);
      assert forall j :: j in taken <==> j in init || j == last;
    }
  }

  // ----- the measure -----

  /** Failed passes a version can still be a seed for. */
  function Chances(v: Version): nat {
    if v.settled || v.failures >= MAX_FAILURES then 0 else MAX_FAILURES - v.failures
  }

  function Remaining(versions: seq<Version>): (n: nat)
    ensures n <= MAX_FAILURES * |versions|
  {
    if versions == [] then 0 else Remaining(versions[..|versions| - 1]) + Chances(versions[|versions| - 1])
  }

  lemma {:induction false} RemainingDrops(before: seq<Version>, after: seq<Version>, i: nat)
    requires |before| == |after| && i < |before| && Chances(after[i]) < Chances(before[i])
    requires forall k :: 0 <= k < |before| ==> Chances(after[k]) <= Chances(before[k])
    ensures Remaining(after) < Remaining(before)
  {
    var n := |before| - 1;
    if i < n {
      RemainingDrops(before[..n], after[..n], i);
    } else {
      RemainingKept(before[..n], after[..n]);
    }
  }

  lemma {:induction false} RemainingKept(before: seq<Version>, after: seq<Version>)
    requires |before| == |after| && forall k :: 0 <= k < |before| ==> Chances(after[k]) <= Chances(before[k])
    ensures Remaining(after) <= Remaining(before)
  {
    if before == [] {
    } else {
      RemainingKept(before[..|before| - 1], after[..|before| - 1]);
    }
  }

  lemma ChancesNeverGrow(v: Version, w: Weather, attempts: nat)
    ensures Chances(After(v, w, attempts)) <= Chances(v)
    ensures !v.settled && v.failures < MAX_FAILURES ==> Chances(After(v, w, attempts)) < Chances(v)
  {
  }

  /** Whatever is cut off or rides along, the batch begins with the first seed. */
  lemma FirstSeedTaken(versions: seq<Version>, w: Weather)
    requires Seeds(versions, w.waiting, 0, BATCH) != []
    ensures Taken(versions, w) != [] && Taken(versions, w)[0] == Seeds(versions, w.waiting, 0, BATCH)[0]
  {
  }

  /** Every pass that takes something uses up a chance. */
  lemma PassProgress(versions: seq<Version>, w: Weather)
    requires Seeds(versions, w.waiting, 0, BATCH) != []
    ensures Remaining(Passed(versions, w)) < Remaining(versions)
  {
    hide Seeds, Selected, Attempts, After, Chances;
    var taken := Taken(versions, w);
    var attempts := Attempts(versions, taken);
    FirstSeedTaken(versions, w);
    var i := Seeds(versions, w.waiting, 0, BATCH)[0];
    assert Seed(versions, w.waiting, i);
    assert i in taken;
    ChancesNeverGrow(versions[i], w, attempts);
    forall k | 0 <= k < |versions| ensures Chances(Passed(versions, w)[k]) <= Chances(versions[k]) {
      ChancesNeverGrow(versions[k], w, attempts);
    }
    RemainingDrops(versions, Passed(versions, w), i);
  }

  /** Main theorem: with no other writer the scan ends. It passes at most three times over each version, and unless a
      failure stops it early, it ends only when nothing is left to take. */
  method Scan(versions: seq<Version>, weather: nat -> Weather)
      returns (result: seq<Version>, passes: nat, stopped: bool)
    ensures |result| == |versions| && passes <= Remaining(versions) <= MAX_FAILURES * |versions|
    ensures !stopped ==> forall i :: !Seed(result, weather(passes).waiting, i)
    ensures forall i :: 0 <= i < |versions| && versions[i].settled ==> result[i].settled
  {
    hide Seeds, Taken, Remaining, Attempts;
    result, passes, stopped := versions, 0, false;
    while !stopped && Seeds(result, weather(passes).waiting, 0, BATCH) != []
      invariant |result| == |versions| && passes + Remaining(result) <= Remaining(versions)
      invariant forall i :: 0 <= i < |versions| && versions[i].settled ==> result[i].settled
      decreases Remaining(result), !stopped
    {
      var w := weather(passes);
      PassProgress(result, w);
      stopped := w.callable > 0 && w.outcome.Failure? && w.outcome.stops;
      result := Passed(result, w);
      passes := passes + 1;
    }
    if !stopped { NothingLeft(result, weather(passes).waiting); }
  }

  lemma NothingLeft(versions: seq<Version>, waiting: set<nat>)
    requires Seeds(versions, waiting, 0, BATCH) == []
    ensures forall i :: !Seed(versions, waiting, i)
  {
  }

  /** A version that fails alone is given up after its third failure at the latest: splitting a batch does not
      renew its budget. */
  lemma ThirdFailureSettles(versions: seq<Version>, w: Weather, i: nat)
    requires i in Taken(versions, w) && i < |versions| && versions[i].failures >= 2 && w.outcome.Failure?
    ensures Passed(versions, w)[i].settled
  {
    AttemptsAtLeast(versions, Taken(versions, w), i);
  }

  lemma {:induction false} AttemptsAtLeast(versions: seq<Version>, taken: seq<nat>, i: nat)
    requires i in taken && i < |versions|
    ensures Attempts(versions, taken) >= versions[i].failures
  {
    if i == taken[|taken| - 1] {
    } else {
      AttemptsAtLeast(versions, taken[..|taken| - 1], i);
    }
  }
}
