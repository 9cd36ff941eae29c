/** The parallel sweep: submissions under a rate limit and a deadline, completions in any order. */
module Sweeps {
  import opened RateLimits
  import opened Wrappers

  /** What one probe run ends with: a value, or an exception that is swallowed. */
  datatype Outcome<T> = Returned(value: T) | Raised

  /**
   * Everything the sweep does not decide itself: the clock read before each submission and inside each limiter call,
   * how each submitted probe ends, the order in which submissions complete, and how many of those completions
   * `as_completed` delivers before its timeout.
   */
  datatype World<T> = World(
    before: nat -> real,
    launch: nat -> real,
    outcome: nat -> Outcome<T>,
    order: seq<nat>,
    patience: nat)

  ghost predicate AllDifferent(s: seq<nat>) {
    forall i, j :: 0 <= i < j < |s| ==> s[i] != s[j]
  }

  /** Every submission completes at some point: `order` lists each of the first `n` numbers exactly once. */
  ghost predicate CompletesAll(order: seq<nat>, n: nat) {
    && AllDifferent(order)
    && (forall k: nat :: k < n ==> k in order)
  }

  /** `time.monotonic() + target_timeout if target_timeout else None`: a timeout of zero means no deadline. */
  function Deadline(start: real, timeout: Option<real>): Option<real> {
    if timeout.Some? && timeout.value != 0.0 then Some(start + timeout.value) else None
  }

  predicate Expired(deadline: Option<real>, now: real) {
    deadline.Some? && now >= deadline.value
  }

  /** How many addresses are submitted before the deadline is first seen to have passed. */
  function Submitted<T>(n: nat, deadline: Option<real>, world: World<T>, from: nat): (m: nat)
    requires from <= n
    ensures from <= m <= n
    ensures forall i :: from <= i < m ==> !Expired(deadline, world.before(i))
    ensures m < n ==> Expired(deadline, world.before(m))
    decreases n - from
  {
    if from == n || Expired(deadline, world.before(from)) then from else Submitted(n, deadline, world, from + 1)
  }

  /** The submissions that complete, in completion order. */
  function Completing(order: seq<nat>, m: nat): (c: seq<nat>)
    ensures forall i :: 0 <= i < |c| ==> c[i] < m
  {
    if order == [] then []
    else
      var n := |order| - 1;
      Completing(order[..n], m) + if order[n] < m then [order[n]] else []
  }

  function Min(a: nat, b: nat): nat { if a <= b then a else b }

  /** The completions `as_completed` delivers: all of them without a deadline. */
  function Delivered<T>(m: nat, deadline: Option<real>, world: World<T>): (d: seq<nat>)
    ensures forall i :: 0 <= i < |d| ==> d[i] < m
  {
    var all := Completing(world.order, m);
    if deadline.None? then all else all[..Min(world.patience, |all|)]
  }

  /** The submissions no completion was delivered for: `not_done`. */
  function Unfinished(m: nat, delivered: seq<nat>): set<nat> {
    set i: nat | i < m && i !in delivered
  }

  /** The result dict: the last delivered value of each address. */
  function Collected<T>(addresses: seq<string>, delivered: seq<nat>, world: World<T>): map<string, T>
    requires forall i :: 0 <= i < |delivered| ==> delivered[i] < |addresses|
  {
    if delivered == [] then map[]
    else
      var n := |delivered| - 1;
      var before := Collected(addresses, delivered[..n], world);
      match world.outcome(delivered[n])
      case Returned(v) => before[addresses[delivered[n]] := v]
      case Raised => before
  }

  /** The submission loop: it stops at the first address whose turn comes after the deadline. */
  method Submit<T>(addresses: seq<string>, deadline: Option<real>, limiter: RateLimiter, world: World<T>)
      returns (futures: nat, timedOut: bool)
    requires limiter.Valid() && limiter.nows == []
    modifies limiter
    ensures futures == Submitted(|addresses|, deadline, world, 0)
    ensures timedOut <==> futures < |addresses|
    ensures limiter.Valid()
    ensures limiter.nows == if limiter.rate > 0.0 then seq(futures, (i: nat) => world.launch(i)) else []
  {
    futures := 0;
    while futures < |addresses|
      invariant 0 <= futures <= |addresses|
      invariant forall i :: 0 <= i < futures ==> !Expired(deadline, world.before(i))
      invariant limiter.Valid()
      invariant limiter.nows == if limiter.rate > 0.0 then seq(futures, (i: nat) => world.launch(i)) else []
    {
      if Expired(deadline, world.before(futures)) {
        assert Submitted(|addresses|, deadline, world, 0) == futures;
        return futures, true;
      }
      var _ := limiter.Acquire(world.launch(futures));
      futures := futures + 1;
    }
    timedOut := false;
  }

  /** The collection loop over what `as_completed` delivers; the rest stays in `notDone` and is cancelled. */
  method Collect<T>(addresses: seq<string>, futures: nat, deadline: Option<real>, world: World<T>)
      returns (results: map<string, T>, notDone: set<nat>)
    requires futures <= |addresses|
    ensures results == Collected(addresses, Delivered(futures, deadline, world), world)
    ensures notDone == Unfinished(futures, Delivered(futures, deadline, world))
  {
    var delivered := Delivered(futures, deadline, world);
    results, notDone := map[], Unfinished(futures, []);
    for n := 0 to |delivered|
      invariant results == Collected(addresses, delivered[..n], world)
      invariant notDone == Unfinished(futures, delivered[..n])
    {
      var k := delivered[n];
      assert delivered[..n + 1] == delivered[..n] + [k];
      assert delivered[..n + 1][..n] == delivered[..n];
      notDone := notDone - {k};
      match world.outcome(k) {
        case Returned(v) => results := results[addresses[k] := v];
        case Raised =>
      }
    }
    assert delivered[..|delivered|] == delivered;
  }

  method Sweep<T>(addresses: seq<string>, rateLimit: real, start: real, timeout: Option<real>, world: World<T>)
      returns (results: map<string, T>, timedOut: bool, submitted: nat, notDone: set<nat>, limiter: RateLimiter)
    // With a timeout, exactly the addresses before the first whose turn comes `timeout` after the start are submitted.
    ensures submitted <= |addresses|
    ensures timeout.Some? && timeout.value != 0.0 ==>
              && (forall i: nat :: i < submitted ==> world.before(i) < start + timeout.value)
              && (submitted < |addresses| ==> world.before(submitted) >= start + timeout.value)
    // Without one, or with a timeout of zero, all of them are, and everything is waited for.
    ensures (timeout.None? || timeout.value == 0.0) && CompletesAll(world.order, |addresses|) ==>
              submitted == |addresses| && notDone == {} && !timedOut
    // What is not done was submitted; a result is there for every address with a finished probe that returned.
    ensures forall k :: k in notDone ==> k < submitted
    ensures CompletesAll(world.order, |addresses|) ==>
              forall a :: a in results <==>
                exists k: nat :: k < submitted && k !in notDone && addresses[k] == a && world.outcome(k).Returned?
    ensures timedOut <==> submitted < |addresses| || notDone != {}
    ensures var deadline := Deadline(start, timeout);
            var m := Submitted(|addresses|, deadline, world, 0);
            var delivered := Delivered(m, deadline, world);
            && results == Collected(addresses, delivered, world)
            && notDone == Unfinished(m, delivered)
            && submitted == m
            && fresh(limiter) && limiter.Valid() && limiter.rate == rateLimit && limiter.start == start
            && limiter.nows == if rateLimit > 0.0 then seq(m, (i: nat) => world.launch(i)) else []
  {
    limiter := new RateLimiter(rateLimit, start);
    var deadline := Deadline(start, timeout);
    submitted, timedOut := Submit(addresses, deadline, limiter, world);
    results, notDone := Collect(addresses, submitted, deadline, world);
    if notDone != {} { timedOut := true; }
    if CompletesAll(world.order, |addresses|) {
      DeliveredIsConserved(|addresses|, submitted, deadline, world);
      forall a
        ensures a in results <==>
                exists k: nat :: k < submitted && k !in notDone && addresses[k] == a && world.outcome(k).Returned?
      {
        ResultsOfFinished(addresses, submitted, deadline, world, a);
      }
    }
  }

  lemma {:induction false} ResultsOfFinished<T>(
      addresses: seq<string>, m: nat, deadline: Option<real>, world: World<T>, a: string)
    requires m <= |addresses| && CompletesAll(world.order, |addresses|)
    ensures var d := Delivered(m, deadline, world);
            a in Collected(addresses, d, world) <==>
            exists k: nat :: k < m && k !in Unfinished(m, d) && addresses[k] == a && world.outcome(k).Returned?
  {
    hide Delivered, Collected;
    var d := Delivered(m, deadline, world);
    DeliveredIsConserved(|addresses|, m, deadline, world);
    var i := CollectedIsLastReturned(addresses, d, world, a);
    if i > 0 {
      assert d[i - 1] in d;
    }
    if k: nat :| k < m && k !in Unfinished(m, d) && addresses[k] == a && world.outcome(k).Returned? {
      var j :| 0 <= j < |d| && d[j] == k;
    }
  }

  // ---- What the results mean ----

  lemma {:induction false} CompletingFilters(order: seq<nat>, m: nat)
    requires AllDifferent(order)
    ensures var c := Completing(order, m);
            && AllDifferent(c)
            && (forall k :: k in c <==> k in order && k < m)
  {
    if order != [] {
      var n := |order| - 1;
      var front := order[..n];
      CompletingFilters(front, m);
      assert order == front + [order[n]];
      assert order[n] !in front;
      var b, c := Completing(front, m), Completing(order, m);
      assert order[n] !in b;
      forall i, j | 0 <= i < j < |c|
        ensures c[i] != c[j]
      {
        assert i < |b| && c[i] == b[i] && b[i] in b;
      }
    }
  }

  /** Every submission is delivered or left in `notDone`, never both; nothing else is delivered, nothing twice. */
  lemma {:induction false} DeliveredIsConserved<T>(n: nat, m: nat, deadline: Option<real>, world: World<T>)
    requires CompletesAll(world.order, n) && m <= n
    ensures var d := Delivered(m, deadline, world);
            && AllDifferent(d)
            && (forall i: nat :: i < m <==> i in d || i in Unfinished(m, d))
            && (deadline.None? ==> Unfinished(m, d) == {})
  {
    CompletingFilters(world.order, m);
    var all, d := Completing(world.order, m), Delivered(m, deadline, world);
    assert AllDifferent(all);
    assert d == all[..|d|];
    forall k: nat | k < m
      ensures k in all
    {
      assert k in world.order;
    }
  }

  /** Without a deadline every address is submitted and nothing times out. */
  lemma {:induction false} NoDeadlineNoTimeout<T>(addresses: seq<string>, world: World<T>)
    requires CompletesAll(world.order, |addresses|)
    ensures var m := Submitted(|addresses|, None, world, 0);
            m == |addresses| && forall i: nat :: i < m ==> i in Delivered(m, None, world)
  {
    DeliveredIsConserved(|addresses|, |addresses|, None, world);
  }

  /** The result of an address is that of its last delivered submission that returned; there is none without one. */
  lemma {:induction false} CollectedIsLastReturned<T>(addresses: seq<string>, d: seq<nat>, world: World<T>, a: string)
      returns (i: nat)
    requires forall i :: 0 <= i < |d| ==> d[i] < |addresses|
    ensures i <= |d|
    ensures forall j :: i <= j < |d| ==> !(addresses[d[j]] == a && world.outcome(d[j]).Returned?)
    ensures a in Collected(addresses, d, world) <==> i > 0
    ensures i > 0 ==> addresses[d[i - 1]] == a && world.outcome(d[i - 1]) == Returned(Collected(addresses, d, world)[a])
  {
    if d == [] {
      i := 0;
    } else {
      var n := |d| - 1;
      if addresses[d[n]] == a && world.outcome(d[n]).Returned? {
        i := |d|;
      } else {
        i := CollectedIsLastReturned(addresses, d[..n], world, a);
      }
    }
  }

  /** For a probe that always answers alike, a result is the probe's answer; the results are partial, never wrong. */
  lemma {:induction false} ResultsAreProbeAnswers<T>(
      addresses: seq<string>, d: seq<nat>, world: World<T>, probe: string -> Outcome<T>, a: string)
    requires forall i :: 0 <= i < |d| ==> d[i] < |addresses|
    requires forall i :: 0 <= i < |addresses| ==> world.outcome(i) == probe(addresses[i])
    requires a in Collected(addresses, d, world)
    ensures a in addresses && probe(a) == Returned(Collected(addresses, d, world)[a])
  {
    var i := CollectedIsLastReturned(addresses, d, world, a);
  }

  /**
   * When `timed_out` is false the results are complete: the addresses whose probe returned, each with its answer.
   * `timed_out` is false exactly when all addresses were submitted and none was left in `not_done`.
   */
  lemma {:induction false} NotTimedOutIsComplete<T>(
      addresses: seq<string>, deadline: Option<real>, world: World<T>, probe: string -> Outcome<T>, a: string)
    requires CompletesAll(world.order, |addresses|)
    requires forall i :: 0 <= i < |addresses| ==> world.outcome(i) == probe(addresses[i])
    requires Submitted(|addresses|, deadline, world, 0) == |addresses|
    requires forall i: nat :: i < |addresses| ==> i in Delivered(|addresses|, deadline, world)
    ensures var results := Collected(addresses, Delivered(|addresses|, deadline, world), world);
            && (a in results <==> a in addresses && probe(a).Returned?)
            && (a in results ==> probe(a) == Returned(results[a]))
  {
    var d := Delivered(|addresses|, deadline, world);
    var i := CollectedIsLastReturned(addresses, d, world, a);
    if a in addresses && probe(a).Returned? {
      var k: nat :| k < |addresses| && addresses[k] == a;
      assert k in d;
      var j :| 0 <= j < |d| && d[j] == k;
      assert j < i;
    }
  }

  /** How many of the first `p` completions belong to the `m` submitted probes. */
  function Ahead(order: seq<nat>, p: nat, m: nat): nat
    requires p <= |order|
  {
    if p == 0 then 0 else Ahead(order, p - 1, m) + if order[p - 1] < m then 1 else 0
  }

  lemma {:induction false} CompletingAt(order: seq<nat>, m: nat, p: nat)
    requires p < |order| && order[p] < m
    ensures var c := Completing(order, m);
            Ahead(order, p, m) < |c| && c[Ahead(order, p, m)] == order[p]
  {
    var n := |order| - 1;
    if p < n {
      CompletingAt(order[..n], m, p);
      AheadPrefix(order, n, p, m);
    } else {
      CompletingLength(order, n, m);
    }
  }

  lemma {:induction false} AheadPrefix(order: seq<nat>, n: nat, p: nat, m: nat)
    requires p <= n <= |order|
    ensures Ahead(order[..n], p, m) == Ahead(order, p, m)
  {
    if p > 0 {
      AheadPrefix(order, n, p - 1, m);
    }
  }

  lemma {:induction false} CompletingLength(order: seq<nat>, p: nat, m: nat)
    requires p <= |order|
    ensures |Completing(order[..p], m)| == Ahead(order, p, m)
  {
    if p == 0 {
      assert order[..0] == [];
    } else {
      CompletingLength(order, p - 1, m);
      assert order[..p][..p - 1] == order[..p - 1];
    }
  }

  /**
   * What is waited for: without a deadline every submission; with one, as many completions as arrive in time, the
   * first ones first.
   */
  lemma {:induction false} DeliveredIff<T>(n: nat, m: nat, deadline: Option<real>, world: World<T>, p: nat)
    requires CompletesAll(world.order, n) && m <= n && p < |world.order| && world.order[p] < m
    ensures var d, a := Delivered(m, deadline, world), Ahead(world.order, p, m);
            && (world.order[p] in d <==> deadline.None? || a < world.patience)
            && (world.order[p] in d ==> a < |d| && d[a] == world.order[p])
  {
    var all, d, a := Completing(world.order, m), Delivered(m, deadline, world), Ahead(world.order, p, m);
    CompletingAt(world.order, m, p);
    CompletingFilters(world.order, m);
    assert AllDifferent(all);
    assert forall i :: 0 <= i < |d| ==> d[i] == all[i];
  }

  /** Of several delivered submissions of one address, the one that completes last decides. */
  lemma {:induction false} LatestWins<T>(
      addresses: seq<string>, m: nat, deadline: Option<real>, world: World<T>, p: nat)
    requires CompletesAll(world.order, |addresses|) && m <= |addresses|
    requires p < |world.order| && world.order[p] < m && world.outcome(world.order[p]).Returned?
    requires world.order[p] in Delivered(m, deadline, world)
    requires forall q :: p < q < |world.order| && world.order[q] < m && world.outcome(world.order[q]).Returned? &&
                         world.order[q] in Delivered(m, deadline, world) ==>
               addresses[world.order[q]] != addresses[world.order[p]]
    ensures var results := Collected(addresses, Delivered(m, deadline, world), world);
            var a := addresses[world.order[p]];
            a in results && results[a] == world.outcome(world.order[p]).value
  {
    hide Collected;
    var d, k := Delivered(m, deadline, world), world.order[p];
    DeliveredIff(|addresses|, m, deadline, world, p);
    var i := CollectedIsLastReturned(addresses, d, world, addresses[k]);
    var at := Ahead(world.order, p, m);
    assert at < |d| && d[at] == k;
    if i - 1 > at {
      var q := CompletedAt(|addresses|, m, deadline, world, i - 1);
      if q <= p {
        AheadMonotone(world.order, q, p, m);
      }
    }
  }

  /** The place of a delivered completion in the completion order. */
  lemma {:induction false} CompletedAt<T>(n: nat, m: nat, deadline: Option<real>, world: World<T>, i: nat)
      returns (q: nat)
    requires CompletesAll(world.order, n) && m <= n && i < |Delivered(m, deadline, world)|
    ensures q < |world.order| && world.order[q] == Delivered(m, deadline, world)[i] && Ahead(world.order, q, m) == i
  {
    var d := Delivered(m, deadline, world);
    CompletingFilters(world.order, m);
    assert d[i] in Completing(world.order, m);
    q :| 0 <= q < |world.order| && world.order[q] == d[i];
    DeliveredIff(n, m, deadline, world, q);
    DeliveredIsConserved(n, m, deadline, world);
    var a := Ahead(world.order, q, m);
    OnlyPlace(d, a, i);
  }

  lemma {:induction false} OnlyPlace(d: seq<nat>, i: nat, j: nat)
    requires AllDifferent(d) && i < |d| && j < |d| && d[i] == d[j]
    ensures i == j
  {
    assert d[i] == d[j];
  }

  lemma {:induction false} AheadMonotone(order: seq<nat>, q: nat, p: nat, m: nat)
    requires q <= p <= |order|
    ensures Ahead(order, q, m) <= Ahead(order, p, m)
  {
    if q < p {
      AheadMonotone(order, q, p - 1, m);
    }
  }

  /**
   * Launches are spaced, up to how late a sleep may wake: when each launch happens at most `late` after its reserved
   * slot, any window of length `width` holds at most floor((width + late) * rate) + 1 of them.
   */
  lemma {:induction false} LaunchesAreSpaced<T>(
      m: nat, start: real, rate: real, world: World<T>, launched: nat -> real, late: real, i: nat, j: nat, width: real)
    requires rate > 0.0 && i <= j < m
    requires var slots := Slots(seq(m, (k: nat) => world.launch(k)), start, Interval(rate));
             forall k: nat :: k < m ==> slots[k] <= launched(k) <= slots[k] + late
    requires launched(j) - launched(i) <= width
    ensures j - i + 1 <= ((width + late) * rate).Floor + 1
  {
    var nows := seq(m, (k: nat) => world.launch(k));
    var slots := Slots(nows, start, Interval(rate));
    assert slots[i] <= launched(i) <= slots[i] + late && slots[j] <= launched(j);
    WindowBound(nows, start, rate, i, j, width + late);
  }
}
