/** The rate limiter: a slot scheduler over real time. */
module RateLimits {

  function Max(a: real, b: real): real {
    if a >= b then a else b
  }

  /** `1.0 / rate if rate > 0 else 0.0` */
  function Interval(rate: real): real {
    if rate > 0.0 then 1.0 / rate else 0.0
  }

  /** The slots that calls reading the clock at `nows` reserve, when the first free slot is `next`. */
  function Slots(nows: seq<real>, next: real, interval: real): (slots: seq<real>)
    ensures |slots| == |nows|
  {
    if nows == [] then []
    else
      var slot := Max(nows[0], next);
      [slot] + Slots(nows[1..], slot + interval, interval)
  }

  /** Each slot is the caller's own time or one interval after the previous slot, whichever is later. */
  lemma {:induction false} SlotsRecurrence(nows: seq<real>, next: real, interval: real, i: nat)
    requires i < |nows|
    ensures var slots := Slots(nows, next, interval);
            slots[i] == Max(nows[i], if i == 0 then next else slots[i - 1] + interval)
  {
    if i > 0 {
      SlotsRecurrence(nows[1..], Max(nows[0], next) + interval, interval, i - 1);
    }
  }

  lemma {:induction false} SlotsSpread(nows: seq<real>, next: real, interval: real, i: nat, j: nat)
    requires i <= j < |nows| && interval >= 0.0
    ensures var slots := Slots(nows, next, interval);
            slots[j] >= slots[i] + (j - i) as real * interval
    decreases j
  {
    if i < j {
      SlotsSpread(nows, next, interval, i, j - 1);
      SlotsRecurrence(nows, next, interval, j);
    }
  }

  /** Any window of length `width` contains at most floor(width * rate) + 1 slots. */
  lemma {:induction false} WindowBound(nows: seq<real>, next: real, rate: real, i: nat, j: nat, width: real)
    requires i <= j < |nows| && rate > 0.0
    requires var slots := Slots(nows, next, Interval(rate)); slots[j] - slots[i] <= width
    ensures j - i + 1 <= (width * rate).Floor + 1
  {
    hide Slots;
    var slots, k := Slots(nows, next, Interval(rate)), (j - i) as real;
    IntervalPositive(rate);
    SlotsSpread(nows, next, Interval(rate), i, j);
    ScaleByRate(k, rate, width);
    FloorAtLeast(j - i, width * rate);
  }

  lemma IntervalPositive(rate: real)
    requires rate > 0.0
    ensures Interval(rate) == 1.0 / rate > 0.0
  {
  }

  lemma FloorAtLeast(n: int, x: real)
    requires n as real <= x
    ensures n <= x.Floor
  {
  }

  lemma {:induction false} ScaleByRate(k: real, rate: real, width: real)
    requires rate > 0.0 && k * (1.0 / rate) <= width
    ensures k <= width * rate
  {
    assert k * (1.0 / rate) * rate == k by {
      assert (1.0 / rate) * rate == 1.0;
      assert k * (1.0 / rate) * rate == k * ((1.0 / rate) * rate);
    }
  }

  /** A schedule that respects the callers' times, the start and the spacing. */
  ghost predicate Respects(t: seq<real>, nows: seq<real>, next: real, interval: real) {
    && |t| == |nows|
    && (forall i :: 0 <= i < |t| ==> t[i] >= nows[i])
    && (t != [] ==> t[0] >= next)
    && (forall i :: 0 < i < |t| ==> t[i] >= t[i - 1] + interval)
  }

  /** The reserved slots respect the limits, and no schedule that does lets any call through earlier. */
  lemma {:induction false} SlotsAreEarliest(nows: seq<real>, next: real, interval: real)
    requires interval >= 0.0
    ensures Respects(Slots(nows, next, interval), nows, next, interval)
    ensures forall t, i :: Respects(t, nows, next, interval) && 0 <= i < |t| ==> Slots(nows, next, interval)[i] <= t[i]
  {
    var slots := Slots(nows, next, interval);
    forall i | 0 <= i < |slots|
      ensures slots[i] >= nows[i]
    {
      SlotsRecurrence(nows, next, interval, i);
    }
    forall i | 0 < i < |slots|
      ensures slots[i] >= slots[i - 1] + interval
    {
      SlotsRecurrence(nows, next, interval, i);
    }
    forall t, i | Respects(t, nows, next, interval) && 0 <= i < |t|
      ensures slots[i] <= t[i]
    {
      NoEarlier(t, nows, next, interval, i);
    }
  }

  lemma {:induction false} NoEarlier(t: seq<real>, nows: seq<real>, next: real, interval: real, i: nat)
    requires Respects(t, nows, next, interval) && i < |t|
    ensures Slots(nows, next, interval)[i] <= t[i]
  {
    SlotsRecurrence(nows, next, interval, i);
    if i > 0 {
      NoEarlier(t, nows, next, interval, i - 1);
    }
  }

  lemma {:induction false} SlotsAppend(nows: seq<real>, now: real, next: real, interval: real)
    ensures Slots(nows + [now], next, interval) ==
            Slots(nows, next, interval) + [Max(now, NextSlot(nows, next, interval))]
  {
    if nows == [] {
      assert nows + [now] == [now];
      assert Slots([now][1..], Max(now, next) + interval, interval) == [];
    } else {
      var slot := Max(nows[0], next);
      SlotsAppend(nows[1..], now, slot + interval, interval);
      assert (nows + [now])[1..] == nows[1..] + [now];
      assert [slot] + (Slots(nows[1..], slot + interval, interval) + [Max(now, NextSlot(nows, next, interval))])
          == Slots(nows, next, interval) + [Max(now, NextSlot(nows, next, interval))];
    }
  }

  /** The first free slot after the calls. */
  function NextSlot(nows: seq<real>, next: real, interval: real): real {
    if nows == [] then next else NextSlot(nows[1..], Max(nows[0], next) + interval, interval)
  }

  lemma {:induction false} NextSlotAppend(nows: seq<real>, now: real, next: real, interval: real)
    ensures NextSlot(nows + [now], next, interval) == Max(now, NextSlot(nows, next, interval)) + interval
  {
    if nows == [] {
      assert (nows + [now])[1..] == [];
    } else {
      NextSlotAppend(nows[1..], now, Max(nows[0], next) + interval, interval);
      assert (nows + [now])[1..] == nows[1..] + [now];
    }
  }

  /** `RateLimiter`. Calls are serialized by its lock; the ghost fields record what they read and got. */
  class RateLimiter {
    const rate: real
    const interval: real
    var next: real
    ghost const start: real
    ghost var nows: seq<real>

    ghost predicate Valid()
      reads this
    {
      interval == Interval(rate) && next == NextSlot(nows, start, interval)
    }

    constructor (rate: real, now: real)
      ensures Valid() && this.rate == rate && nows == [] && start == now
    {
      this.rate := rate;
      this.interval := if rate > 0.0 then 1.0 / rate else 0.0;
      next, start, nows := now, now, [];
    }

    /** `acquire`: the returned wait ends exactly at the reserved slot, so the call never returns before it. */
    method Acquire(now: real) returns (wait: real)
      requires Valid()
      modifies this`next, this`nows
      ensures Valid()
      ensures wait >= 0.0
      ensures rate <= 0.0 ==> wait == 0.0 && nows == old(nows)
      ensures rate > 0.0 ==>
                && nows == old(nows) + [now]
                && Slots(nows, start, interval) == Slots(old(nows), start, interval) + [now + wait]
    {
      if rate <= 0.0 { return 0.0; }
      SlotsAppend(nows, now, start, interval);
      NextSlotAppend(nows, now, start, interval);
      if now >= next {
        next := now + interval;
        wait := 0.0;
      } else {
        wait := next - now;
        next := next + interval;
      }
      nows := nows + [now];
    }
  }
}
