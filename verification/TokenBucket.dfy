/**
 The in-process token bucket that paces embedding requests.

 `acquire` holds a lock while it sleeps, so calls never overlap. It stamps the refill time before
 the sleep and not after it; the time slept is therefore credited once as the wait itself and
 again by the next call. The model proves the rate this gives and the rate of the variant that
 stamps after the sleep.

 Time in the model is counted in refill intervals: with r = capacity / 60 tokens per second, T
 seconds are r·T intervals. `Pacer` keeps seconds, as the code does, and its contract converts.
 */
module TokenBucket {
  /** `stampLate` selects the variant; the code has it false. */
  datatype Bucket = Bucket(capacity: real, tokens: real, updated: real, stampLate: bool)

  function Refilled(b: Bucket, now: real): real {
    var t := b.tokens + (now - b.updated);
    if t < b.capacity then t else b.capacity
  }

  /** When a call arriving at `now` is granted, if its sleep lasts `extra` longer than asked. */
  function GrantedAt(b: Bucket, now: real, extra: real): real {
    if Refilled(b, now) < 1.0 then now + (1.0 - Refilled(b, now)) + extra else now
  }

  /** The bucket after that call. */
  function Acquire(b: Bucket, now: real, extra: real): Bucket {
    if Refilled(b, now) < 1.0 then
      b.(tokens := 0.0, updated := if b.stampLate then GrantedAt(b, now, extra) else now)
    else b.(tokens := Refilled(b, now) - 1.0, updated := now)
  }

  /** A call: its arrival and the excess of its sleep. */
  datatype Call = Call(now: real, extra: real)

  /** Serial use: each call gets the lock after the previous one was granted. */
  predicate Serial(b: Bucket, at: real, calls: seq<Call>)
    decreases |calls|
  {
    calls == []
    || (at <= calls[0].now && 0.0 <= calls[0].extra
        && Serial(Acquire(b, calls[0].now, calls[0].extra), GrantedAt(b, calls[0].now, calls[0].extra), calls[1..]))
  }

  function AcquireAll(b: Bucket, calls: seq<Call>): Bucket
    decreases |calls|
  {
    if calls == [] then b else AcquireAll(Acquire(b, calls[0].now, calls[0].extra), calls[1..])
  }

  /** The time of the last grant. */
  function LastGrant(b: Bucket, at: real, calls: seq<Call>): real
    decreases |calls|
  {
    if calls == [] then at
    else LastGrant(Acquire(b, calls[0].now, calls[0].extra), GrantedAt(b, calls[0].now, calls[0].extra), calls[1..])
  }

  /** Token level within bounds, and no stamp from the future. */
  predicate Sound(b: Bucket, at: real) {
    b.capacity >= 1.0 && 0.0 <= b.tokens <= b.capacity && b.updated <= at
  }

  /** What a bucket can give at time `at`: its tokens plus the refill that is still to be counted. */
  function Credit(b: Bucket, at: real): real {
    b.tokens + (at - b.updated)
  }

  /** What a stretch of time can earn: the interval itself, twice as written. */
  function Earned(b: Bucket, elapsed: real): real {
    if b.stampLate then elapsed else 2.0 * elapsed
  }

  /** One call pays one token out of what the bucket holds and what the elapsed time earns. */
  lemma AcquirePays(b: Bucket, at: real, now: real, extra: real)
    requires Sound(b, at) && at <= now && 0.0 <= extra
    ensures var b', g := Acquire(b, now, extra), GrantedAt(b, now, extra);
            && Sound(b', g) && now <= g
            && 1.0 + Credit(b', g) <= Credit(b, at) + Earned(b, g - at)
  {
  }

  lemma {:induction false} RunPays(b: Bucket, at: real, calls: seq<Call>)
    requires Sound(b, at) && Serial(b, at, calls)
    ensures var b', g := AcquireAll(b, calls), LastGrant(b, at, calls);
            && Sound(b', g) && at <= g && b'.capacity == b.capacity
            && |calls| as real + Credit(b', g) <= Credit(b, at) + Earned(b, g - at)
    decreases |calls|
  {
    if calls != [] {
      var b1, g1 := Acquire(b, calls[0].now, calls[0].extra), GrantedAt(b, calls[0].now, calls[0].extra);
      AcquirePays(b, at, calls[0].now, calls[0].extra);
      RunPays(b1, g1, calls[1..]);
      assert |calls| as real == |calls[1..]| as real + 1.0;
    }
  }

  /** Over any stretch of serial calls, from whatever state the bucket is in, tokens stay within
      [0, capacity] and the grants number at most the capacity plus what the time from the first
      arrival to the last grant earns: two per interval as written, one if stamped after the
      sleep. */
  lemma GrantBound(b: Bucket, at: real, calls: seq<Call>)
    requires Sound(b, at) && Serial(b, at, calls) && calls != []
    ensures var elapsed := LastGrant(b, at, calls) - calls[0].now;
            && 0.0 <= AcquireAll(b, calls).tokens <= b.capacity
            && |calls| as real <= b.capacity + (if b.stampLate then elapsed else 2.0 * elapsed)
  {
    // The first call cannot tell the bucket from one topped up, to at most its capacity, as it arrives.
    var b0 := b.(tokens := Refilled(b, calls[0].now), updated := calls[0].now);
    assert Acquire(b0, calls[0].now, calls[0].extra) == Acquire(b, calls[0].now, calls[0].extra);
    RunPays(b0, calls[0].now, calls);
  }

  // ---------------------------------------------------------------- the bound is met exactly

  /** `n` calls, each arriving the moment the one before it is granted, none oversleeping. */
  function BackToBack(b: Bucket, at: real, n: nat): seq<Call>
    decreases n
  {
    if n == 0 then [] else [Call(at, 0.0)] + BackToBack(Acquire(b, at, 0.0), GrantedAt(b, at, 0.0), n - 1)
  }

  lemma BackToBackStep(b: Bucket, at: real, n: nat)
    requires n > 0
    ensures var calls := BackToBack(b, at, n);
            var b1, g1 := Acquire(b, at, 0.0), GrantedAt(b, at, 0.0);
            calls[0] == Call(at, 0.0) && calls[1..] == BackToBack(b1, g1, n - 1)
            && LastGrant(b, at, calls) == LastGrant(b1, g1, BackToBack(b1, g1, n - 1))
  {
  }

  lemma {:induction false} BackToBackIsSerial(b: Bucket, at: real, n: nat)
    ensures |BackToBack(b, at, n)| == n && Serial(b, at, BackToBack(b, at, n))
    decreases n
  {
    if n > 0 {
      BackToBackStep(b, at, n);
      BackToBackIsSerial(Acquire(b, at, 0.0), GrantedAt(b, at, 0.0), n - 1);
    }
  }

  /** While there are whole tokens, calls are granted at once. */
  lemma {:induction false} DrainIsImmediate(b: Bucket, at: real, have: nat, n: nat)
    requires b.capacity >= 1.0 && b.tokens == have as real <= b.capacity && b.updated == at && have <= n
    ensures LastGrant(b, at, BackToBack(b, at, n)) ==
            LastGrant(b.(tokens := 0.0), at, BackToBack(b.(tokens := 0.0), at, n - have))
    decreases have
  {
    if have > 0 {
      assert Acquire(b, at, 0.0) == b.(tokens := (have - 1) as real) && GrantedAt(b, at, 0.0) == at;
      BackToBackStep(b, at, n);
      DrainIsImmediate(b.(tokens := (have - 1) as real), at, have - 1, n - 1);
    } else {
      assert b == b.(tokens := 0.0);
    }
  }

  /** An empty bucket as written: one call waits a full interval, the next one finds that wait
      credited and is granted at once. */
  lemma {:induction false} PairsPerWait(b: Bucket, at: real, m: nat)
    requires b.capacity >= 1.0 && b.tokens == 0.0 && b.updated == at && !b.stampLate
    ensures LastGrant(b, at, BackToBack(b, at, 2 * m)) == at + m as real
    decreases m
  {
    if m > 0 {
      var g := at + 1.0;
      assert Acquire(b, at, 0.0) == b && GrantedAt(b, at, 0.0) == g;
      assert Acquire(b, g, 0.0) == b.(updated := g) && GrantedAt(b, g, 0.0) == g;
      BackToBackStep(b, at, 2 * m);
      BackToBackStep(b, g, 2 * m - 1);
      PairsPerWait(b.(updated := g), g, m - 1);
    }
  }

  /** Back-to-back callers on a full bucket get exactly capacity + 2·m grants in m intervals: the
      doubled rate is real and the bound cannot be improved. */
  lemma BoundIsTight(capacity: nat, start: real, m: nat)
    requires capacity >= 1
    ensures var b := Bucket(capacity as real, capacity as real, start, false);
            var calls := BackToBack(b, start, capacity + 2 * m);
            && Serial(b, start, calls) && |calls| == capacity + 2 * m
            && LastGrant(b, start, calls) == start + m as real
  {
    var b := Bucket(capacity as real, capacity as real, start, false);
    BackToBackIsSerial(b, start, capacity + 2 * m);
    DrainIsImmediate(b, start, capacity, capacity + 2 * m);
    PairsPerWait(b.(tokens := 0.0), start, m);
  }

  // ---------------------------------------------------------------- when the intended rate is kept

  function Max(a: real, b: real): real {
    if a >= b then a else b
  }

  /** The sleep a call asks for. */
  function Asked(b: Bucket, now: real): real {
    Max(0.0, 1.0 - Refilled(b, now))
  }

  /** The refill a call finds the bucket too full to take. */
  function Lost(b: Bucket, now: real): real {
    Max(0.0, Credit(b, now) - b.capacity)
  }

  function TotalAsked(b: Bucket, calls: seq<Call>): real
    decreases |calls|
  {
    if calls == [] then 0.0
    else Asked(b, calls[0].now) + TotalAsked(Acquire(b, calls[0].now, calls[0].extra), calls[1..])
  }

  function TotalLost(b: Bucket, calls: seq<Call>): real
    decreases |calls|
  {
    if calls == [] then 0.0
    else Lost(b, calls[0].now) + TotalLost(Acquire(b, calls[0].now, calls[0].extra), calls[1..])
  }

  /** To the token: the bucket as written is paid by the time that passes and, a second time, by the
      sleeps it asks for; it loses what overflows. */
  lemma AcquireBalances(b: Bucket, at: real, now: real, extra: real)
    requires Sound(b, at) && at <= now && 0.0 <= extra && !b.stampLate
    ensures var b', g := Acquire(b, now, extra), GrantedAt(b, now, extra);
            1.0 + Credit(b', g) == Credit(b, at) + (g - at) + Asked(b, now) - Lost(b, now)
  {
  }

  lemma {:induction false} RunBalances(b: Bucket, at: real, calls: seq<Call>)
    requires Sound(b, at) && Serial(b, at, calls) && !b.stampLate
    ensures var b', g := AcquireAll(b, calls), LastGrant(b, at, calls);
            |calls| as real + Credit(b', g) == Credit(b, at) + (g - at) + TotalAsked(b, calls) - TotalLost(b, calls)
    decreases |calls|
  {
    if calls != [] {
      var b1, g1 := Acquire(b, calls[0].now, calls[0].extra), GrantedAt(b, calls[0].now, calls[0].extra);
      AcquirePays(b, at, calls[0].now, calls[0].extra);
      AcquireBalances(b, at, calls[0].now, calls[0].extra);
      RunBalances(b1, g1, calls[1..]);
      assert |calls| as real == |calls[1..]| as real + 1.0;
    }
  }

  /** A run keeps the intended rate, capacity plus one grant an interval, exactly if the sleeps it
      asked for are covered by what overflowed on the way, what was missing to the capacity as the
      first call came, and what the bucket still has to give after the last grant. */
  lemma RateLedger(b: Bucket, at: real, calls: seq<Call>)
    requires Sound(b, at) && Serial(b, at, calls) && calls != [] && !b.stampLate
    ensures var first, end := calls[0].now, LastGrant(b, at, calls);
            var elapsed, missing := end - first, b.capacity - Refilled(b, first);
            var left := Credit(AcquireAll(b, calls), end);
            |calls| as real <= b.capacity + elapsed <==>
            TotalAsked(b, calls) <= (TotalLost(b, calls) - Lost(b, first)) + missing + left
  {
    RunBalances(b, at, calls);
  }

  /** The sleeps asked for by all calls but the last. */
  function AskedBefore(b: Bucket, calls: seq<Call>): real
    decreases |calls|
  {
    if |calls| <= 1 then 0.0
    else Asked(b, calls[0].now) + AskedBefore(Acquire(b, calls[0].now, calls[0].extra), calls[1..])
  }

  /** The last sleep is paid for by the credit it leaves; the others are not. */
  lemma {:induction false} LastSleepIsLeft(b: Bucket, at: real, calls: seq<Call>)
    requires Sound(b, at) && Serial(b, at, calls) && calls != [] && !b.stampLate
    ensures TotalAsked(b, calls) <= AskedBefore(b, calls) + Credit(AcquireAll(b, calls), LastGrant(b, at, calls))
    ensures TotalLost(b, calls) >= Lost(b, calls[0].now)
    decreases |calls|
  {
    var b1, g1 := Acquire(b, calls[0].now, calls[0].extra), GrantedAt(b, calls[0].now, calls[0].extra);
    AcquirePays(b, at, calls[0].now, calls[0].extra);
    if |calls| == 1 { assert calls[1..] == []; }
    else {
      LastSleepIsLeft(b1, g1, calls[1..]);
      assert Lost(b1, calls[1..][0].now) >= 0.0;
    }
  }

  /** Grants exceed the intended rate by no more than the sleeps of the calls before the last; in
      particular the intended rate is kept if none of them sleeps. */
  lemma SleepsAreTheExcess(b: Bucket, at: real, calls: seq<Call>)
    requires Sound(b, at) && Serial(b, at, calls) && calls != [] && !b.stampLate
    ensures var elapsed := LastGrant(b, at, calls) - calls[0].now;
            && |calls| as real <= b.capacity + elapsed + AskedBefore(b, calls)
            && (AskedBefore(b, calls) == 0.0 ==> |calls| as real <= b.capacity + elapsed)
  {
    RunBalances(b, at, calls);
    LastSleepIsLeft(b, at, calls);
  }

  // ---------------------------------------------------------------- how far apart calls must arrive

  /** Serial use with a pause: each call but the first arrives at least `gap` after the grant before it. */
  predicate Paused(b: Bucket, at: real, gap: real, calls: seq<Call>)
    decreases |calls|
  {
    calls == []
    || (at <= calls[0].now && 0.0 <= calls[0].extra
        && Paused(Acquire(b, calls[0].now, calls[0].extra), GrantedAt(b, calls[0].now, calls[0].extra) + gap, gap,
                  calls[1..]))
  }

  /** Every run of the code with such pauses keeps the intended rate. */
  ghost predicate KeepsRate(capacity: real, gap: real) {
    forall b: Bucket, at: real, calls: seq<Call> ::
      Sound(b, at) && b.capacity == capacity && !b.stampLate && calls != [] && Paused(b, at, gap, calls) ==>
      |calls| as real <= capacity + (LastGrant(b, at, calls) - calls[0].now)
  }

  lemma {:induction false} PausesAddUp(b: Bucket, at: real, gap: real, calls: seq<Call>)
    requires Sound(b, at) && Paused(b, at, gap, calls) && calls != [] && gap >= 1.0
    ensures LastGrant(b, at, calls) - calls[0].now >= (|calls| - 1) as real
    decreases |calls|
  {
    var b1, g1 := Acquire(b, calls[0].now, calls[0].extra), GrantedAt(b, calls[0].now, calls[0].extra);
    AcquirePays(b, at, calls[0].now, calls[0].extra);
    if |calls| > 1 {
      PausesAddUp(b1, g1 + gap, gap, calls[1..]);
      assert LastGrant(b1, g1, calls[1..]) == LastGrant(b1, g1 + gap, calls[1..]);
    }
  }

  /** The state of a bucket as calls drain it: no call slept yet, and no refill overflows. */
  predicate Draining(b: Bucket, at: real, gap: real) {
    && b.capacity >= 1.0 && 0.0 <= b.tokens && b.tokens <= b.capacity - gap && b.updated == at && !b.stampLate
    && 0.0 <= gap < 1.0
  }

  predicate Exceeds(b: Bucket, at: real, calls: seq<Call>) {
    |calls| as real > b.tokens + (LastGrant(b, at, calls) - at)
  }

  lemma ConsRun(b: Bucket, at: real, gap: real, call: Call, rest: seq<Call>) returns (calls: seq<Call>)
    requires at + gap <= call.now && 0.0 <= call.extra
    requires Paused(Acquire(b, call.now, call.extra), GrantedAt(b, call.now, call.extra) + gap, gap, rest)
    ensures calls == [call] + rest && Paused(b, at + gap, gap, calls)
    ensures LastGrant(b, at, calls) ==
            LastGrant(Acquire(b, call.now, call.extra), GrantedAt(b, call.now, call.extra), rest)
  {
    calls := [call] + rest;
    assert calls[1..] == rest;
  }

  /** An empty bucket makes a call sleep, and pays the next one out of that sleep. */
  lemma SleepPaysTwice(b: Bucket, at: real, gap: real) returns (calls: seq<Call>)
    requires Draining(b, at, gap) && b.tokens + gap < 1.0
    ensures Paused(b, at + gap, gap, calls) && Exceeds(b, at, calls)
  {
    var first := Call(at + gap, 0.0);
    var b1, g1 := Acquire(b, first.now, 0.0), GrantedAt(b, first.now, 0.0);
    assert g1 == at + 1.0 - b.tokens && b1 == b.(tokens := 0.0, updated := at + gap);
    var second := Call(g1 + gap, 0.0);
    assert GrantedAt(b1, second.now, 0.0) == at + 1.0 + gap;
    var one := ConsRun(b1, g1, gap, second, []);
    calls := ConsRun(b, at, gap, first, one);
  }

  /** Calls a short pause apart drain the bucket until one sleeps. */
  lemma {:induction false} DrainThenSleep(b: Bucket, at: real, gap: real, k: nat) returns (calls: seq<Call>)
    requires Draining(b, at, gap) && b.tokens < Times(k, 1.0 - gap)
    ensures Paused(b, at + gap, gap, calls) && Exceeds(b, at, calls)
    decreases k
  {
    if b.tokens + gap < 1.0 { calls := SleepPaysTwice(b, at, gap); }
    else {
      var call := Call(at + gap, 0.0);
      var b1 := Acquire(b, call.now, 0.0);
      assert b1 == b.(tokens := b.tokens + gap - 1.0, updated := at + gap) && GrantedAt(b, call.now, 0.0) == at + gap;
      var rest := DrainThenSleep(b1, at + gap, gap, k - 1);
      calls := ConsRun(b, at, gap, call, rest);
      assert |calls| as real == |rest| as real + 1.0;
    }
  }

  function Times(k: nat, x: real): real {
    if k == 0 then 0.0 else Times(k - 1, x) + x
  }

  lemma {:induction false} TimesIs(k: nat, x: real)
    ensures Times(k, x) == k as real * x
  {
    if k > 0 { TimesIs(k - 1, x); }
  }

  lemma TimesMore(a: real, b: real, x: real)
    requires a < b && 0.0 < x
    ensures a * x < b * x
  {
  }

  lemma Archimedes(limit: real, x: real) returns (k: nat)
    requires 0.0 <= limit && 0.0 < x
    ensures limit < Times(k, x)
  {
    var q := limit / x;
    k := q.Floor + 1;
    TimesIs(k, x);
    TimesMore(q, k as real, x);
  }

  /** A full bucket, and calls the same pause apart. */
  lemma DrainFull(b: Bucket, gap: real) returns (calls: seq<Call>)
    requires b.capacity >= 1.0 && 0.0 <= gap < 1.0
    requires b == Bucket(b.capacity, b.capacity, 0.0, false)
    ensures Sound(b, 0.0) && Paused(b, 0.0, gap, calls) && calls != [] && calls[0].now == 0.0
    ensures Exceeds(b, 0.0, calls)
  {
    var b1 := b.(tokens := b.capacity - 1.0);
    assert Acquire(b, 0.0, 0.0) == b1 && GrantedAt(b, 0.0, 0.0) == 0.0;
    var k := Archimedes(b.capacity, 1.0 - gap);
    var rest := DrainThenSleep(b1, 0.0, gap, k);
    calls := ConsRun(b, -gap, gap, Call(0.0, 0.0), rest);
    assert |calls| as real == |rest| as real + 1.0;
    assert LastGrant(b, 0.0, calls) == LastGrant(b, -gap, calls);
  }

  lemma ShortPausesBreakRate(capacity: real, gap: real)
    requires capacity >= 1.0 && 0.0 <= gap < 1.0
    ensures !KeepsRate(capacity, gap)
  {
    var b := Bucket(capacity, capacity, 0.0, false);
    var calls := DrainFull(b, gap);
    assert |calls| as real > capacity + (LastGrant(b, 0.0, calls) - calls[0].now);
  }

  /** For every capacity: all runs with these pauses keep the intended rate exactly if the pause is a
      full refill interval, the time one token takes. */
  lemma IntendedRateIff(capacity: real, gap: real)
    requires capacity >= 1.0 && 0.0 <= gap
    ensures KeepsRate(capacity, gap) <==> gap >= 1.0
  {
    if gap < 1.0 { ShortPausesBreakRate(capacity, gap); }
    else {
      forall b: Bucket, at: real, calls: seq<Call> |
        Sound(b, at) && b.capacity == capacity && !b.stampLate && calls != [] && Paused(b, at, gap, calls)
        ensures |calls| as real <= capacity + (LastGrant(b, at, calls) - calls[0].now)
      {
        PausesAddUp(b, at, gap, calls);
      }
    }
  }

  // ---------------------------------------------------------------- the code

  /** Seconds to refill intervals. */
  function Intervals(seconds: real, refillPerSec: real): real {
    seconds * refillPerSec
  }

  lemma WaitInIntervals(missing: real, r: real)
    requires r > 0.0
    ensures Intervals(missing / r, r) == missing && (missing >= 0.0 ==> missing / r >= 0.0)
  {
  }

  lemma IntervalsAdd(a: real, b: real, r: real)
    requires r > 0.0
    ensures Intervals(a + b, r) == Intervals(a, r) + Intervals(b, r)
            && Intervals(a - b, r) == Intervals(a, r) - Intervals(b, r)
    ensures a <= b ==> Intervals(a, r) <= Intervals(b, r)
  {
  }

  class Pacer {
    var capacity: real
    var tokens: real
    var refillPerSec: real
    var updated: real

    /** The bucket in refill intervals. */
    function State(): Bucket
      reads this
    {
      Bucket(capacity, tokens, Intervals(updated, refillPerSec), false)
    }

    predicate Valid()
      reads this
    {
      capacity >= 1.0 && refillPerSec == capacity / 60.0
    }

    constructor (ratePerMinute: int, now: real)
      ensures Valid() && capacity == (if ratePerMinute > 1 then ratePerMinute else 1) as real
      ensures tokens == capacity && updated == now
    {
      var c := (if ratePerMinute > 1 then ratePerMinute else 1) as real;
      capacity, tokens, refillPerSec, updated := c, c, c / 60.0, now;
    }

    /** `acquire`, entered at `now`; a sleep lasts `extra` seconds longer than asked. */
    method AcquireOne(now: real, extra: real) returns (granted: real)
      requires Valid() && Sound(State(), Intervals(now, refillPerSec)) && 0.0 <= extra
      modifies this`tokens, this`updated
      ensures Valid() && Sound(State(), Intervals(granted, refillPerSec)) && now <= granted
      ensures State() == Acquire(old(State()), Intervals(now, refillPerSec), Intervals(extra, refillPerSec))
      ensures old(tokens) == 0.0 && old(updated) == now ==> granted == now + 60.0 / capacity + extra
      ensures Intervals(granted, refillPerSec) ==
              GrantedAt(old(State()), Intervals(now, refillPerSec), Intervals(extra, refillPerSec))
    {
      IntervalsAdd(now, updated, refillPerSec);
      var refilled := tokens + Intervals(now - updated, refillPerSec);
      tokens := if refilled < capacity then refilled else capacity;
      updated := now;
      granted := now;
      if tokens < 1.0 {
        var wait := (1.0 - tokens) / refillPerSec;
        WaitInIntervals(1.0 - tokens, refillPerSec);
        IntervalsAdd(now, wait + extra, refillPerSec);
        IntervalsAdd(wait, extra, refillPerSec);
        IntervalsAdd(now, now + wait + extra, refillPerSec);
        granted := now + wait + extra;
        tokens := 0.0;
      } else {
        tokens := tokens - 1.0;
      }
    }
  }
}
