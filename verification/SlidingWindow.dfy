/**
 The per-key sliding-window rate limiter over a Redis sorted set.

 A call runs in two server operations: one atomic transaction (purge, add, count) and, when the
 count is over the limit, a separate removal of its own member. Calls of many clients interleave
 between the two, a reply may be lost, a removal may fail, and the key may expire, which takes the
 whole set with it. Members are fresh per call, so a call's position in the history serves as its
 member.

 Calls are stamped with their client's clock before the transaction runs; the key expires by the
 server's clock.
 */
module SlidingWindow {
  const WINDOW: real := 60.0

  /** Over: counted over the limit, own member not removed yet. Open: let through because the
      server, the reply or the removal failed. */
  datatype Verdict = Admitted | Over | Rejected | Open

  /** `ran`: the transaction took effect on the server. */
  datatype Call = Call(now: real, ran: bool, verdict: Verdict)

  /** The sorted set (call number to score), the history of calls in transaction order, and how many
      calls had been made at each expiry of the key. */
  datatype Limiter = Limiter(zset: map<nat, real>, calls: seq<Call>, expiries: seq<nat>)

  datatype Event =
    | Transact(now: real, replied: bool)   // the transaction ran; without a reply the call fails open
    | Unreachable(now: real)               // the transaction never ran
    | Cleanup(call: nat)                   // the removal ran and its reply arrived
    | CleanupLost(call: nat, removed: bool) // the removal raised, whether or not it took effect
    | Expire                               // the server dropped the key

  const EMPTY := Limiter(map[], [], [])

  function Purge(zset: map<nat, real>, now: real): map<nat, real> {
    map i | i in zset && !(0.0 <= zset[i] <= now - WINDOW) :: zset[i]
  }

  function Limit(limitPerMinute: int): int {
    if limitPerMinute > 1 then limitPerMinute else 1
  }

  /** The transaction of a new call: what the set is afterwards, and the count it returns. */
  function Added(l: Limiter, now: real): map<nat, real> {
    Purge(l.zset, now)[|l.calls| := now]
  }

  function Next(limit: int, l: Limiter, ev: Event): Limiter {
    match ev
    case Transact(now, replied) =>
      var zset := Added(l, now);
      var verdict := if !replied then Open else if |zset| > limit then Over else Admitted;
      l.(zset := zset, calls := l.calls + [Call(now, true, verdict)])
    case Unreachable(now) => l.(calls := l.calls + [Call(now, false, Open)])
    case Cleanup(i) =>
      if i < |l.calls| && l.calls[i].verdict == Over then
        l.(zset := l.zset - {i}, calls := l.calls[i := l.calls[i].(verdict := Rejected)])
      else l
    case CleanupLost(i, removed) =>
      if i < |l.calls| && l.calls[i].verdict == Over then
        l.(zset := if removed then l.zset - {i} else l.zset, calls := l.calls[i := l.calls[i].(verdict := Open)])
      else l
    case Expire => l.(zset := map[], expiries := l.expiries + [|l.calls|])
  }

  function Run(limit: int, l: Limiter, evs: seq<Event>): Limiter
    decreases |evs|
  {
    if evs == [] then l else Run(limit, Next(limit, l, evs[0]), evs[1..])
  }

  /** Later transactions carry timestamps at most `skew` behind any earlier one. */
  predicate Ordered(calls: seq<Call>, skew: real) {
    forall i, j | 0 <= i < j < |calls| && calls[i].ran && calls[j].ran :: calls[i].now - skew <= calls[j].now
  }

  /** Transactions on either side of an expiry carry timestamps at least a window less `skew` apart. */
  predicate Spaced(l: Limiter, skew: real) {
    forall x, i, j | x in l.expiries && 0 <= i < x <= j < |l.calls| && l.calls[i].ran && l.calls[j].ran ::
      l.calls[i].now + WINDOW - skew <= l.calls[j].now
  }

  /** The calls let through by count whose timestamps lie in (from, to]. */
  function AdmittedIn(calls: seq<Call>, from: real, to: real): set<nat> {
    set i | 0 <= i < |calls| && calls[i].verdict == Admitted && from < calls[i].now <= to
  }

  /** The calls let through for want of an answer in (from, to]. */
  function OpenIn(calls: seq<Call>, from: real, to: real): set<nat> {
    set i | 0 <= i < |calls| && calls[i].verdict == Open && from < calls[i].now <= to
  }

  function AllowedIn(calls: seq<Call>, from: real, to: real): set<nat> {
    set i | 0 <= i < |calls| && calls[i].verdict in {Admitted, Open} && from < calls[i].now <= to
  }

  // ---------------------------------------------------------------- what every interleaving keeps

  /** A transaction up to number `k` purges the score of call `i`. */
  predicate PurgedBy(calls: seq<Call>, i: nat, k: nat) {
    i < |calls| && exists j :: i < j <= k && j < |calls| && calls[j].ran && calls[i].now <= calls[j].now - WINDOW
  }

  /** The key expired after call `i` and before or as call `k` was made. */
  predicate ExpiredBy(expiries: seq<nat>, i: nat, k: nat) {
    exists x :: x in expiries && i < x <= k
  }

  predicate Gone(l: Limiter, i: nat, k: nat) {
    PurgedBy(l.calls, i, k) || ExpiredBy(l.expiries, i, k)
  }

  /** The admitted calls up to `k` that no transaction up to `k`, and no expiry before it, took away. */
  function Retained(l: Limiter, k: nat): set<nat> {
    set i | 0 <= i <= k && i < |l.calls| && l.calls[i].verdict == Admitted && !Gone(l, i, k)
  }

  predicate Good(limit: int, l: Limiter) {
    && (forall x | x in l.expiries :: x <= |l.calls|)
    && (forall i | i in l.zset :: i < |l.calls| && l.calls[i].ran && l.calls[i].now == l.zset[i]
                                  && l.calls[i].verdict != Rejected)
    && (forall i | 0 <= i < |l.calls| && l.calls[i].verdict == Admitted ::
          l.calls[i].ran && (i in l.zset || Gone(l, i, |l.calls|)))
    && (forall k | 0 <= k < |l.calls| && l.calls[k].verdict == Admitted :: |Retained(l, k)| <= limit)
    && (forall i | 0 <= i < |l.calls| && !l.calls[i].ran :: l.calls[i].verdict == Open)
  }

  lemma SubsetSize<T>(a: set<T>, b: set<T>)
    requires a <= b
    ensures |a| <= |b|
  {
    assert b == a + (b - a);
  }

  /** The same calls, up to how those not admitted are settled, and then perhaps more. */
  predicate Continues(a: seq<Call>, b: seq<Call>) {
    && |a| <= |b|
    && forall i | 0 <= i < |a| ::
         a[i].now == b[i].now && a[i].ran == b[i].ran && (a[i].verdict == Admitted <==> b[i].verdict == Admitted)
  }

  lemma StillPurged(a: seq<Call>, b: seq<Call>, i: nat, k: nat, k': nat)
    requires Continues(a, b) && k <= k' && PurgedBy(a, i, k)
    ensures PurgedBy(b, i, k')
  {
    var j :| i < j <= k && j < |a| && a[j].ran && a[i].now <= a[j].now - WINDOW;
    assert b[j].ran && b[i].now <= b[j].now - WINDOW;
  }

  lemma StillGone(a: Limiter, b: Limiter, i: nat, k: nat, k': nat)
    requires Continues(a.calls, b.calls) && k <= k' && Gone(a, i, k)
    requires forall x | x in a.expiries :: x in b.expiries
    ensures Gone(b, i, k')
  {
    if PurgedBy(a.calls, i, k) { StillPurged(a.calls, b.calls, i, k, k'); }
  }

  lemma PurgedBefore(a: seq<Call>, b: seq<Call>, i: nat, k: nat)
    requires Continues(a, b) && k < |a| && PurgedBy(b, i, k)
    ensures PurgedBy(a, i, k)
  {
    var j :| i < j <= k && j < |b| && b[j].ran && b[i].now <= b[j].now - WINDOW;
    assert a[j].ran;
  }

  /** What call `k` retained does not depend on later events or on how rejections are settled. */
  lemma RetainedIsStable(a: Limiter, b: Limiter, k: nat)
    requires Continues(a.calls, b.calls) && k < |a.calls|
    requires forall x | x in a.expiries :: x in b.expiries
    requires forall x | x in b.expiries && x <= k :: x in a.expiries
    ensures Retained(a, k) == Retained(b, k)
  {
    forall i | 0 <= i <= k ensures Gone(a, i, k) <==> Gone(b, i, k) {
      if Gone(a, i, k) { StillGone(a, b, i, k, k); }
      if PurgedBy(b.calls, i, k) { PurgedBefore(a.calls, b.calls, i, k); }
    }
  }

  /** An admitted call is still in the set, or gone. */
  lemma TransactKeepsMember(limit: int, l: Limiter, now: real, replied: bool, l': Limiter, i: nat)
    requires Good(limit, l) && l' == Next(limit, l, Transact(now, replied))
    requires i < |l.calls| && l.calls[i].verdict == Admitted && i !in l'.zset
    ensures Gone(l', i, |l.calls|)
  {
    var n := |l.calls|;
    if i in l.zset {
      assert l'.calls[n].ran && l'.calls[i].now <= l'.calls[n].now - WINDOW;
    } else {
      StillGone(l, l', i, n, n);
    }
  }

  /** The calls retained up to the new one are all in the set. */
  lemma NewRetained(l: Limiter, n: nat)
    requires |l.calls| == n + 1 && n in l.zset
    requires forall i | 0 <= i < n && l.calls[i].verdict == Admitted :: i in l.zset || Gone(l, i, n)
    ensures Retained(l, n) <= l.zset.Keys
  {
  }

  lemma TransactKeepsGood(limit: int, l: Limiter, now: real, replied: bool)
    requires Good(limit, l)
    ensures Good(limit, Next(limit, l, Transact(now, replied)))
  {
    var l' := Next(limit, l, Transact(now, replied));
    var n := |l.calls|;
    forall i | 0 <= i < n && l'.calls[i].verdict == Admitted ensures i in l'.zset || Gone(l', i, n) {
      if i !in l'.zset { TransactKeepsMember(limit, l, now, replied, l', i); }
    }
    forall i | 0 <= i < n + 1 && l'.calls[i].verdict == Admitted
      ensures l'.calls[i].ran && (i in l'.zset || Gone(l', i, n + 1))
    {
      if i !in l'.zset { StillGone(l', l', i, n, n + 1); }
    }
    NewRetained(l', n);
    forall k | 0 <= k < |l'.calls| && l'.calls[k].verdict == Admitted ensures |Retained(l', k)| <= limit {
      if k < n { RetainedIsStable(l, l', k); }
      else { SubsetSize(Retained(l', n), l'.zset.Keys); }
    }
  }

  /** A step that only settles a verdict other than Admitted, or appends a call that never ran. */
  lemma SettleKeepsGood(limit: int, l: Limiter, l': Limiter)
    requires Good(limit, l) && Continues(l.calls, l'.calls) && l'.expiries == l.expiries
    requires forall i | |l.calls| <= i < |l'.calls| :: l'.calls[i].verdict != Admitted
    requires forall i | 0 <= i < |l'.calls| && !l'.calls[i].ran :: l'.calls[i].verdict == Open
    requires forall i | i in l'.zset :: i in l.zset && l'.zset[i] == l.zset[i] && l'.calls[i].verdict != Rejected
    requires forall i | i in l.zset && l.calls[i].verdict == Admitted :: i in l'.zset
    ensures Good(limit, l')
  {
    forall i | 0 <= i < |l'.calls| && l'.calls[i].verdict == Admitted
      ensures l'.calls[i].ran && (i in l'.zset || Gone(l', i, |l'.calls|))
    {
      assert l.calls[i].verdict == Admitted;
      if i !in l'.zset { StillGone(l, l', i, |l.calls|, |l'.calls|); }
    }
    forall k | 0 <= k < |l'.calls| && l'.calls[k].verdict == Admitted ensures |Retained(l', k)| <= limit {
      RetainedIsStable(l, l', k);
    }
  }

  lemma ExpireKeepsGood(limit: int, l: Limiter)
    requires Good(limit, l)
    ensures Good(limit, Next(limit, l, Expire))
  {
    var l' := Next(limit, l, Expire);
    assert |l.calls| in l'.expiries;
    forall k | 0 <= k < |l'.calls| && l'.calls[k].verdict == Admitted ensures |Retained(l', k)| <= limit {
      RetainedIsStable(l, l', k);
    }
  }

  lemma NextKeepsGood(limit: int, l: Limiter, ev: Event)
    requires Good(limit, l)
    ensures Good(limit, Next(limit, l, ev))
  {
    match ev
    case Transact(now, replied) => TransactKeepsGood(limit, l, now, replied);
    case Expire => ExpireKeepsGood(limit, l);
    case _ => SettleKeepsGood(limit, l, Next(limit, l, ev));
  }

  lemma {:induction false} RunKeepsGood(limit: int, l: Limiter, evs: seq<Event>)
    requires Good(limit, l)
    ensures Good(limit, Run(limit, l, evs))
    decreases |evs|
  {
    if evs != [] {
      NextKeepsGood(limit, l, evs[0]);
      RunKeepsGood(limit, Next(limit, l, evs[0]), evs[1..]);
    }
  }

  // ---------------------------------------------------------------- safety

  lemma {:induction false} Latest(s: set<nat>) returns (m: nat)
    requires s != {}
    ensures m in s && forall x | x in s :: x <= m
    decreases |s|
  {
    m :| m in s;
    var rest := s - {m};
    if rest != {} {
      var m' := Latest(rest);
      assert forall x | x in s :: x == m || x in rest;
      if m' > m { m := m'; }
    } else {
      assert s == {m};
    }
  }

  /** The clocks are within `skew` of what the limiter relies on, within and across the life of the key. */
  predicate Steady(l: Limiter, skew: real) {
    Ordered(l.calls, skew) && Spaced(l, skew) && 0.0 <= skew
  }

  lemma NotGoneYet(l: Limiter, skew: real, from: real, to: real, i: nat, k: nat)
    requires Steady(l, skew) && i <= k < |l.calls| && l.calls[i].ran && l.calls[k].ran && l.calls[k].now <= to
    requires from < l.calls[i].now && to - from <= WINDOW - skew
    ensures !Gone(l, i, k)
  {
    if PurgedBy(l.calls, i, k) {
      var j :| i < j <= k && j < |l.calls| && l.calls[j].ran && l.calls[i].now <= l.calls[j].now - WINDOW;
      assert false;
    }
  }

  lemma AdmittedAreRetained(limit: int, l: Limiter, skew: real, from: real, to: real, k: nat)
    requires Good(limit, l) && Steady(l, skew) && k < |l.calls| && l.calls[k].ran && l.calls[k].now <= to
    requires to - from <= WINDOW - skew && forall i | i in AdmittedIn(l.calls, from, to) :: i <= k
    ensures AdmittedIn(l.calls, from, to) <= Retained(l, k)
  {
    forall i | i in AdmittedIn(l.calls, from, to) ensures i in Retained(l, k) {
      NotGoneYet(l, skew, from, to, i, k);
    }
  }

  lemma GoodIsSafe(limit: int, l: Limiter, skew: real, from: real, to: real)
    requires Good(limit, l) && Steady(l, skew) && limit >= 0 && to - from <= WINDOW - skew
    ensures |AdmittedIn(l.calls, from, to)| <= limit
  {
    var a := AdmittedIn(l.calls, from, to);
    if a != {} {
      var k := Latest(a);
      AdmittedAreRetained(limit, l, skew, from, to, k);
      SubsetSize(a, Retained(l, k));
    }
  }

  lemma AllowedSplits(calls: seq<Call>, from: real, to: real)
    ensures |AllowedIn(calls, from, to)| == |AdmittedIn(calls, from, to)| + |OpenIn(calls, from, to)|
  {
    var a, o := AdmittedIn(calls, from, to), OpenIn(calls, from, to);
    assert AllowedIn(calls, from, to) == a + o && a !! o;
  }

  /** Whatever the interleaving of transactions, lost replies, removals and expiries: if timestamps run
      backwards by at most `skew`, and advance by a window less `skew` over an expiry, no window
      shortened by `skew` holds more admitted calls than the limit, and beyond those only calls that
      failed open get through. */
  lemma WindowSafety(limitPerMinute: int, evs: seq<Event>, skew: real, from: real, to: real) returns (calls: seq<Call>)
    requires Steady(Run(Limit(limitPerMinute), EMPTY, evs), skew) && to - from <= WINDOW - skew
    ensures calls == Run(Limit(limitPerMinute), EMPTY, evs).calls
    ensures |AdmittedIn(calls, from, to)| <= Limit(limitPerMinute)
    ensures |AllowedIn(calls, from, to)| <= Limit(limitPerMinute) + |OpenIn(calls, from, to)|
  {
    var l := Run(Limit(limitPerMinute), EMPTY, evs);
    calls := l.calls;
    RunKeepsGood(Limit(limitPerMinute), EMPTY, evs);
    GoodIsSafe(Limit(limitPerMinute), l, skew, from, to);
    AllowedSplits(calls, from, to);
  }

  // ---------------------------------------------------------------- the lag between stamp and transaction

  /** A history by the server's clock: each transaction runs at `at`, no more than `lag` after its
      stamp, in order; each expiry comes at `ex`, a window or more after the last transaction before it.
      Any clock that keeps pace with the server's will do, so `lag` is how far stamps scatter around it. */
  predicate TimedBy(l: Limiter, lag: real, at: seq<real>, ex: seq<real>) {
    && |at| == |l.calls| && |ex| == |l.expiries| && 0.0 <= lag
    && (forall i | 0 <= i < |at| && l.calls[i].ran ::
          0.0 <= l.calls[i].now && at[i] - lag <= l.calls[i].now <= at[i])
    && (forall i, j | 0 <= i < j < |at| && l.calls[i].ran && l.calls[j].ran :: at[i] <= at[j])
    && (forall e, i | 0 <= e < |ex| && 0 <= i < |at| && i < l.expiries[e] && l.calls[i].ran ::
          at[i] + WINDOW <= ex[e])
    && (forall e, i | 0 <= e < |ex| && 0 <= i < |at| && l.expiries[e] <= i && l.calls[i].ran :: ex[e] <= at[i])
  }

  lemma TimedIsSteady(l: Limiter, lag: real, at: seq<real>, ex: seq<real>)
    requires TimedBy(l, lag, at, ex)
    ensures Steady(l, lag)
  {
    forall x, i, j | x in l.expiries && 0 <= i < x <= j < |l.calls| && l.calls[i].ran && l.calls[j].ran
      ensures l.calls[i].now + WINDOW - lag <= l.calls[j].now
    {
      var e :| 0 <= e < |l.expiries| && l.expiries[e] == x;
      assert at[i] + WINDOW <= ex[e] <= at[j];
    }
  }

  /** No window of this width, in any run with this lag, holds more admitted calls than the limit. */
  ghost predicate KeepsWindow(limitPerMinute: int, lag: real, width: real) {
    forall evs: seq<Event>, at: seq<real>, ex: seq<real>, from: real, to: real ::
      TimedBy(Run(Limit(limitPerMinute), EMPTY, evs), lag, at, ex) && to - from <= width ==>
      |AdmittedIn(Run(Limit(limitPerMinute), EMPTY, evs).calls, from, to)| <= Limit(limitPerMinute)
  }

  lemma LagKeepsWindow(limitPerMinute: int, lag: real, width: real)
    requires width <= 0.0 || width <= WINDOW - lag
    ensures KeepsWindow(limitPerMinute, lag, width)
  {
    var limit := Limit(limitPerMinute);
    forall evs: seq<Event>, at: seq<real>, ex: seq<real>, from: real, to: real |
      TimedBy(Run(limit, EMPTY, evs), lag, at, ex) && to - from <= width
      ensures |AdmittedIn(Run(limit, EMPTY, evs).calls, from, to)| <= limit
    {
      if from < to {
        TimedIsSteady(Run(limit, EMPTY, evs), lag, at, ex);
        var calls := WindowSafety(limitPerMinute, evs, lag, from, to);
      } else {
        assert AdmittedIn(Run(limit, EMPTY, evs).calls, from, to) == {};
      }
    }
  }

  /** Whatever the limit: with transactions that run up to `lag` after their stamps, exactly the windows
      of up to a minute less `lag` are kept. */
  lemma WindowIff(limitPerMinute: int, lag: real, width: real)
    requires 0.0 <= lag
    ensures KeepsWindow(limitPerMinute, lag, width) <==> width <= 0.0 || width <= WINDOW - lag
  {
    if width <= 0.0 || width <= WINDOW - lag { LagKeepsWindow(limitPerMinute, lag, width); }
    else { LagBreaksWindow(limitPerMinute, lag, width); }
  }

  /** The full window is kept exactly if stamps never lag. */
  lemma FullWindowIff(limitPerMinute: int, lag: real)
    requires 0.0 <= lag
    ensures KeepsWindow(limitPerMinute, lag, WINDOW) <==> lag == 0.0
  {
    WindowIff(limitPerMinute, lag, WINDOW);
  }

  /** The stamp of a call that runs as the key expires, 60 s after calls stamped 1. */
  function LateStamp(lag: real): real {
    if lag < WINDOW then 61.0 - lag else 1.0
  }

  /** `limit` calls stamped 1, the expiry, and one more call. */
  function LateRun(limit: nat, lag: real): seq<Event> {
    Stamped(limit) + [Expire] + [Transact(LateStamp(lag), true)]
  }

  lemma LateRunIs(limit: nat, lag: real) returns (after: Limiter)
    requires limit >= 1
    ensures after == Run(limit, EMPTY, LateRun(limit, lag))
    ensures after.calls == Full(limit).calls + [Call(LateStamp(lag), true, Admitted)] && after.expiries == [limit]
  {
    FullIs(limit);
    var evs, full := FillWindow(limit, limit);
    RunSnoc(limit, EMPTY, Stamped(limit), Expire, full);
    var expired := Limiter(map[], Full(limit).calls, [limit]);
    assert Next(limit, full, Expire) == expired;
    RunSnoc(limit, EMPTY, Stamped(limit) + [Expire], Transact(LateStamp(lag), true), expired);
    after := AddedIs(limit, expired, LateStamp(lag), map[limit := LateStamp(lag)], Admitted);
  }

  lemma LateRunIsTimed(limit: nat, lag: real, after: Limiter) returns (at: seq<real>, ex: seq<real>)
    requires limit >= 1 && 0.0 <= lag && after.expiries == [limit]
    requires after.calls == Full(limit).calls + [Call(LateStamp(lag), true, Admitted)]
    ensures TimedBy(after, lag, at, ex)
  {
    FullIs(limit);
    at, ex := seq(limit, i => 1.0) + [61.0], [61.0];
  }

  lemma LateRunAdmits(limit: nat, calls: seq<Call>, to: real, width: real)
    requires calls == Full(limit).calls + [Call(to, true, Admitted)] && to - width < 1.0 <= to
    ensures |AdmittedIn(calls, to - width, to)| == limit + 1
  {
    FullIs(limit);
    FullIsAdmitted(limit, to - width, to);
    AdmittedSnoc(Full(limit).calls, Call(to, true, Admitted), to - width, to);
    assert limit !in AdmittedIn(Full(limit).calls, to - width, to);
  }

  lemma LagBreaksWindow(limitPerMinute: int, lag: real, width: real)
    requires 0.0 <= lag && 0.0 < width && WINDOW - lag < width
    ensures !KeepsWindow(limitPerMinute, lag, width)
  {
    var limit, to := Limit(limitPerMinute), LateStamp(lag);
    var after := LateRunIs(limit, lag);
    var at, ex := LateRunIsTimed(limit, lag, after);
    LateRunAdmits(limit, after.calls, to, width);
  }

  // ---------------------------------------------------------------- clocks that run backwards, without expiry

  function Stamped(n: nat): seq<Event> {
    if n == 0 then [] else Stamped(n - 1) + [Transact(1.0, true)]
  }

  /** `n` admitted calls stamped 1. */
  function Full(n: nat): Limiter {
    if n == 0 then EMPTY
    else Limiter(Full(n - 1).zset[n - 1 := 1.0], Full(n - 1).calls + [Call(1.0, true, Admitted)], [])
  }

  lemma {:induction false} FullIs(n: nat)
    ensures |Full(n).calls| == n && |Full(n).zset| == n && Full(n).expiries == []
    ensures forall i | i in Full(n).zset :: i < n && Full(n).zset[i] == 1.0
    ensures forall i | 0 <= i < n :: Full(n).calls[i] == Call(1.0, true, Admitted)
  {
    if n > 0 { FullIs(n - 1); }
  }

  lemma {:induction false} RunConcat(limit: int, l: Limiter, a: seq<Event>, b: seq<Event>)
    ensures Run(limit, l, a + b) == Run(limit, Run(limit, l, a), b)
    decreases |a|
  {
    if a == [] { assert a + b == b; }
    else {
      assert (a + b)[0] == a[0] && (a + b)[1..] == a[1..] + b;
      RunConcat(limit, Next(limit, l, a[0]), a[1..], b);
    }
  }

  lemma RunOne(limit: int, l: Limiter, ev: Event)
    ensures Run(limit, l, [ev]) == Next(limit, l, ev)
  {
    assert [ev][1..] == [];
  }

  lemma FillStep(limit: int, n: nat) returns (before: Limiter, after: Limiter)
    requires n < limit
    ensures before == Full(n) && after == Full(n + 1) && after == Next(limit, before, Transact(1.0, true))
  {
    before, after := Full(n), Full(n + 1);
    FullIs(n);
    FullIs(n + 1);
    assert Purge(before.zset, 1.0) == before.zset;
    assert Added(before, 1.0) == after.zset;
  }

  /** The first `limit` calls of a window are admitted. */
  lemma {:induction false} FillWindow(limit: int, n: nat) returns (evs: seq<Event>, l: Limiter)
    requires n <= limit
    ensures evs == Stamped(n) && l == Full(n) && l == Run(limit, EMPTY, evs)
    decreases n
  {
    if n == 0 { evs, l := [], EMPTY; }
    else {
      var first, before := FillWindow(limit, n - 1);
      var same, after := FillStep(limit, n - 1);
      RunSnoc(limit, EMPTY, first, Transact(1.0, true), before);
      evs, l := first + [Transact(1.0, true)], after;
    }
  }

  lemma RunSnoc(limit: int, l: Limiter, evs: seq<Event>, ev: Event, before: Limiter)
    requires before == Run(limit, l, evs)
    ensures Run(limit, l, evs + [ev]) == Next(limit, before, ev)
  {
    RunConcat(limit, l, evs, [ev]);
    RunOne(limit, before, ev);
  }

  /** A call a window later purges them all; one stamped `skew` before it finds room, though its window
      reaches back over all of them. */
  lemma PurgedTooEarly(limit: nat, skew: real) returns (after: Limiter)
    requires limit >= 2 && 0.0 < skew < WINDOW
    ensures after == Next(limit, Next(limit, Full(limit), Transact(61.0, true)), Transact(61.0 - skew, true))
    ensures after.expiries == []
    ensures after.calls == Full(limit).calls + [Call(61.0, true, Admitted), Call(61.0 - skew, true, Admitted)]
  {
    FullIs(limit);
    var later := Next(limit, Full(limit), Transact(61.0, true));
    assert Purge(Full(limit).zset, 61.0) == map[];
    assert later == Limiter(map[limit := 61.0], Full(limit).calls + [Call(61.0, true, Admitted)], []);
    assert Added(later, 61.0 - skew) == map[limit := 61.0, limit + 1 := 61.0 - skew];
    after := Next(limit, later, Transact(61.0 - skew, true));
  }

  /** Of these calls all but the one stamped 61 lie in the full window up to 61 - skew. */
  lemma TooManyInWindow(n: nat, calls: seq<Call>, skew: real)
    requires 0.0 < skew < WINDOW
    requires calls == Full(n).calls + [Call(61.0, true, Admitted), Call(61.0 - skew, true, Admitted)]
    ensures Ordered(calls, skew) && |AdmittedIn(calls, 61.0 - skew - WINDOW, 61.0 - skew)| == n + 1
  {
    FullIs(n);
    FullIsAdmitted(n, 61.0 - skew - WINDOW, 61.0 - skew);
    AllButOne(Full(n).calls, calls, skew, 61.0 - skew - WINDOW, 61.0 - skew);
  }

  lemma AllButOne(full: seq<Call>, calls: seq<Call>, skew: real, from: real, to: real)
    requires 0.0 < skew && to == 61.0 - skew && from < to
    requires calls == full + [Call(61.0, true, Admitted), Call(61.0 - skew, true, Admitted)]
    ensures |AdmittedIn(calls, from, to)| == |AdmittedIn(full, from, to)| + 1
  {
    var late, back := Call(61.0, true, Admitted), Call(61.0 - skew, true, Admitted);
    assert calls == full + [late] + [back];
    AdmittedSnoc(full, late, from, to);
    AdmittedSnoc(full + [late], back, from, to);
    assert |full| + 1 !in AdmittedIn(full, from, to);
  }

  lemma {:induction false} FullIsAdmitted(n: nat, from: real, to: real)
    requires from < 1.0 <= to
    ensures |AdmittedIn(Full(n).calls, from, to)| == n
  {
    if n > 0 {
      FullIs(n - 1);
      FullIsAdmitted(n - 1, from, to);
      AdmittedSnoc(Full(n - 1).calls, Call(1.0, true, Admitted), from, to);
      assert n - 1 !in AdmittedIn(Full(n - 1).calls, from, to);
    }
  }

  lemma ManyTooMany(limit: nat, skew: real) returns (evs: seq<Event>)
    requires limit >= 2 && 0.0 < skew < WINDOW
    ensures Unexpiring(Run(limit, EMPTY, evs), skew)
    ensures |AdmittedIn(Run(limit, EMPTY, evs).calls, 61.0 - skew - WINDOW, 61.0 - skew)| > limit
  {
    var last, back := Transact(61.0, true), Transact(61.0 - skew, true);
    evs := Stamped(limit) + [last] + [back];
    var first, full := FillWindow(limit, limit);
    RunSnoc(limit, EMPTY, Stamped(limit), last, Full(limit));
    RunSnoc(limit, EMPTY, Stamped(limit) + [last], back, Next(limit, Full(limit), last));
    var after := PurgedTooEarly(limit, skew);
    TooManyInWindow(limit, after.calls, skew);
  }

  /** A call that is admitted, one counted over the limit, and one a window after the first. */
  function Late(second: Verdict, third: Verdict): seq<Call> {
    [Call(1.0, true, Admitted), Call(2.0, true, second), Call(61.0, true, third)]
  }

  /** At limit 1 the late call must be held up by one that is not cleaned up yet, so that it leaves no
      member behind. */
  lemma OneTooMany(skew: real) returns (evs: seq<Event>)
    requires 0.0 < skew < WINDOW
    ensures Unexpiring(Run(1, EMPTY, evs), skew)
    ensures |AdmittedIn(Run(1, EMPTY, evs).calls, 61.0 - skew - WINDOW, 61.0 - skew)| > 1
  {
    var held := [Transact(1.0, true), Transact(2.0, true), Transact(61.0, true)] + [Cleanup(1), Cleanup(2)];
    evs := held + [Transact(61.0 - skew, true)];
    var l5 := HeldUpRun(held);
    RunSnoc(1, EMPTY, held, Transact(61.0 - skew, true), l5);
    FreeAgain(l5, skew);
  }

  /** The limiter after the late call was held up and the rejected members were removed. */
  lemma HeldUpRun(evs: seq<Event>) returns (l5: Limiter)
    requires evs == [Transact(1.0, true), Transact(2.0, true), Transact(61.0, true)] + [Cleanup(1), Cleanup(2)]
    ensures l5 == Run(1, EMPTY, evs)
    ensures l5 == Limiter(map[], Late(Rejected, Rejected), [])
  {
    var l3 := HeldUp();
    l5 := Limiter(map[], Late(Rejected, Rejected), []);
    CleanedUp(l3, l5);
    RunThree(1, EMPTY, Transact(1.0, true), Transact(2.0, true), Transact(61.0, true));
    RunTwo(1, l3, Cleanup(1), Cleanup(2));
    RunConcat(1, EMPTY, [Transact(1.0, true), Transact(2.0, true), Transact(61.0, true)], [Cleanup(1), Cleanup(2)]);
  }

  lemma FreeAgain(l5: Limiter, skew: real)
    requires 0.0 < skew < WINDOW
    requires l5 == Limiter(map[], Late(Rejected, Rejected), [])
    ensures Unexpiring(Next(1, l5, Transact(61.0 - skew, true)), skew)
    ensures |AdmittedIn(Next(1, l5, Transact(61.0 - skew, true)).calls, 61.0 - skew - WINDOW, 61.0 - skew)| > 1
  {
    assert Added(l5, 61.0 - skew) == map[3 := 61.0 - skew];
    var calls := Next(1, l5, Transact(61.0 - skew, true)).calls;
    assert calls == l5.calls + [Call(61.0 - skew, true, Admitted)];
    assert AdmittedIn(calls, 61.0 - skew - WINDOW, 61.0 - skew) == {0, 3};
  }

  /** A call's verdict, given the set it leaves. */
  lemma AddedIs(limit: int, l: Limiter, now: real, zset: map<nat, real>, verdict: Verdict) returns (after: Limiter)
    requires Added(l, now) == zset && verdict == if |zset| > limit then Over else Admitted
    ensures after == Next(limit, l, Transact(now, true))
    ensures after == l.(zset := zset, calls := l.calls + [Call(now, true, verdict)])
  {
    after := Next(limit, l, Transact(now, true));
  }

  lemma HeldUpFirst() returns (l: Limiter)
    ensures l == Next(1, EMPTY, Transact(1.0, true)) && l == Limiter(map[0 := 1.0], [Call(1.0, true, Admitted)], [])
  {
    l := AddedIs(1, EMPTY, 1.0, map[0 := 1.0], Admitted);
  }

  lemma HeldUpSecond(l1: Limiter) returns (l: Limiter)
    requires l1 == Limiter(map[0 := 1.0], [Call(1.0, true, Admitted)], [])
    ensures l == Next(1, l1, Transact(2.0, true))
    ensures l == Limiter(map[0 := 1.0, 1 := 2.0], Late(Over, Over)[..2], [])
  {
    l := AddedIs(1, l1, 2.0, map[0 := 1.0, 1 := 2.0], Over);
  }

  lemma HeldUpThird(l2: Limiter) returns (l: Limiter)
    requires l2 == Limiter(map[0 := 1.0, 1 := 2.0], Late(Over, Over)[..2], [])
    ensures l == Next(1, l2, Transact(61.0, true))
    ensures l == Limiter(map[1 := 2.0, 2 := 61.0], Late(Over, Over), [])
  {
    l := AddedIs(1, l2, 61.0, map[1 := 2.0, 2 := 61.0], Over);
  }

  lemma HeldUp() returns (l3: Limiter)
    ensures l3 == Next(1, Next(1, Next(1, EMPTY, Transact(1.0, true)), Transact(2.0, true)), Transact(61.0, true))
    ensures l3 == Limiter(map[1 := 2.0, 2 := 61.0], Late(Over, Over), [])
  {
    var l1 := HeldUpFirst();
    var l2 := HeldUpSecond(l1);
    l3 := HeldUpThird(l2);
  }

  lemma CleanedUp(l3: Limiter, l5: Limiter)
    requires l3 == Limiter(map[1 := 2.0, 2 := 61.0], Late(Over, Over), [])
    requires l5 == Limiter(map[], Late(Rejected, Rejected), [])
    ensures Next(1, Next(1, l3, Cleanup(1)), Cleanup(2)) == l5
  {
    var l4 := Next(1, l3, Cleanup(1));
    assert l4 == Limiter(map[2 := 61.0], Late(Rejected, Over), []);
    assert l4.zset - {2} == map[];
  }

  lemma RunThree(limit: int, l: Limiter, a: Event, b: Event, c: Event)
    ensures Run(limit, l, [a, b, c]) == Next(limit, Next(limit, Next(limit, l, a), b), c)
  {
    RunTwo(limit, Next(limit, l, a), b, c);
    assert [a, b, c][1..] == [b, c];
  }

  /** No full window of any run without expiry, with clocks that run back by at most `skew`, holds more
      admitted calls than the limit. */
  ghost predicate KeepsUnexpired(limitPerMinute: int, skew: real) {
    forall evs: seq<Event>, to: real ::
      Unexpiring(Run(Limit(limitPerMinute), EMPTY, evs), skew) ==>
      InWindow(limitPerMinute, evs, to) <= Limit(limitPerMinute)
  }

  predicate Unexpiring(l: Limiter, skew: real) {
    l.expiries == [] && Ordered(l.calls, skew)
  }

  /** The admitted calls of a run in the full window up to `to`. */
  function InWindow(limitPerMinute: int, evs: seq<Event>, to: real): nat {
    |AdmittedIn(Run(Limit(limitPerMinute), EMPTY, evs).calls, to - WINDOW, to)|
  }

  /** Even if the key never expired, the full window would be kept exactly if clocks never run back. */
  lemma UnexpiredWindowIff(limitPerMinute: int, skew: real)
    requires 0.0 <= skew
    ensures KeepsUnexpired(limitPerMinute, skew) <==> skew == 0.0
  {
    if skew == 0.0 { OrderedKeepsWindow(limitPerMinute); } else { BackwardsClockBreaksWindow(limitPerMinute, skew); }
  }

  lemma OrderedKeepsWindow(limitPerMinute: int)
    ensures KeepsUnexpired(limitPerMinute, 0.0)
  {
    forall evs: seq<Event>, to: real | Unexpiring(Run(Limit(limitPerMinute), EMPTY, evs), 0.0)
      ensures InWindow(limitPerMinute, evs, to) <= Limit(limitPerMinute)
    {
      var calls := WindowSafety(limitPerMinute, evs, 0.0, to - WINDOW, to);
    }
  }

  /** With clocks that run back, however little, some run passes the limit in a full window. */
  lemma BackwardsClockBreaksWindow(limitPerMinute: int, skew: real)
    requires 0.0 < skew
    ensures !KeepsUnexpired(limitPerMinute, skew)
  {
    var limit, back := Limit(limitPerMinute), if skew < 30.0 then skew else 30.0;
    var evs: seq<Event>;
    if limit >= 2 { evs := ManyTooMany(limit, back); } else { evs := OneTooMany(back); }
    var l := Run(limit, EMPTY, evs);
    OrderedByMore(l.calls, back, skew);
    assert Unexpiring(l, skew) && InWindow(limitPerMinute, evs, 61.0 - back) > limit;
  }

  lemma OrderedByMore(calls: seq<Call>, skew: real, more: real)
    requires Ordered(calls, skew) && skew <= more
    ensures Ordered(calls, more)
  {
  }

  // ---------------------------------------------------------------- rejections

  /** What stands in the way of a call stamped `now`: calls that hold a slot inside its window. */
  function Holding(l: Limiter, now: real): set<nat> {
    set i | i in l.zset && now - WINDOW < l.zset[i]
  }

  predicate NonNegative(l: Limiter) {
    forall i | 0 <= i < |l.calls| :: 0.0 <= l.calls[i].now
  }

  /** A call is counted over the limit exactly if `limit` slots of its window are held, each by a
      call that was admitted, is not cleaned up yet, or failed open after its transaction. */
  lemma OverIffHeld(limit: int, l: Limiter, now: real)
    requires Good(limit, l) && NonNegative(l)
    ensures var l' := Next(limit, l, Transact(now, true));
            && (l'.calls[|l.calls|].verdict == Over <==> |Holding(l, now)| >= limit)
            && (forall i | i in Holding(l, now) :: i < |l.calls| && l.calls[i].verdict in {Admitted, Over, Open})
  {
    assert Purge(l.zset, now).Keys == Holding(l, now);
    assert Added(l, now).Keys == Holding(l, now) + {|l.calls|};
    assert |l.calls| !in Holding(l, now);
    assert |Added(l, now)| == |Added(l, now).Keys|;
  }

  /** One call after another: the transaction, and the removal right behind it if needed. */
  function Enforce(limit: int, l: Limiter, now: real): Limiter {
    Next(limit, Next(limit, l, Transact(now, true)), Cleanup(|l.calls|))
  }

  /** The state serial use leads to: the set is exactly the calls admitted in the last minute. */
  predicate Serial(l: Limiter, last: real) {
    && 0.0 <= last
    && (forall i | 0 <= i < |l.calls| :: 0.0 <= l.calls[i].now <= last && l.calls[i].ran
                                         && l.calls[i].verdict in {Admitted, Rejected})
    && l.zset.Keys == AdmittedIn(l.calls, last - WINDOW, last)
    && (forall i | i in l.zset :: l.zset[i] == l.calls[i].now)
  }

  /** The calls admitted in the minute before `now`, with their scores. */
  predicate AreAdmitted(kept: map<nat, real>, calls: seq<Call>, now: real) {
    kept.Keys == AdmittedIn(calls, now - WINDOW, now) && forall i | i in kept :: kept[i] == calls[i].now
  }

  /** What survives the purge of a serial state, and the count the transaction returns. */
  lemma SerialPurge(l: Limiter, last: real, now: real) returns (kept: map<nat, real>)
    requires Serial(l, last) && last <= now
    ensures kept == Purge(l.zset, now) && AreAdmitted(kept, l.calls, now)
    ensures Added(l, now) == kept[|l.calls| := now] && |l.calls| !in kept
    ensures |Added(l, now)| == |AdmittedIn(l.calls, now - WINDOW, now)| + 1
  {
    kept := Purge(l.zset, now);
    assert kept.Keys == AdmittedIn(l.calls, now - WINDOW, now);
    assert Added(l, now).Keys == AdmittedIn(l.calls, now - WINDOW, now) + {|l.calls|};
    assert |Added(l, now)| == |Added(l, now).Keys|;
  }

  /** Run one at a time, a call is rejected if and only if `limit` calls were admitted in the
      minute before it. */
  lemma SerialExactness(limit: int, l: Limiter, last: real, now: real)
    requires Serial(l, last) && last <= now
    ensures var l' := Enforce(limit, l, now);
            && Serial(l', now) && |l'.calls| == |l.calls| + 1 && l'.calls[..|l.calls|] == l.calls
            && l'.calls[|l.calls|].now == now
            && (l'.calls[|l.calls|].verdict == Rejected <==> |AdmittedIn(l.calls, now - WINDOW, now)| >= limit)
  {
    var kept := SerialPurge(l, last, now);
    var n := |l.calls|;
    if |AdmittedIn(l.calls, now - WINDOW, now)| >= limit {
      assert kept[n := now] - {n} == kept;
      SerialRejects(l, last, now, kept, l.(zset := kept, calls := l.calls + [Call(now, true, Rejected)]));
      assert Enforce(limit, l, now) == l.(zset := kept, calls := l.calls + [Call(now, true, Rejected)]);
    } else {
      SerialAdmits(l, last, now, kept, l.(zset := kept[n := now], calls := l.calls + [Call(now, true, Admitted)]));
      assert Enforce(limit, l, now) == l.(zset := kept[n := now], calls := l.calls + [Call(now, true, Admitted)]);
    }
  }

  lemma SerialAdmits(l: Limiter, last: real, now: real, kept: map<nat, real>, l': Limiter)
    requires Serial(l, last) && last <= now && AreAdmitted(kept, l.calls, now)
    requires l'.zset == kept[|l.calls| := now] && l'.calls == l.calls + [Call(now, true, Admitted)]
    ensures Serial(l', now)
  {
    AdmittedSnoc(l.calls, Call(now, true, Admitted), now - WINDOW, now);
  }

  lemma AdmittedSnoc(calls: seq<Call>, call: Call, from: real, to: real)
    ensures AdmittedIn(calls + [call], from, to) ==
            AdmittedIn(calls, from, to) + (if call.verdict == Admitted && from < call.now <= to then {|calls|} else {})
  {
  }

  lemma SerialRejects(l: Limiter, last: real, now: real, kept: map<nat, real>, l': Limiter)
    requires Serial(l, last) && last <= now && AreAdmitted(kept, l.calls, now)
    requires l'.zset == kept && l'.calls == l.calls + [Call(now, true, Rejected)]
    ensures Serial(l', now)
  {
    AdmittedSnoc(l.calls, Call(now, true, Rejected), now - WINDOW, now);
  }

  function EnforceAll(limit: int, l: Limiter, times: seq<real>): Limiter
    decreases |times|
  {
    if times == [] then l else EnforceAll(limit, Enforce(limit, l, times[0]), times[1..])
  }

  /** Serial use stays in the exact states, for any number of calls at non-decreasing times. */
  lemma {:induction false} SerialRun(limit: int, l: Limiter, last: real, times: seq<real>)
    requires Serial(l, last) && forall i, j | 0 <= i < j < |times| :: times[i] <= times[j]
    requires times != [] ==> last <= times[0]
    ensures Serial(EnforceAll(limit, l, times), if times == [] then last else times[|times| - 1])
    decreases |times|
  {
    if times != [] {
      SerialExactness(limit, l, last, times[0]);
      SerialRun(limit, Enforce(limit, l, times[0]), times[0], times[1..]);
    }
  }

  // ---------------------------------------------------------------- when expiry can be observed

  function Unexpired(evs: seq<Event>): seq<Event>
    decreases |evs|
  {
    if evs == [] then []
    else Unexpired(evs[..|evs| - 1]) + (if evs[|evs| - 1].Expire? then [] else [evs[|evs| - 1]])
  }

  lemma UnexpiredSnoc(evs: seq<Event>, ev: Event)
    ensures Unexpired(evs + [ev]) == if ev.Expire? then Unexpired(evs) else Unexpired(evs) + [ev]
  {
    assert (evs + [ev])[..|evs|] == evs;
  }

  /** Stamps that neither precede the epoch nor, over an expiry, come closer than a window. */
  predicate FarApart(l: Limiter) {
    Spaced(l, 0.0) && forall i | 0 <= i < |l.calls| && l.calls[i].ran :: 0.0 <= l.calls[i].now
  }

  /** The same calls, and a set that lacks only members the key expired with. */
  predicate Alike(l: Limiter, e: Limiter) {
    && l.calls == e.calls && (forall i | i in e.zset :: i in l.zset && l.zset[i] == e.zset[i])
    && forall i | i in l.zset && i !in e.zset :: ExpiredBy(e.expiries, i, |e.calls|)
  }

  lemma TransactAlike(limit: int, l: Limiter, e: Limiter, now: real, replied: bool, e': Limiter)
    requires Good(limit, l) && Alike(l, e) && e' == Next(limit, e, Transact(now, replied)) && FarApart(e')
    ensures Purge(l.zset, now) == Purge(e.zset, now)
  {
    forall i | i in l.zset && i !in e.zset ensures 0.0 <= l.zset[i] <= now - WINDOW {
      var x :| x in e.expiries && i < x <= |e.calls|;
      assert e'.calls[i] == l.calls[i] && e'.calls[|e.calls|].ran && x in e'.expiries;
    }
  }

  lemma StepAlike(limit: int, l: Limiter, e: Limiter, ev: Event)
    requires Good(limit, l) && Alike(l, e) && FarApart(Next(limit, e, ev))
    ensures Alike(if ev.Expire? then l else Next(limit, l, ev), Next(limit, e, ev))
  {
    match ev
    case Transact(now, replied) =>
      TransactAlike(limit, l, e, now, replied, Next(limit, e, ev));
      assert Added(l, now) == Added(e, now);
    case Expire => assert |e.calls| in Next(limit, e, ev).expiries;
    case Unreachable(_) =>
      forall i | i in l.zset && i !in e.zset ensures ExpiredBy(e.expiries, i, |e.calls| + 1) {
        var x :| x in e.expiries && i < x <= |e.calls|;
      }
    case _ =>
  }

  lemma FarBefore(limit: int, e: Limiter, ev: Event)
    requires FarApart(Next(limit, e, ev))
    ensures FarApart(e)
  {
    var e' := Next(limit, e, ev);
    assert forall i | 0 <= i < |e.calls| :: e'.calls[i].now == e.calls[i].now && e'.calls[i].ran == e.calls[i].ran;
    assert forall x | x in e.expiries :: x in e'.expiries;
  }

  /** The run with its expiries and the run without them, side by side. */
  lemma {:induction false} ExpiryInvisible(limit: int, evs: seq<Event>) returns (l: Limiter, e: Limiter)
    requires FarApart(Run(limit, EMPTY, evs))
    ensures e == Run(limit, EMPTY, evs) && l == Run(limit, EMPTY, Unexpired(evs)) && Alike(l, e)
    decreases |evs|
  {
    if evs == [] { l, e := EMPTY, EMPTY; }
    else {
      var before, ev := evs[..|evs| - 1], evs[|evs| - 1];
      assert evs == before + [ev];
      UnexpiredSnoc(before, ev);
      RunSnoc(limit, EMPTY, before, ev, Run(limit, EMPTY, before));
      FarBefore(limit, Run(limit, EMPTY, before), ev);
      var l0, e0 := ExpiryInvisible(limit, before);
      RunKeepsGood(limit, EMPTY, Unexpired(before));
      StepAlike(limit, l0, e0, ev);
      RunSnoc(limit, EMPTY, Unexpired(before), ev, l0);
      l, e := if ev.Expire? then l0 else Next(limit, l0, ev), Next(limit, e0, ev);
    }
  }

  /** Every call of every run with this lag gets the verdict it would get if the key never expired. */
  ghost predicate ExpiryHidden(limitPerMinute: int, lag: real) {
    forall evs: seq<Event>, at: seq<real>, ex: seq<real> ::
      TimedBy(Run(Limit(limitPerMinute), EMPTY, evs), lag, at, ex) ==>
      Run(Limit(limitPerMinute), EMPTY, evs).calls == Run(Limit(limitPerMinute), EMPTY, Unexpired(evs)).calls
  }

  lemma NoLagHidesExpiry(limitPerMinute: int)
    ensures ExpiryHidden(limitPerMinute, 0.0)
  {
    var limit := Limit(limitPerMinute);
    forall evs: seq<Event>, at: seq<real>, ex: seq<real> | TimedBy(Run(limit, EMPTY, evs), 0.0, at, ex)
      ensures Run(limit, EMPTY, evs).calls == Run(limit, EMPTY, Unexpired(evs)).calls
    {
      TimedIsSteady(Run(limit, EMPTY, evs), 0.0, at, ex);
      var l, e := ExpiryInvisible(limit, evs);
    }
  }

  lemma {:induction false} StampedUnexpired(n: nat)
    ensures Unexpired(Stamped(n)) == Stamped(n)
  {
    if n > 0 {
      StampedUnexpired(n - 1);
      assert Stamped(n)[..|Stamped(n)| - 1] == Stamped(n - 1);
    }
  }

  lemma FullStays(n: nat, now: real)
    requires now < 61.0
    ensures Purge(Full(n).zset, now) == Full(n).zset && |Full(n).zset[n := now]| == n + 1
  {
    FullIs(n);
  }

  /** Without the expiry the last call of the late run finds the set full. */
  lemma LateIsOver(limit: nat, lag: real) returns (l: Limiter)
    requires limit >= 1 && 0.0 < lag
    ensures l == Run(limit, EMPTY, Unexpired(LateRun(limit, lag)))
    ensures l.calls == Full(limit).calls + [Call(LateStamp(lag), true, Over)]
  {
    var late := Transact(LateStamp(lag), true);
    var evs, full := FillWindow(limit, limit);
    FullIs(limit);
    StampedUnexpired(limit);
    UnexpiredSnoc(Stamped(limit) + [Expire], late);
    UnexpiredSnoc(Stamped(limit), Expire);
    RunSnoc(limit, EMPTY, Stamped(limit), late, full);
    FullStays(limit, LateStamp(lag));
    l := AddedIs(limit, full, LateStamp(lag), full.zset[limit := LateStamp(lag)], Over);
  }

  /** The expiry of the key can be observed exactly if transactions lag behind their stamps. */
  lemma ExpiryHiddenIff(limitPerMinute: int, lag: real)
    requires 0.0 <= lag
    ensures ExpiryHidden(limitPerMinute, lag) <==> lag == 0.0
  {
    if lag == 0.0 { NoLagHidesExpiry(limitPerMinute); }
    else {
      var limit := Limit(limitPerMinute);
      var e := LateRunIs(limit, lag);
      var at, ex := LateRunIsTimed(limit, lag, e);
      var l := LateIsOver(limit, lag);
      FullIs(limit);
      assert l.calls[limit].verdict != e.calls[limit].verdict;
    }
  }

  // ---------------------------------------------------------------- the code

  datatype Weather = Fair | ServerDown | ReplyLost | RemovalFails(removed: bool)

  /** The events one undisturbed call stands for. */
  function EventsOf(l: Limiter, now: real, weather: Weather): seq<Event> {
    match weather
    case Fair => [Transact(now, true), Cleanup(|l.calls|)]
    case ServerDown => [Unreachable(now)]
    case ReplyLost => [Transact(now, false)]
    case RemovalFails(removed) => [Transact(now, true), CleanupLost(|l.calls|, removed)]
  }

  lemma RunTwo(limit: int, l: Limiter, a: Event, b: Event)
    ensures Run(limit, l, [a, b]) == Next(limit, Next(limit, l, a), b)
  {
    assert [a, b][1..] == [b];
    assert Run(limit, Next(limit, l, a), [b]) == Run(limit, Next(limit, Next(limit, l, a), b), []);
  }

  /** The members that a call stamped `now` finds younger than the window. A score before the epoch is not
      among those the purge looks for. */
  function Young(zset: map<nat, real>, now: real): set<nat> {
    set i | i in zset && (now - 60.0 < zset[i] || zset[i] < 0.0)
  }

  /** Only a count that arrives, and a removal that works, can turn a call down. */
  predicate TurnedDown(limitPerMinute: int, zset: map<nat, real>, now: real, weather: Weather) {
    weather == Fair && |Young(zset, now)| >= 1 && |Young(zset, now)| >= limitPerMinute
  }

  /** Whether the call's own member is in the set afterwards. */
  predicate KeepsSlot(limitPerMinute: int, zset: map<nat, real>, now: real, weather: Weather) {
    match weather
    case ServerDown => false
    case ReplyLost => true
    case Fair => |Young(zset, now)| < 1 || |Young(zset, now)| < limitPerMinute
    case RemovalFails(removed) => !removed || |Young(zset, now)| < 1 || |Young(zset, now)| < limitPerMinute
  }

  /** The set after a call: untouched if the server is down, else the young members and perhaps its own. */
  predicate LeftBy(limitPerMinute: int, before: map<nat, real>, member: nat, now: real, weather: Weather,
                   after: map<nat, real>)
  {
    if weather.ServerDown? then after == before
    else
      && after.Keys ==
         Young(before, now) + (if KeepsSlot(limitPerMinute, before, now, weather) then {member} else {})
      && forall i | i in after :: after[i] == if i == member then now else before[i]
  }

  lemma PurgeLeavesYoung(zset: map<nat, real>, member: nat, now: real) returns (kept: map<nat, real>)
    requires member !in zset
    ensures kept == Purge(zset, now) && kept.Keys == Young(zset, now) && member !in kept
    ensures |kept[member := now]| == |Young(zset, now)| + 1 && kept[member := now] - {member} == kept
    ensures forall i | i in kept :: kept[i] == zset[i]
  {
    kept := Purge(zset, now);
    assert kept.Keys == Young(zset, now);
    assert kept[member := now].Keys == Young(zset, now) + {member};
    assert |kept[member := now]| == |kept[member := now].Keys|;
  }

  /** What a call leads to, its transaction having left `added`. */
  lemma CallAdds(limit: int, l: Limiter, now: real, weather: Weather, added: map<nat, real>) returns (after: Limiter)
    requires added == Added(l, now) && |l.calls| in added && !weather.ServerDown?
    ensures after == Run(limit, l, EventsOf(l, now, weather)) && |after.calls| == |l.calls| + 1
    ensures after.calls[|l.calls|].verdict == Rejected <==> weather.Fair? && |added| > limit
    ensures after.zset ==
            if |added| > limit && (weather.Fair? || weather == RemovalFails(true)) then added - {|l.calls|} else added
  {
    var evs := EventsOf(l, now, weather);
    after := Run(limit, l, evs);
    if |evs| == 1 { RunOne(limit, l, evs[0]); assert evs == [evs[0]]; }
    else { RunTwo(limit, l, evs[0], evs[1]); assert evs == [evs[0], evs[1]]; }
  }

  /** How a call fares and what it leaves, for any weather. */
  lemma CallFares(limitPerMinute: int, l: Limiter, now: real, weather: Weather) returns (after: Limiter)
    requires |l.calls| !in l.zset
    ensures after == Run(Limit(limitPerMinute), l, EventsOf(l, now, weather)) && |after.calls| == |l.calls| + 1
    ensures after.calls[|l.calls|].verdict == Rejected <==> TurnedDown(limitPerMinute, l.zset, now, weather)
    ensures LeftBy(limitPerMinute, l.zset, |l.calls|, now, weather, after.zset)
  {
    if weather.ServerDown? { after := PassesUnseen(Limit(limitPerMinute), l, now); }
    else {
      var kept := PurgeLeavesYoung(l.zset, |l.calls|, now);
      after := CallAdds(Limit(limitPerMinute), l, now, weather, kept[|l.calls| := now]);
      SlotIs(limitPerMinute, l.zset, |l.calls|, now, weather, kept, after.zset);
    }
  }

  lemma PassesUnseen(limit: int, l: Limiter, now: real) returns (after: Limiter)
    ensures after == Run(limit, l, [Unreachable(now)]) && |after.calls| == |l.calls| + 1
    ensures after.calls[|l.calls|].verdict != Rejected && after.zset == l.zset
  {
    after := Next(limit, l, Unreachable(now));
    RunOne(limit, l, Unreachable(now));
  }

  lemma SlotIs(limitPerMinute: int, before: map<nat, real>, member: nat, now: real, weather: Weather,
               kept: map<nat, real>, after: map<nat, real>)
    requires !weather.ServerDown? && kept.Keys == Young(before, now) && member !in kept
    requires forall i | i in kept :: kept[i] == before[i]
    requires after == if KeepsSlot(limitPerMinute, before, now, weather) then kept[member := now] else kept
    ensures LeftBy(limitPerMinute, before, member, now, weather, after)
  {
  }

  class KeyLimiter {
    var zset: map<nat, real>
    ghost var calls: seq<Call>
    ghost var expiries: seq<nat>
    var issued: nat

    ghost function State(): Limiter
      reads this
    {
      Limiter(zset, calls, expiries)
    }

    ghost predicate Valid()
      reads this
    {
      issued == |calls| && forall i | i in zset :: i < issued
    }

    constructor ()
      ensures Valid() && State() == EMPTY
    {
      zset, calls, expiries, issued := map[], [], [], 0;
    }

    /** The server drops the key. */
    method Lapse()
      requires Valid()
      modifies this`zset, this`expiries
      ensures Valid() && calls == old(calls) && State() == Next(0, old(State()), Expire)
    {
      zset, expiries := map[], expiries + [|calls|];
    }

    /** The pipeline ZREMRANGEBYSCORE, ZADD, ZCARD, run atomically. */
    method Execute(member: nat, now: real) returns (count: nat)
      modifies this`zset
      ensures zset == Purge(old(zset), now)[member := now] && count == |zset|
    {
      zset := map i | i in zset && !(0.0 <= zset[i] <= now - WINDOW) :: zset[i];
      zset := zset[member := now];
      count := |zset|;
    }

    /** `enforce`, run without interleaving; it lets the call through unless it raises. It does so exactly if
        the weather is fair and as many members as the limit allows, or one, are younger than the window. */
    method EnforceNow(limitPerMinute: int, now: real, weather: Weather) returns (allowed: bool)
      requires Valid()
      modifies this
      ensures Valid() && |calls| == |old(calls)| + 1
      ensures State() == Run(Limit(limitPerMinute), old(State()), EventsOf(old(State()), now, weather))
      ensures allowed <==> calls[|old(calls)|].verdict != Rejected
      ensures allowed <==> !TurnedDown(limitPerMinute, old(zset), now, weather)
      ensures LeftBy(limitPerMinute, old(zset), old(issued), now, weather, zset)
    {
      ghost var after := CallFares(limitPerMinute, State(), now, weather);
      allowed := TakeSlot(if limitPerMinute > 1 then limitPerMinute else 1, now, weather);
      assert State() == after;
    }

    /** The pipeline and what follows its reply. */
    method TakeSlot(limit: int, now: real, weather: Weather) returns (allowed: bool)
      requires Valid()
      modifies this
      ensures Valid() && |calls| == |old(calls)| + 1
      ensures State() == Run(limit, old(State()), EventsOf(old(State()), now, weather))
      ensures allowed <==> calls[|old(calls)|].verdict != Rejected
    {
      var member := issued;
      issued := issued + 1;
      if weather.Fair? || weather.RemovalFails? {
        RunTwo(limit, State(), EventsOf(State(), now, weather)[0], EventsOf(State(), now, weather)[1]);
      }
      if weather.ServerDown? {
        calls := calls + [Call(now, false, Open)];
        return true;
      }
      var count := Execute(member, now);
      if weather.ReplyLost? {
        calls := calls + [Call(now, true, Open)];
        return true;
      }
      if count > limit {
        if weather.RemovalFails? {
          if weather.removed { zset := zset - {member}; }
          calls := calls + [Call(now, true, Open)];
          return true;
        }
        zset := zset - {member};
        calls := calls + [Call(now, true, Rejected)];
        return false;
      }
      calls := calls + [Call(now, true, Admitted)];
      return true;
    }
  }
}
