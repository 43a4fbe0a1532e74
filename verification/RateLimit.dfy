/**
 * The fixed-window rate limiter: one Redis counter per scope and subject, incremented by every
 * request, given its expiry by the first. The script runs atomically, so a run is a sequence of
 * hits at non-decreasing times.
 */
module RateLimit {
  import opened Bytes
  import opened Crypto

  /** rate_limit_key: the scope and the digest of the subject. */
  datatype LimitKey = LimitKey(scope: Bytes, subject: Digest)

  /** A stored counter; one without a deadline is a counter that lost its expiry. */
  datatype Counter = Absent | Counting(count: nat, deadline: Option<int>)

  /** The counter as a command at time now sees it. */
  function Seen(c: Counter, now: int): Counter {
    if c.Counting? && c.deadline.Some? && c.deadline.value <= now then Absent else c
  }

  /** The script: INCR, then EXPIRE for a first hit or a counter without expiry. */
  function Hit(c: Counter, window: nat, now: int): Counter {
    var seen := Seen(c, now);
    if seen.Absent? then Counting(1, Some(now + window))
    else Counting(seen.count + 1, if seen.count == 0 || seen.deadline.None? then Some(now + window) else seen.deadline)
  }

  /** The counter after hits at the given times. */
  function After(c: Counter, window: nat, times: seq<int>): Counter {
    if times == [] then c else Hit(After(c, window, times[..|times| - 1]), window, times[|times| - 1])
  }

  /** The i-th hit is let through. */
  predicate Accepted(c: Counter, window: nat, limit: nat, times: seq<int>, i: nat)
    requires i < |times|
  {
    var now := After(c, window, times[..i + 1]);
    now.Counting? && now.count <= limit
  }

  /** How many of the hits at times in [from, until) are let through. */
  function AcceptedIn(c: Counter, window: nat, limit: nat, times: seq<int>, from: int, until: int): nat {
    if times == [] then 0
    else
      var n := |times| - 1;
      AcceptedIn(c, window, limit, times[..n], from, until)
      + (if from <= times[n] < until && Accepted(c, window, limit, times, n) then 1 else 0)
  }

  predicate Ordered(times: seq<int>) {
    forall i, j :: 0 <= i < j < |times| ==> times[i] <= times[j]
  }

  /** No stored deadline lies further ahead than one window. */
  predicate Fresh(c: Counter, window: nat, times: seq<int>) {
    c.Counting? ==> c.count > 0 && (c.deadline.Some? && times != [] ==> c.deadline.value <= times[0] + window)
  }

  function Min(a: int, b: int): int { if a < b then a else b }

  /** What the counter tells about a closed interval [s, s + window], by where its lifetime ends. */
  predicate ClosedSummary(c: Counter, window: nat, limit: nat, s: int, accepted: nat) {
    if c.Absent? || c.deadline.None? || c.deadline.value <= s then accepted == 0
    else if c.deadline.value <= s + window then accepted <= Min(c.count, limit)
    else if c.deadline.value <= s + 2 * window then accepted <= limit + Min(c.count, limit)
    else accepted <= 2 * limit
  }

  /** The same for the half-open interval [s, s + window): a lifetime that began before it spent a hit there. */
  predicate HalfOpenSummary(c: Counter, window: nat, limit: nat, s: int, accepted: nat)
    requires limit > 0
  {
    if c.Absent? || c.deadline.None? || c.deadline.value <= s then accepted == 0
    else if c.deadline.value < s + window then accepted <= Min(c.count, limit) - 1
    else if c.deadline.value < s + 2 * window then accepted <= limit - 1 + Min(c.count, limit)
    else accepted <= 2 * limit - 1
  }

  lemma PrefixFacts(c: Counter, window: nat, limit: nat, times: seq<int>)
    requires times != [] && Ordered(times) && Fresh(c, window, times)
    ensures var n := |times| - 1;
            && Ordered(times[..n]) && Fresh(c, window, times[..n]) && times[..n + 1] == times
            && Accepted(c, window, limit, times, n) == (After(c, window, times).count <= limit)
  {
  }

  /** After any hit the deadline is set, within one window of it, and not yet past unless the window is empty. */
  lemma {:induction false} DeadlineNear(c: Counter, window: nat, times: seq<int>)
    requires Ordered(times) && Fresh(c, window, times) && times != []
    ensures var d := After(c, window, times);
            d.Counting? && d.count > 0 && d.deadline.Some?
              && times[|times| - 1] <= d.deadline.value <= times[|times| - 1] + window
  {
    var n := |times| - 1;
    if n > 0 {
      DeadlineNear(c, window, times[..n]);
    } else {
      assert After(c, window, times[..n]) == c;
    }
  }

  lemma {:induction false} ClosedRun(c: Counter, window: nat, limit: nat, times: seq<int>, s: int)
    requires window > 0 && Ordered(times) && Fresh(c, window, times)
    ensures ClosedSummary(After(c, window, times), window, limit, s,
              AcceptedIn(c, window, limit, times, s, s + window + 1))
  {
    if times != [] {
      var n := |times| - 1;
      PrefixFacts(c, window, limit, times);
      ClosedRun(c, window, limit, times[..n], s);
      if n > 0 {
        DeadlineNear(c, window, times[..n]);
      }
    }
  }

  lemma {:induction false} HalfOpenRun(c: Counter, window: nat, limit: nat, times: seq<int>, s: int)
    requires limit > 0 && window > 0 && Ordered(times) && Fresh(c, window, times)
    ensures HalfOpenSummary(After(c, window, times), window, limit, s,
              AcceptedIn(c, window, limit, times, s, s + window))
  {
    if times != [] {
      var n := |times| - 1;
      PrefixFacts(c, window, limit, times);
      HalfOpenRun(c, window, limit, times[..n], s);
      if n > 0 {
        DeadlineNear(c, window, times[..n]);
      }
    }
  }

  /**
   * In any interval one window long at most twice the limit is let through; one hit fewer when
   * the interval excludes its end.
   */
  lemma WindowBound(c: Counter, window: nat, limit: nat, times: seq<int>, s: int)
    requires window > 0 && Ordered(times) && Fresh(c, window, times)
    ensures AcceptedIn(c, window, limit, times, s, s + window + 1) <= 2 * limit
    ensures limit > 0 ==> AcceptedIn(c, window, limit, times, s, s + window) <= 2 * limit - 1
  {
    ClosedRun(c, window, limit, times, s);
    if limit > 0 {
      HalfOpenRun(c, window, limit, times, s);
    }
  }

  // ---- both bounds are attained ----

  function Repeat(t: int, n: nat): seq<int> { if n == 0 then [] else Repeat(t, n - 1) + [t] }

  /** Hits at one instant t, in a lifetime that lasts beyond it. */
  lemma AfterOneMore(c: Counter, window: nat, times: seq<int>, t: int)
    ensures After(c, window, times + [t]) == Hit(After(c, window, times), window, t)
  {
    assert (times + [t])[..|times|] == times;
  }

  lemma RepeatMore(times: seq<int>, t: int, n: nat)
    ensures times + Repeat(t, n + 1) == times + Repeat(t, n) + [t]
  {
  }

  lemma {:induction false} BurstCounter(c: Counter, window: nat, times: seq<int>, t: int, n: nat, count: nat,
      deadline: int)
    requires After(c, window, times) == Counting(count, Some(deadline)) && count > 0 && deadline > t
    ensures After(c, window, times + Repeat(t, n)) == Counting(count + n, Some(deadline))
  {
    if n == 0 {
      assert times + Repeat(t, 0) == times;
    } else {
      BurstCounter(c, window, times, t, n - 1, count, deadline);
      BurstStep(c, window, times, times + Repeat(t, n - 1), t, n - 1, count + n - 1, deadline);
    }
  }

  lemma BurstStep(c: Counter, window: nat, times: seq<int>, shorter: seq<int>, t: int, n: nat, count: nat,
      deadline: int)
    requires shorter == times + Repeat(t, n) && After(c, window, shorter) == Counting(count, Some(deadline))
             && count > 0 && deadline > t
    ensures After(c, window, times + Repeat(t, n + 1)) == Counting(count + 1, Some(deadline))
  {
    AfterOneMore(c, window, shorter, t);
    RepeatMore(times, t, n);
  }

  lemma {:induction false} Burst(c: Counter, window: nat, limit: nat, times: seq<int>, t: int, n: nat, count: nat,
      deadline: int, from: int, until: int)
    requires After(c, window, times) == Counting(count, Some(deadline)) && count > 0 && deadline > t
             && count + n <= limit
    ensures AcceptedIn(c, window, limit, times + Repeat(t, n), from, until)
            == AcceptedIn(c, window, limit, times, from, until) + (if from <= t < until then n else 0)
  {
    if n == 0 {
      assert times + Repeat(t, 0) == times;
    } else {
      Burst(c, window, limit, times, t, n - 1, count, deadline, from, until);
      BurstCounter(c, window, times, t, n - 1, count, deadline);
      OneMore(c, window, limit, times + Repeat(t, n - 1), t, from, until);
      RepeatMore(times, t, n - 1);
    }
  }

  lemma OneMore(c: Counter, window: nat, limit: nat, times: seq<int>, t: int, from: int, until: int)
    ensures After(c, window, times + [t]) == Hit(After(c, window, times), window, t)
    ensures AcceptedIn(c, window, limit, times + [t], from, until)
            == AcceptedIn(c, window, limit, times, from, until)
              + (if from <= t < until && Hit(After(c, window, times), window, t).count <= limit then 1 else 0)
  {
    assert (times + [t])[..|times|] == times;
    assert (times + [t])[..|times| + 1] == times + [t];
  }

  /** One hit at time 0, the rest of the limit at time first, and a second limit's worth at time window. */
  function TwoBursts(limit: nat, window: nat, first: int): seq<int>
    requires limit > 0
  {
    [0] + Repeat(first, limit - 1) + [window] + Repeat(window, limit - 1)
  }

  lemma {:induction false} RepeatOrdered(times: seq<int>, t: int, n: nat)
    requires Ordered(times) && (forall i :: 0 <= i < |times| ==> times[i] <= t)
    ensures Ordered(times + Repeat(t, n)) && forall i :: 0 <= i < |times + Repeat(t, n)| ==>
              (times + Repeat(t, n))[i] <= t
  {
    if n > 0 {
      RepeatOrdered(times, t, n - 1);
      assert times + Repeat(t, n) == times + Repeat(t, n - 1) + [t];
    } else {
      assert times + Repeat(t, n) == times;
    }
  }

  lemma TwoBurstsOrdered(limit: nat, window: nat, first: int)
    requires limit > 0 && 0 <= first < window
    ensures Ordered(TwoBursts(limit, window, first))
  {
    RepeatOrdered([0], first, limit - 1);
    RepeatOrdered([0] + Repeat(first, limit - 1) + [window], window, limit - 1);
  }

  lemma FirstBurstCounted(limit: nat, window: nat, first: int, from: int, until: int)
    requires limit > 0 && 0 <= first < window
    ensures After(Absent, window, [0] + Repeat(first, limit - 1)) == Counting(limit, Some(window))
    ensures AcceptedIn(Absent, window, limit, [0] + Repeat(first, limit - 1), from, until)
            == (if from <= 0 < until then 1 else 0) + (if from <= first < until then limit - 1 else 0)
  {
    assert [] + [0] == [0];
    OneMore(Absent, window, limit, [], 0, from, until);
    BurstCounter(Absent, window, [0], first, limit - 1, 1, window);
    Burst(Absent, window, limit, [0], first, limit - 1, 1, window, from, until);
  }

  lemma TwoBurstsCounted(limit: nat, window: nat, first: int, from: int, until: int)
    requires limit > 0 && 0 <= first < window
    ensures AcceptedIn(Absent, window, limit, TwoBursts(limit, window, first), from, until)
            == (if from <= 0 < until then 1 else 0) + (if from <= first < until then limit - 1 else 0)
              + (if from <= window < until then limit else 0)
  {
    FirstBurstCounted(limit, window, first, from, until);
    var half := [0] + Repeat(first, limit - 1);
    OneMore(Absent, window, limit, half, window, from, until);
    Burst(Absent, window, limit, half + [window], window, limit - 1, 1, window + window, from, until);
  }

  /** The bounds cannot be lowered: for every limit there are hits that reach them. */
  lemma WindowBoundAttained(limit: nat, window: nat)
    requires limit > 0 && window > 1
    ensures Ordered(TwoBursts(limit, window, 0))
            && AcceptedIn(Absent, window, limit, TwoBursts(limit, window, 0), 0, 0 + window + 1) == 2 * limit
    ensures var late := window - 1;
            Ordered(TwoBursts(limit, window, late))
              && AcceptedIn(Absent, window, limit, TwoBursts(limit, window, late), late, late + window) == 2 * limit - 1
  {
    TwoBurstsOrdered(limit, window, 0);
    TwoBurstsOrdered(limit, window, window - 1);
    TwoBurstsCounted(limit, window, 0, 0, 0 + window + 1);
    TwoBurstsCounted(limit, window, window - 1, window - 1, window - 1 + window);
  }

  // ---- one lifetime ----

  /** The i-th hit finds no counter and starts one. */
  predicate Opens(c: Counter, window: nat, times: seq<int>, i: nat)
    requires i < |times|
  {
    Seen(After(c, window, times[..i]), times[i]).Absent?
  }

  function AcceptedFrom(c: Counter, window: nat, limit: nat, times: seq<int>, i: nat): nat {
    if |times| <= i then 0
    else
      var n := |times| - 1;
      AcceptedFrom(c, window, limit, times[..n], i) + (if Accepted(c, window, limit, times, n) then 1 else 0)
  }

  /** In one counter lifetime exactly the first hits up to the limit are let through. */
  lemma {:induction false} LifetimeExact(c: Counter, window: nat, limit: nat, times: seq<int>, i: nat)
    requires window > 0 && i < |times| && Opens(c, window, times, i)
    requires forall j :: i < j < |times| ==> !Opens(c, window, times, j)
    ensures After(c, window, times).Counting? && After(c, window, times).count == |times| - i
    ensures AcceptedFrom(c, window, limit, times, i) == Min(limit, |times| - i)
  {
    var n := |times| - 1;
    assert times[..n + 1] == times;
    if n > i {
      var before := times[..n];
      assert before[..i] == times[..i];
      forall j | i < j < |before| ensures !Opens(c, window, before, j) {
        assert before[..j] == times[..j];
        assert !Opens(c, window, times, j);
      }
      LifetimeExact(c, window, limit, before, i);
      assert !Opens(c, window, times, n);
    }
  }

  /** The counter after a lifetime's hits still has the deadline of the first. */
  lemma {:induction false} LifetimeDeadline(c: Counter, window: nat, times: seq<int>, i: nat)
    requires window > 0 && i < |times| && Opens(c, window, times, i)
    requires forall j :: i < j < |times| ==> !Opens(c, window, times, j)
    ensures After(c, window, times).Counting? && After(c, window, times).deadline == Some(times[i] + window)
    ensures After(c, window, times).count > 0
  {
    var n := |times| - 1;
    assert times[..n + 1] == times;
    if n > i {
      var before := times[..n];
      assert before[..i] == times[..i];
      forall j | i < j < |before| ensures !Opens(c, window, before, j) {
        assert before[..j] == times[..j];
        assert !Opens(c, window, times, j);
      }
      LifetimeDeadline(c, window, before, i);
      assert !Opens(c, window, times, n);
    }
  }

  /** The window is fixed: a lifetime ends exactly one window after the hit that opened it, however many hits follow. */
  lemma LifetimeLength(c: Counter, window: nat, times: seq<int>, i: nat, n: nat)
    requires window > 0 && i < n < |times| && Opens(c, window, times, i)
    requires forall j :: i < j < n ==> !Opens(c, window, times, j)
    ensures Opens(c, window, times, n) <==> times[n] >= times[i] + window
  {
    var before := times[..n];
    assert before[..i] == times[..i];
    forall j | i < j < |before| ensures !Opens(c, window, before, j) {
      assert before[..j] == times[..j];
      assert !Opens(c, window, times, j);
    }
    LifetimeDeadline(c, window, before, i);
  }

  // ---- all keys ----

  datatype Arrival = Arrival(key: LimitKey, now: int)

  type Counters = map<LimitKey, Counter>

  function Lookup(counters: Counters, key: LimitKey): Counter {
    if key in counters then counters[key] else Absent
  }

  function AfterAll(counters: Counters, windows: LimitKey -> nat, arrivals: seq<Arrival>): Counters {
    if arrivals == [] then counters
    else
      var n := |arrivals| - 1;
      var before := AfterAll(counters, windows, arrivals[..n]);
      before[arrivals[n].key := Hit(Lookup(before, arrivals[n].key), windows(arrivals[n].key), arrivals[n].now)]
  }

  /** The times at which a key is hit. */
  function TimesOf(arrivals: seq<Arrival>, key: LimitKey): seq<int> {
    if arrivals == [] then []
    else
      var n := |arrivals| - 1;
      TimesOf(arrivals[..n], key) + (if arrivals[n].key == key then [arrivals[n].now] else [])
  }

  /** Keys do not disturb each other: a counter is what its own hits make it. */
  lemma {:induction false} KeysIndependent(counters: Counters, windows: LimitKey -> nat, arrivals: seq<Arrival>,
      key: LimitKey)
    ensures Lookup(AfterAll(counters, windows, arrivals), key)
            == After(Lookup(counters, key), windows(key), TimesOf(arrivals, key))
  {
    if arrivals != [] {
      var n := |arrivals| - 1;
      KeysIndependent(counters, windows, arrivals[..n], key);
      if arrivals[n].key == key {
        OneMore(Lookup(counters, key), windows(key), 0, TimesOf(arrivals[..n], key), arrivals[n].now, 0, 0);
      } else {
        assert TimesOf(arrivals, key) == TimesOf(arrivals[..n], key);
      }
    }
  }

  class Limiter {
    var counters: Counters

    constructor ()
      ensures counters == map[]
    {
      counters := map[];
    }

    /** enforce_rate_limit. */
    method Enforce(key: LimitKey, limit: nat, window: nat, now: int) returns (accepted: bool)
      modifies this
      ensures counters == old(counters)[key := Hit(Lookup(old(counters), key), window, now)]
      ensures accepted <==> counters[key].count <= limit
    {
      var seen := Seen(Lookup(counters, key), now);
      var count, deadline := 1, None;
      if seen.Counting? {
        count, deadline := seen.count + 1, seen.deadline;
      }
      if count == 1 || deadline.None? {
        deadline := Some(now + window);
      }
      counters := counters[key := Counting(count, deadline)];
      return count <= limit;
    }
  }
}
