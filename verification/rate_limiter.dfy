/**
 * The sliding-window rate limiter that spaces out calls to the language
 * model. Time is whole milliseconds: the clock readings before and after a
 * possible sleep are parameters of each call.
 */
module RateLimiting {
  /** The default budget: requests per minute on the free tier. */
  const FreeTierRequestsPerMin: int := 10

  /** The window, 60 seconds. */
  const WindowMs: int := 60000

  /** The half second added to every wait. */
  const MarginMs: int := 500

  /** What `wait_if_needed` returns: the wait in milliseconds, or the `IndexError` of reading an empty deque. */
  datatype Admission = Waited(ms: nat) | IndexError

  /**
   * The eviction loop: timestamps strictly older than `now` minus the window
   * are dropped from the front, one at a time, until the oldest is recent.
   */
  function Evict(ts: seq<int>, now: int): (r: seq<int>)
    ensures |r| <= |ts| && r == ts[|ts| - |r|..]
    ensures forall i :: 0 <= i < |ts| - |r| ==> ts[i] < now - WindowMs
    ensures r == [] || r[0] >= now - WindowMs
  {
    if ts != [] && ts[0] < now - WindowMs then Evict(ts[1..], now) else ts
  }

  /**
   * The wait once the window holds `window`: none while fewer than `maxRpm`
   * requests are in it, otherwise until the oldest is 60.5 seconds old.
   * Reading the oldest of an empty window fails.
   */
  function Admit(window: seq<int>, maxRpm: int, now: int): (r: Admission)
    ensures r.IndexError? <==> window == [] && maxRpm <= 0
    ensures |window| < maxRpm ==> r == Waited(0)
    ensures r.Waited? && |window| >= maxRpm ==>
              && now + r.ms >= window[0] + WindowMs + MarginMs
              && (r.ms > 0 ==> now + r.ms == window[0] + WindowMs + MarginMs)
  {
    if |window| < maxRpm then Waited(0)
    else if window == [] then IndexError
    else
      var sleep := WindowMs - (now - window[0]) + MarginMs;
      Waited(if sleep > 0 then sleep else 0)
  }

  class RateLimiter {
    const maxRpm: int
    var timestamps: seq<int>

    /** `RateLimiter(max_requests_per_minute)`: an empty history. */
    constructor (maxRequestsPerMinute: int)
      ensures maxRpm == maxRequestsPerMinute && timestamps == []
    {
      maxRpm := maxRequestsPerMinute;
      timestamps := [];
    }

    /** `RateLimiter()`: the free-tier budget. */
    constructor Default()
      ensures maxRpm == FreeTierRequestsPerMin && timestamps == []
    {
      maxRpm := FreeTierRequestsPerMin;
      timestamps := [];
    }

    /**
     * `wait_if_needed`, the clock reading `now` on entry and `afterSleep`
     * after the wait: evict, decide the wait, append the second reading.
     * The `IndexError` leaves the eviction done and appends nothing.
     */
    method WaitIfNeeded(now: int, afterSleep: int) returns (outcome: Admission)
      modifies this
      ensures outcome == Admit(Evict(old(timestamps), now), maxRpm, now)
      ensures outcome.Waited? ==> timestamps == Evict(old(timestamps), now) + [afterSleep]
      ensures outcome.IndexError? ==> timestamps == Evict(old(timestamps), now)
    {
      while timestamps != [] && timestamps[0] < now - WindowMs
        invariant Evict(timestamps, now) == Evict(old(timestamps), now)
        decreases |timestamps|
      {
        timestamps := timestamps[1..];
      }
      var waited := 0;
      if |timestamps| >= maxRpm {
        if timestamps == [] {
          return IndexError;
        }
        var sleepTime := WindowMs - (now - timestamps[0]) + MarginMs;
        if sleepTime > 0 {
          waited := sleepTime;
        }
      }
      timestamps := timestamps + [afterSleep];
      outcome := Waited(waited);
    }
  }

  predicate Sorted(ts: seq<int>) {
    forall i, j :: 0 <= i <= j < |ts| ==> ts[i] <= ts[j]
  }

  /** How many of `xs` are at or after `lo`. */
  function CountAtLeast(xs: seq<int>, lo: int): (n: nat)
    ensures n <= |xs|
  {
    if xs == [] then 0
    else CountAtLeast(xs[..|xs| - 1], lo) + (if xs[|xs| - 1] >= lo then 1 else 0)
  }

  /** Counting splits over a concatenation. */
  lemma {:induction false} CountConcat(a: seq<int>, b: seq<int>, lo: int)
    ensures CountAtLeast(a + b, lo) == CountAtLeast(a, lo) + CountAtLeast(b, lo)
    decreases |b|
  {
    if b == [] {
      assert a + b == a;
    } else {
      assert (a + b)[..|a + b| - 1] == a + b[..|b| - 1];
      CountConcat(a, b[..|b| - 1], lo);
    }
  }

  /** Every element at or after `lo` is counted. */
  lemma {:induction false} CountAll(xs: seq<int>, lo: int)
    requires forall i :: 0 <= i < |xs| ==> xs[i] >= lo
    ensures CountAtLeast(xs, lo) == |xs|
  {
    if xs != [] {
      CountAll(xs[..|xs| - 1], lo);
    }
  }

  /** A later bound counts no more, and one less when it passes the first element. */
  lemma {:induction false} CountLater(xs: seq<int>, lo: int, hi: int)
    requires lo <= hi
    ensures CountAtLeast(xs, hi) <= CountAtLeast(xs, lo)
    ensures xs != [] && lo <= xs[0] < hi ==> CountAtLeast(xs, hi) + 1 <= CountAtLeast(xs, lo)
    decreases |xs|
  {
    if xs != [] {
      CountLater(xs[..|xs| - 1], lo, hi);
      if |xs| == 1 {
        assert xs[..0] == [];
      } else {
        assert xs[..|xs| - 1][0] == xs[0];
      }
    }
  }

  /**
   * The admission bound: for every recorded request, at most `maxRpm`
   * requests, itself included, were recorded in the 60 seconds up to it.
   */
  ghost predicate WindowBound(ts: seq<int>, maxRpm: int) {
    forall j :: 0 <= j < |ts| ==> WindowCount(ts, j) <= maxRpm
  }

  /** How many requests up to the `j`-th were recorded in the 60 seconds up to it. */
  ghost function WindowCount(ts: seq<int>, j: int): nat
    requires 0 <= j < |ts|
  {
    CountAtLeast(ts[..j + 1], ts[j] - WindowMs)
  }

  /** A request exactly 60 seconds old is kept; only strictly older ones go. */
  lemma EvictKeepsBoundary(t: int, rest: seq<int>, now: int)
    requires t == now - WindowMs
    ensures Evict([t] + rest, now) == [t] + rest
  {
  }

  /**
   * Under the bound, the requests from `k` on are at most `maxRpm` when the
   * one at `k` is within the window of the last.
   */
  lemma RecentWithinBudget(ts: seq<int>, k: nat, maxRpm: int)
    requires Sorted(ts) && WindowBound(ts, maxRpm)
    requires k < |ts| && ts[k] >= ts[|ts| - 1] - WindowMs
    ensures |ts| - k <= maxRpm
  {
    var n := |ts|;
    var lo := ts[n - 1] - WindowMs;
    var recent := ts[k..];
    forall i | 0 <= i < |recent|
      ensures recent[i] >= lo
    {
      assert recent[i] == ts[k + i];
    }
    CountAll(recent, lo);
    assert ts[..n] == ts[..k] + recent;
    CountConcat(ts[..k], recent, lo);
    assert WindowCount(ts, n - 1) <= maxRpm;
  }

  /** Under the bound, eviction leaves at most `maxRpm` requests when the clock has not gone back. */
  lemma EvictWithinBudget(ts: seq<int>, maxRpm: int, now: int)
    requires maxRpm >= 1
    requires Sorted(ts) && WindowBound(ts, maxRpm)
    requires ts != [] ==> ts[|ts| - 1] <= now
    ensures |Evict(ts, now)| <= maxRpm
  {
    var e := Evict(ts, now);
    if e != [] {
      assert ts[|ts| - |e|] == e[0];
      RecentWithinBudget(ts, |ts| - |e|, maxRpm);
    }
  }

  /** A suffix of a sorted history, with a request no earlier than the last appended, is sorted. */
  lemma SortedSuffixSnoc(ts: seq<int>, k: nat, t: int)
    requires Sorted(ts) && k <= |ts| && (ts != [] ==> ts[|ts| - 1] <= t)
    ensures Sorted(ts[k..] + [t])
  {
    var next := ts[k..] + [t];
    forall i, j | 0 <= i <= j < |next|
      ensures next[i] <= next[j]
    {
      if j < |next| - 1 {
        assert next[i] == ts[k + i] && next[j] == ts[k + j];
      } else if i < |next| - 1 {
        assert next[i] == ts[k + i] && ts[k + i] <= ts[|ts| - 1];
      }
    }
  }

  /** A sorted history stays sorted when the clock does not go back. */
  lemma SortedStep(ts: seq<int>, now: int, afterSleep: int)
    requires Sorted(ts) && (ts != [] ==> ts[|ts| - 1] <= now) && now <= afterSleep
    ensures Sorted(Evict(ts, now) + [afterSleep])
  {
    SortedSuffixSnoc(ts, |ts| - |Evict(ts, now)|, afterSleep);
  }

  /** Dropping the oldest requests keeps the bound. */
  lemma SuffixKeepsBound(ts: seq<int>, k: nat, maxRpm: int)
    requires WindowBound(ts, maxRpm) && k <= |ts|
    ensures WindowBound(ts[k..], maxRpm)
  {
    var r := ts[k..];
    forall j | 0 <= j < |r|
      ensures WindowCount(r, j) <= maxRpm
    {
      assert WindowCount(ts, k + j) <= maxRpm;
      var lo := ts[k + j] - WindowMs;
      assert ts[..(k + j) + 1] == ts[..k] + r[..j + 1];
      CountConcat(ts[..k], r[..j + 1], lo);
    }
  }

  /** Appending a request whose own window is within budget keeps the bound. */
  lemma SnocKeepsBound(r: seq<int>, t: int, maxRpm: int)
    requires WindowBound(r, maxRpm) && CountAtLeast(r + [t], t - WindowMs) <= maxRpm
    ensures WindowBound(r + [t], maxRpm)
  {
    var next := r + [t];
    forall j | 0 <= j < |r|
      ensures WindowCount(next, j) <= maxRpm
    {
      assert next[..j + 1] == r[..j + 1];
      assert WindowCount(r, j) <= maxRpm;
    }
    assert next[..|r| + 1] == next;
    assert WindowCount(next, |r|) <= maxRpm;
  }

  /**
   * The window of a request appended after the recent requests `ts[k..]`:
   * within budget when, with the window full, the new request comes more
   * than 60 seconds after the oldest recent one.
   */
  lemma AppendedWindow(ts: seq<int>, k: nat, maxRpm: int, now: int, t: int)
    requires maxRpm >= 1 && Sorted(ts) && WindowBound(ts, maxRpm)
    requires k <= |ts| && (ts != [] ==> ts[|ts| - 1] <= now)
    requires k < |ts| ==> ts[k] >= now - WindowMs
    requires |ts| - k >= maxRpm ==> t > ts[k] + WindowMs && t >= now
    ensures CountAtLeast(ts[k..] + [t], t - WindowMs) <= maxRpm
  {
    var r := ts[k..];
    var lo := t - WindowMs;
    assert (r + [t])[..|r|] == r;
    if |r| >= maxRpm {
      var n := |ts|;
      var last := ts[n - 1];
      // The oldest recent request is inside the window of the last one but
      // outside the window of the new one.
      assert r[0] == ts[k];
      CountLater(r, last - WindowMs, lo);
      assert ts[..n] == ts[..k] + r;
      CountConcat(ts[..k], r, last - WindowMs);
      assert WindowCount(ts, n - 1) <= maxRpm;
    }
  }

  /**
   * One call keeps the admission bound when the clock does not go back and
   * the sleep lasts at least the wait: the history stays sorted, every
   * request has at most `maxRpm` requests in the 60 seconds up to it, and
   * the history never exceeds `maxRpm + 1` entries.
   */
  lemma AdmissionStep(ts: seq<int>, maxRpm: int, now: int, afterSleep: int)
    requires maxRpm >= 1
    requires Sorted(ts) && WindowBound(ts, maxRpm)
    requires ts != [] ==> ts[|ts| - 1] <= now
    requires afterSleep >= now + Admit(Evict(ts, now), maxRpm, now).ms
    ensures Sorted(Evict(ts, now) + [afterSleep])
    ensures WindowBound(Evict(ts, now) + [afterSleep], maxRpm)
    ensures |Evict(ts, now) + [afterSleep]| <= maxRpm + 1
  {
    var e := Evict(ts, now);
    var k := |ts| - |e|;
    EvictWithinBudget(ts, maxRpm, now);
    SortedStep(ts, now, afterSleep);
    SuffixKeepsBound(ts, k, maxRpm);
    if e != [] {
      assert ts[k] == e[0];
    }
    AppendedWindow(ts, k, maxRpm, now, afterSleep);
    SnocKeepsBound(e, afterSleep, maxRpm);
  }

  /**
   * Ten requests at time 0 and a call 5 seconds later with the default
   * budget: the call waits 55.5 seconds, so the eleventh request is recorded
   * no earlier than 60.5 seconds.
   */
  lemma TenRequestsAtOnce(ts: seq<int>)
    requires |ts| == 10 && forall i :: 0 <= i < 10 ==> ts[i] == 0
    ensures Evict(ts, 5000) == ts
    ensures Admit(Evict(ts, 5000), FreeTierRequestsPerMin, 5000) == Waited(55500)
  {
  }
}
