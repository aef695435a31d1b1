/**
 Fixed-window rate limiting (src/rate-limit.ts, src/store-d1.ts:641-663). The stored bucket is claimed
 by one UPSERT that counts the attempt whether or not it is then allowed.
 */
module RateLimit {
  import opened Wrappers

  datatype Bucket = Bucket(count: int, start: int)

  datatype Decision = Decision(allowed: bool, count: int, start: int, retryAfter: int)

  /** The UPSERT: a window at least `window` seconds old rolls over to this attempt. */
  function Claim(b: Option<Bucket>, now: int, window: int): Bucket {
    if b.None? || now - b.value.start >= window then Bucket(1, now)
    else Bucket(b.value.count + 1, b.value.start)
  }

  /** What checkRateLimit reports for the bucket its claim returned. */
  function Report(row: Bucket, now: int, limit: int, window: int): Decision {
    Decision(row.count <= limit, row.count, row.start, Max(1, window - (now - row.start)))
  }

  function Check(b: Option<Bucket>, now: int, limit: int, window: int): Decision {
    Report(Claim(b, now, window), now, limit, window)
  }

  /** The stand-alone decision function. */
  function Decide(now: int, b: Option<Bucket>, limit: int, window: int): Decision {
    if b.None? || now - b.value.start >= window then Decision(true, 1, now, window)
    else
      var next := b.value.count + 1;
      Decision(next <= limit, next, b.value.start, Max(1, window - (now - b.value.start)))
  }

  predicate Rolls(b: Option<Bucket>, now: int, window: int) {
    b.None? || now - b.value.start >= window
  }

  /** Claim-and-report is the pure decision, except that a rolling claim ignores a limit below one. */
  lemma CheckRefinesDecideExactlyWhen(b: Option<Bucket>, now: int, limit: int, window: int)
    ensures Check(b, now, limit, window) == Decide(now, b, limit, window)
       <==> !Rolls(b, now, window) || (limit >= 1 && window >= 1)
  {
  }

  /** The attempt opens a window when none is open and counts in it otherwise, and is told how long that window still runs. */
  lemma CheckExactly(b: Option<Bucket>, now: int, limit: int, window: int)
    ensures var d := Check(b, now, limit, window);
      var opens := b.None? || b.value.start + window <= now;
      && (opens ==> d.count == 1 && d.start == now) && (!opens ==> d.count == b.value.count + 1 && d.start == b.value.start)
      && (d.allowed <==> d.count <= limit)
      && d.retryAfter == (if d.start + window - now < 1 then 1 else d.start + window - now)
  {
  }

  // ---- a stream of attempts on one bucket ----

  predicate NonDecreasing(times: seq<int>) {
    forall i, j :: 0 <= i < j < |times| ==> times[i] <= times[j]
  }

  predicate AllFrom(times: seq<int>, lo: int) { forall i :: 0 <= i < |times| ==> times[i] >= lo }

  function After(b: Option<Bucket>, times: seq<int>, window: int): Option<Bucket>
    decreases |times|
  {
    if times == [] then b else After(Some(Claim(b, times[0], window)), times[1..], window)
  }

  /** How many of the attempts made in [lo, hi) were allowed. */
  function AllowedIn(b: Option<Bucket>, times: seq<int>, lo: int, hi: int, limit: int, window: int): nat
    decreases |times|
  {
    if times == [] then 0
    else
      var row := Claim(b, times[0], window);
      (if Report(row, times[0], limit, window).allowed && lo <= times[0] < hi then 1 else 0)
      + AllowedIn(Some(row), times[1..], lo, hi, limit, window)
  }

  /** Attempts the bucket may still allow before its window rolls. */
  function Room(b: Bucket, limit: int): int { Max(0, limit - b.count) }

  lemma {:induction false} NoneBeyond(b: Option<Bucket>, times: seq<int>, lo: int, hi: int, limit: int, window: int)
    requires AllFrom(times, hi)
    ensures AllowedIn(b, times, lo, hi, limit, window) == 0
    decreases |times|
  {
    if times != [] { NoneBeyond(Some(Claim(b, times[0], window)), times[1..], lo, hi, limit, window); }
  }

  /** Once a window has opened inside the interval, the next one opens beyond it. */
  lemma {:induction false} OneWindowLeft(b: Bucket, times: seq<int>, lo: int, hi: int, limit: int, window: int)
    requires NonDecreasing(times) && AllFrom(times, b.start) && window >= 1
    requires hi - lo <= window && b.start >= lo
    ensures AllowedIn(Some(b), times, lo, hi, limit, window) <= Room(b, limit)
    decreases |times|
  {
    if times != [] {
      var next := Claim(Some(b), times[0], window);
      if Rolls(Some(b), times[0], window) {
        NoneBeyond(Some(next), times[1..], lo, hi, limit, window);
      } else {
        OneWindowLeft(next, times[1..], lo, hi, limit, window);
      }
    }
  }

  /** Inside the interval: what the current window still allows, then one whole window. */
  lemma {:induction false} TwoWindowsLeft(b: Bucket, times: seq<int>, lo: int, hi: int, limit: int, window: int)
    requires NonDecreasing(times) && AllFrom(times, b.start) && AllFrom(times, lo) && window >= 1
    requires hi - lo <= window && limit >= 1
    ensures AllowedIn(Some(b), times, lo, hi, limit, window) <= Room(b, limit) + limit
    decreases |times|
  {
    if times != [] {
      var next := Claim(Some(b), times[0], window);
      if Rolls(Some(b), times[0], window) {
        OneWindowLeft(next, times[1..], lo, hi, limit, window);
      } else {
        TwoWindowsLeft(next, times[1..], lo, hi, limit, window);
      }
    }
  }

  lemma {:induction false} SkipToInterval(b: Option<Bucket>, times: seq<int>, lo: int, hi: int, limit: int, window: int)
    requires NonDecreasing(times) && window >= 1 && hi - lo <= window && limit >= 1
    requires b.Some? ==> b.value.count >= 1 && AllFrom(times, b.value.start)
    ensures AllowedIn(b, times, lo, hi, limit, window) <= 2 * limit - 1
    decreases |times|
  {
    if times != [] {
      var next := Claim(b, times[0], window);
      if times[0] < lo {
        SkipToInterval(Some(next), times[1..], lo, hi, limit, window);
      } else if b.Some? {
        TwoWindowsLeft(b.value, times, lo, hi, limit, window);
      } else {
        OneWindowLeft(next, times[1..], lo, hi, limit, window);
      }
    }
  }

  /** With a one-second window every earlier window has closed by the interval's only instant. */
  lemma {:induction false} SkipToInstant(b: Option<Bucket>, times: seq<int>, lo: int, limit: int)
    requires NonDecreasing(times) && limit >= 1
    requires b.Some? ==> b.value.start < lo && AllFrom(times, b.value.start)
    ensures AllowedIn(b, times, lo, lo + 1, limit, 1) <= limit
    decreases |times|
  {
    if times != [] {
      var next := Claim(b, times[0], 1);
      if times[0] < lo {
        SkipToInstant(Some(next), times[1..], lo, limit);
      } else {
        OneWindowLeft(next, times[1..], lo, lo + 1, limit, 1);
      }
    }
  }

  /** The most attempts one window-length interval can allow. */
  function MaxBurst(limit: int, window: int): int { if window == 1 then limit else 2 * limit - 1 }

  /**
   Over any nondecreasing stream of attempts, any window-length interval allows fewer than twice the
   limit: the attempt that opened the earlier window fell before the interval. A one-second window
   allows the limit only.
   */
  lemma BurstBound(times: seq<int>, lo: int, limit: int, window: int)
    requires NonDecreasing(times) && limit >= 1 && window >= 1
    ensures AllowedIn(None, times, lo, lo + window, limit, window) <= MaxBurst(limit, window)
  {
    if window == 1 {
      SkipToInstant(None, times, lo, limit);
    } else {
      SkipToInterval(None, times, lo, lo + window, limit, window);
    }
  }

  /** One attempt opens a window, the rest of its limit comes at its last second, a whole limit right after. */
  function WorstStream(limit: nat, window: nat): seq<int>
    requires limit >= 1 && window >= 1
  {
    if window == 1 then [0] + Copies<int>(0, limit - 1)
    else [0] + (Copies<int>(window - 1, limit - 1) + ([window] + Copies<int>(window, limit - 1)))
  }

  /** Where its worst interval begins. */
  function WorstFrom(window: nat): int { if window == 1 then 0 else 1 }

  lemma {:induction false} CopiesAreAllowed(b: Bucket, t: int, n: nat, rest: seq<int>, lo: int, hi: int, limit: int, window: int)
    requires t - b.start < window && b.count + n <= limit && lo <= t < hi
    ensures AllowedIn(Some(b), Copies<int>(t, n) + rest, lo, hi, limit, window)
         == n + AllowedIn(Some(Bucket(b.count + n, b.start)), rest, lo, hi, limit, window)
    decreases n
  {
    if n == 0 {
      assert Copies<int>(t, n) + rest == rest;
    } else {
      CopiesAreAllowed(Bucket(b.count + 1, b.start), t, n - 1, rest, lo, hi, limit, window);
      assert (Copies<int>(t, n) + rest)[1..] == Copies<int>(t, n - 1) + rest;
    }
  }

  /** An attempt that opens a window is the first of its limit. */
  lemma OpensWindow(b: Option<Bucket>, t: int, rest: seq<int>, lo: int, hi: int, limit: int, window: int)
    requires Rolls(b, t, window) && limit >= 1
    ensures AllowedIn(b, [t] + rest, lo, hi, limit, window)
         == (if lo <= t < hi then 1 else 0) + AllowedIn(Some(Bucket(1, t)), rest, lo, hi, limit, window)
  {
    assert ([t] + rest)[1..] == rest;
  }

  lemma NothingMore(b: Bucket, lo: int, hi: int, limit: int, window: int)
    ensures AllowedIn(Some(b), [], lo, hi, limit, window) == 0
  {
  }

  lemma WorstStreamAscends(limit: nat, window: nat)
    requires limit >= 1 && window >= 1
    ensures NonDecreasing(WorstStream(limit, window))
  {
  }

  /** The bound is the maximum: for every limit and window some stream attains it. */
  lemma BurstBoundIsTight(limit: nat, window: nat)
    requires limit >= 1 && window >= 1
    ensures NonDecreasing(WorstStream(limit, window))
    ensures var lo := WorstFrom(window);
      AllowedIn(None, WorstStream(limit, window), lo, lo + window, limit, window) == MaxBurst(limit, window)
  {
    hide AllowedIn, Copies, NonDecreasing;
    WorstStreamAscends(limit, window);
    var lo := WorstFrom(window);
    var hi := lo + window;
    if window == 1 {
      var more := Copies<int>(0, limit - 1);
      assert more + [] == more;
      OpensWindow(None, 0, more, lo, hi, limit, window);
      CopiesAreAllowed(Bucket(1, 0), 0, limit - 1, [], lo, hi, limit, window);
      NothingMore(Bucket(limit, 0), lo, hi, limit, window);
    } else {
      var early, more := Copies<int>(window - 1, limit - 1), Copies<int>(window, limit - 1);
      assert more + [] == more;
      OpensWindow(None, 0, early + ([window] + more), lo, hi, limit, window);
      CopiesAreAllowed(Bucket(1, 0), window - 1, limit - 1, [window] + more, lo, hi, limit, window);
      OpensWindow(Some(Bucket(limit, 0)), window, more, lo, hi, limit, window);
      CopiesAreAllowed(Bucket(1, window), window, limit - 1, [], lo, hi, limit, window);
      NothingMore(Bucket(limit, window), lo, hi, limit, window);
    }
  }

  // ---- retry-after ----

  lemma {:induction false} WindowHolds(b: Bucket, times: seq<int>, window: int)
    requires forall i :: 0 <= i < |times| ==> times[i] < b.start + window
    ensures After(Some(b), times, window) == Some(Bucket(b.count + |times|, b.start))
    decreases |times|
  {
    if times != [] { WindowHolds(Claim(Some(b), times[0], window), times[1..], window); }
  }

  /**
   After a refusal at `now`, every attempt before now + retryAfter is refused however many are made, and
   the first attempt at or after that instant is allowed.
   */
  lemma RetryAfterIsExact(b: Option<Bucket>, now: int, limit: int, window: int, between: seq<int>, at: int)
    requires limit >= 1 && window >= 1
    requires !Check(b, now, limit, window).allowed
    requires var until := now + Check(b, now, limit, window).retryAfter;
      forall i :: 0 <= i < |between| ==> now <= between[i] < until
    requires at >= now
    ensures var d := Check(b, now, limit, window);
      var b' := After(Some(Bucket(d.count, d.start)), between, window);
      Check(b', at, limit, window).allowed <==> at >= now + d.retryAfter
  {
    var d := Check(b, now, limit, window);
    WindowHolds(Bucket(d.count, d.start), between, window);
  }
}
