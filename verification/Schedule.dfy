/**
 Runs one after another (src/reconcile-run.ts:156-259, src/reconcile.ts:276-304): how the feed is paged,
 capped and re-run makes no difference to which rows are decided, and none is lost unless a cap falls
 between two rows of one instant.
 */
module Schedule {
  import opened Wrappers
  import Arith
  import opened Ledger
  import opened Calls
  import opened Reconcile
  import opened ReconcileRun

  // ---- the gateway's whole history, and what a run can see of it ----

  predicate Ascending(rows: seq<GatewayLog>) { forall i, j :: 0 <= i < j < |rows| ==> rows[i].at <= rows[j].at }

  predicate DistinctInstants(rows: seq<GatewayLog>) { forall i, j :: 0 <= i < j < |rows| ==> rows[i].at < rows[j].at }

  function UpTo(history: seq<Entry>, ceiling: int): seq<Entry> {
    if history == [] then []
    else if history[0].At() <= ceiling then [history[0]] + UpTo(history[1..], ceiling)
    else UpTo(history[1..], ceiling)
  }

  predicate AllSettled(s: seq<Entry>, ceiling: int) { forall i :: 0 <= i < |s| ==> s[i].At() <= ceiling }

  predicate AllUnsettled(tail: seq<Entry>, ceiling: int) { forall i :: 0 <= i < |tail| ==> tail[i].At() > ceiling }

  /** A listing is the settled rows `s` followed by whatever newer rows have shown up by then. */
  ghost predicate Lists(listing: seq<Entry>, s: seq<Entry>, ceiling: int) {
    s <= listing && AllUnsettled(listing[|s|..], ceiling)
  }

  /** Every row is visible within the settling time, on every page. */
  ghost predicate Shows(feed: Feed, history: seq<Entry>, ceiling: int) {
    forall p: nat :: feed(p).Some? && Lists(feed(p).value, UpTo(history, ceiling), ceiling)
  }

  function First<T>(rows: seq<T>, n: nat): seq<T> { rows[..Min(n, |rows|)] }

  /** The readable rows with an instant in (lo, hi]. */
  function In(rows: seq<GatewayLog>, lo: int, hi: int): seq<GatewayLog> {
    if rows == [] then []
    else if lo < rows[0].at <= hi then [rows[0]] + In(rows[1..], lo, hi)
    else In(rows[1..], lo, hi)
  }

  // ---- paging is invisible ----

  lemma {:induction false} NewerConcat(a: seq<Entry>, b: seq<Entry>, floor: int)
    ensures Newer(a + b, floor) == Newer(a, floor) + Newer(b, floor)
  {
    if a == [] { assert a + b == b; } else {
      assert (a + b)[1..] == a[1..] + b;
      NewerConcat(a[1..], b, floor);
    }
  }

  lemma {:induction false} ReadableConcat(a: seq<Entry>, b: seq<Entry>)
    ensures Readable(a + b) == Readable(a) + Readable(b)
  {
    if a == [] { assert a + b == b; } else {
      assert (a + b)[1..] == a[1..] + b;
      ReadableConcat(a[1..], b);
    }
  }

  lemma {:induction false} NewerStaysUnsettled(tail: seq<Entry>, floor: int, ceiling: int)
    requires AllUnsettled(tail, ceiling)
    ensures AllUnsettled(Newer(tail, floor), ceiling)
  {
    if tail != [] { NewerStaysUnsettled(tail[1..], floor, ceiling); }
  }

  lemma {:induction false} ReadableUnsettled(tail: seq<Entry>, ceiling: int)
    requires AllUnsettled(tail, ceiling)
    ensures forall i :: 0 <= i < |Readable(tail)| ==> Readable(tail)[i].at > ceiling
  {
    if tail != [] { ReadableUnsettled(tail[1..], ceiling); }
  }

  lemma {:induction false} ReadableSettled(s: seq<Entry>, ceiling: int)
    requires AllSettled(s, ceiling)
    ensures forall i :: 0 <= i < |Readable(s)| ==> Readable(s)[i].at <= ceiling
  {
    if s != [] { ReadableSettled(s[1..], ceiling); }
  }

  /** The settled part of the filtered listing, by readable row. */
  lemma {:induction false} WindowIsIn(history: seq<Entry>, lo: int, hi: int)
    ensures Readable(Newer(UpTo(history, hi), lo)) == In(Readable(history), lo, hi)
    ensures AllSettled(Newer(UpTo(history, hi), lo), hi)
  {
    if history != [] {
      WindowIsIn(history[1..], lo, hi);
      var rest := UpTo(history[1..], hi);
      if history[0].At() <= hi {
        assert ([history[0]] + rest)[1..] == rest;
        if history[0].At() > lo {
          assert ([history[0]] + Newer(rest, lo))[1..] == Newer(rest, lo);
        }
      }
      if history[0].Row? {
        assert ([history[0].log] + Readable(history[1..]))[1..] == Readable(history[1..]);
      }
    }
  }

  /** Rows at or below the ceiling followed by rows above it: the first part is taken, up to the room. */
  lemma {:induction false} CountsSettledPart(rows: seq<GatewayLog>, n: nat, room: nat, ceiling: int)
    requires n <= |rows|
    requires forall i :: 0 <= i < n ==> rows[i].at <= ceiling
    requires forall i :: n <= i < |rows| ==> rows[i].at > ceiling
    ensures TakeCount(rows, room, ceiling) == Min(room, n)
  {
    if n > 0 && room > 0 { CountsSettledPart(rows[1..], n - 1, room - 1, ceiling); }
  }

  /** One page over settled rows `s` and an unsettled tail. */
  lemma PageTakes(s: seq<Entry>, tail: seq<Entry>, room: nat, ceiling: int)
    requires AllSettled(s, ceiling) && AllUnsettled(tail, ceiling)
    ensures var rows := Readable(s + tail); var n := |Readable(s)|;
      && TakeCount(rows, room, ceiling) == Min(room, n) && n <= |rows|
      && rows[..Min(room, n)] == Readable(s)[..Min(room, n)]
      && (n < |rows| ==> tail != [])
  {
    ReadableConcat(s, tail);
    ReadableSettled(s, ceiling);
    ReadableUnsettled(tail, ceiling);
    SettledPartFirst(Readable(s), Readable(tail), room, ceiling);
  }

  lemma SettledPartFirst(a: seq<GatewayLog>, b: seq<GatewayLog>, room: nat, ceiling: int)
    requires forall i :: 0 <= i < |a| ==> a[i].at <= ceiling
    requires forall i :: 0 <= i < |b| ==> b[i].at > ceiling
    ensures TakeCount(a + b, room, ceiling) == Min(room, |a|)
    ensures (a + b)[..Min(room, |a|)] == a[..Min(room, |a|)]
  {
    CountsSettledPart(a + b, |a|, room, ceiling);
  }

  /** Page `page` of a listing is its share of the settled rows, then unsettled ones. */
  lemma PageIsSettledThenTail(listing: seq<Entry>, s: seq<Entry>, page: nat, perPage: nat, ceiling: int)
    requires page >= 1 && perPage >= 1 && Lists(listing, s, ceiling)
    ensures var lo := Min((page - 1) * perPage, |s|); var hi := Min(page * perPage, |s|);
      var batch := PageOf(listing, page, perPage);
      && lo <= hi && hi - lo <= |batch| && batch[..hi - lo] == s[lo..hi] && AllUnsettled(batch[hi - lo..], ceiling)
      && (|batch| > hi - lo || |batch| < perPage ==> hi == |s|)
  {
    assert page * perPage == (page - 1) * perPage + perPage && (page - 1) * perPage >= 0;
    var from := Min((page - 1) * perPage, |listing|);
    var lo, hi := Min((page - 1) * perPage, |s|), Min(page * perPage, |s|);
    var batch := PageOf(listing, page, perPage);
    forall i | hi - lo <= i < |batch| ensures batch[i].At() > ceiling {
      assert batch[i] == listing[|s|..][from + i - |s|];
    }
  }

  /** Whatever the page size and the tail, the first `room` settled rows are read. */
  lemma {:induction false} PagingReadsFirst(feed: Feed, bound: nat, floor: int, page: nat, perPage: nat, room: nat,
                                            ceiling: int, s: seq<Entry>)
    requires Bounded(feed, bound) && page >= 1 && perPage >= 1 && AllSettled(s, ceiling)
    requires forall p: nat :: feed(p).Some? && Lists(Newer(feed(p).value, floor), s, ceiling)
    ensures Min((page - 1) * perPage, |s|) >= 0
    ensures var p := Paging(feed, bound, floor, page, perPage, room, ceiling);
      !p.failed && p.logs == First(Readable(s[Min((page - 1) * perPage, |s|)..]), room)
    decreases if page <= bound then bound + 1 - page else 0
  {
    hide Paging, PageOf, Newer, Readable, TakeCount, OnePage;
    var listing := Newer(feed(page).value, floor);
    var batch := PageOf(listing, page, perPage);
    PageIsSettledThenTail(listing, s, page, perPage, ceiling);
    var lo, hi := Min((page - 1) * perPage, |s|), Min(page * perPage, |s|);
    var one := OnePage(batch, room, ceiling);
    BatchReads(batch, s, lo, hi, room, ceiling);
    PagingStep(feed, bound, floor, page, perPage, room, ceiling);
    if !one.truncated && |batch| == perPage {
      PagingReadsFirst(feed, bound, floor, page + 1, perPage, room - |one.logs|, ceiling, s);
    } else {
      assert one.truncated || hi == |s|;
    }
  }

  /** What one batch contributes to reading the first `room` of the settled rows from `lo` on. */
  lemma BatchReads(batch: seq<Entry>, s: seq<Entry>, lo: nat, hi: nat, room: nat, ceiling: int)
    requires lo <= hi <= |s| && AllSettled(s, ceiling)
    requires hi - lo <= |batch| && batch[..hi - lo] == s[lo..hi] && AllUnsettled(batch[hi - lo..], ceiling)
    requires |batch| > hi - lo ==> hi == |s|
    ensures var one := OnePage(batch, room, ceiling);
      && (!one.truncated ==> |one.logs| <= room && First(Readable(s[lo..]), room) == one.logs + First(Readable(s[hi..]), room - |one.logs|))
      && (one.truncated || hi == |s| ==> First(Readable(s[lo..]), room) == one.logs)
  {
    hide Readable, TakeCount;
    var here, there := Readable(s[lo..hi]), Readable(s[hi..]);
    assert batch == s[lo..hi] + batch[hi - lo..];
    PageTakes(s[lo..hi], batch[hi - lo..], room, ceiling);
    assert s[lo..] == s[lo..hi] + s[hi..];
    ReadableConcat(s[lo..hi], s[hi..]);
    FirstOfConcat(here, there, room);
    if hi == |s| { assert s[lo..hi] == s[lo..]; }
  }

  lemma FirstOfConcat<T>(a: seq<T>, b: seq<T>, n: nat)
    ensures n >= |a| ==> First(a + b, n) == a + First(b, n - |a|)
    ensures n <= |a| ==> First(a + b, n) == First(a, n)
  {
  }

  /** What one run decides, seen from outside: the first `max` settled rows above its floor. */
  function Visit(rows: seq<GatewayLog>, floor: int, now: int, max: nat): seq<GatewayLog> {
    First(In(rows, floor, Ceiling(now)), max)
  }

  /** The paging loop of RunReconcile computes exactly that, for every page size. */
  lemma RunVisits(feed: Feed, bound: nat, history: seq<Entry>, floor: int, now: int, perPage: nat, max: nat)
    requires Bounded(feed, bound) && perPage >= 1 && Shows(feed, history, Ceiling(now))
    ensures var p := Paging(feed, bound, floor, 1, perPage, max, Ceiling(now));
      !p.failed && p.logs == Visit(Readable(history), floor, now, max)
  {
    hide Paging, Newer, Readable;
    var ceiling := Ceiling(now);
    var settled := UpTo(history, ceiling);
    var s := Newer(settled, floor);
    WindowIsIn(history, floor, ceiling);
    forall p: nat ensures feed(p).Some? && Lists(Newer(feed(p).value, floor), s, ceiling) {
      var v := feed(p).value;
      assert Lists(v, settled, ceiling);
      assert v == settled + v[|settled|..];
      NewerConcat(settled, v[|settled|..], floor);
      NewerStaysUnsettled(v[|settled|..], floor, ceiling);
      assert Newer(v, floor)[|s|..] == Newer(v[|settled|..], floor);
    }
    PagingReadsFirst(feed, bound, floor, 1, perPage, max, ceiling, s);
    assert s[0..] == s;
  }

  // ---- windows over an ascending history ----

  lemma {:induction false} InWithin(rows: seq<GatewayLog>, lo: int, hi: int)
    ensures |In(rows, lo, hi)| <= |rows|
    ensures forall i :: 0 <= i < |In(rows, lo, hi)| ==> lo < In(rows, lo, hi)[i].at <= hi
    ensures forall l :: l in In(rows, lo, hi) ==> l in rows
  {
    if rows != [] { InWithin(rows[1..], lo, hi); }
  }

  lemma InEmpty(rows: seq<GatewayLog>, lo: int, hi: int)
    requires hi <= lo
    ensures In(rows, lo, hi) == []
  {
    InWithin(rows, lo, hi);
  }

  lemma {:induction false} InAbove(rows: seq<GatewayLog>, lo: int, hi: int)
    requires forall i :: 0 <= i < |rows| ==> rows[i].at > hi
    ensures In(rows, lo, hi) == []
  {
    if rows != [] { InAbove(rows[1..], lo, hi); }
  }

  lemma {:induction false} InFrom(rows: seq<GatewayLog>, lo: int, hi: int, m: int)
    requires forall i :: 0 <= i < |rows| ==> rows[i].at >= m
    ensures forall i :: 0 <= i < |In(rows, lo, hi)| ==> In(rows, lo, hi)[i].at >= m
  {
    if rows != [] { InFrom(rows[1..], lo, hi, m); }
  }

  lemma {:induction false} InAscends(rows: seq<GatewayLog>, lo: int, hi: int)
    requires Ascending(rows)
    ensures Ascending(In(rows, lo, hi))
  {
    if rows != [] {
      InAscends(rows[1..], lo, hi);
      InFrom(rows[1..], lo, hi, rows[0].at);
    }
  }

  /** In an ascending history, a window splits at any instant inside it. */
  lemma {:induction false} InSplits(rows: seq<GatewayLog>, a: int, b: int, c: int)
    requires a <= b <= c && Ascending(rows)
    ensures In(rows, a, c) == In(rows, a, b) + In(rows, b, c)
  {
    if rows != [] {
      InSplits(rows[1..], a, b, c);
      if rows[0].at > b {
        InAbove(rows[1..], a, b);
      }
    }
  }

  /** The part of an ascending window up to a row's instant is the prefix ending with that row. */
  lemma {:induction false} PrefixUpTo(rows: seq<GatewayLog>, lo: int, hi: int, k: nat)
    requires k <= |rows|
    requires forall i :: 0 <= i < k ==> lo < rows[i].at <= hi
    requires forall i :: k <= i < |rows| ==> rows[i].at > hi
    ensures In(rows, lo, hi) == rows[..k]
  {
    if rows != [] {
      PrefixUpTo(rows[1..], lo, hi, if k > 0 then k - 1 else 0);
      if k > 0 { assert rows[..k] == [rows[0]] + rows[1..][..k - 1]; }
    }
  }

  lemma {:induction false} TiedRowIsExtra(all: seq<GatewayLog>, lo: int, hi: int, k: nat)
    requires k < |all| && forall i :: 0 <= i <= k ==> lo < all[i].at <= hi
    ensures |In(all, lo, hi)| > k
  {
    if k > 0 { TiedRowIsExtra(all[1..], lo, hi, k - 1); }
  }

  lemma {:induction false} InNarrows(rows: seq<GatewayLog>, lo: int, mid: int, hi: int)
    requires mid <= hi
    ensures In(In(rows, lo, hi), lo, mid) == In(rows, lo, mid)
  {
    if rows != [] {
      InNarrows(rows[1..], lo, mid, hi);
      if lo < rows[0].at <= hi {
        assert ([rows[0]] + In(rows[1..], lo, hi))[1..] == In(rows[1..], lo, hi);
      }
    }
  }

  // ---- where one run leaves the watermark ----

  function NextFloor(rows: seq<GatewayLog>, floor: int, now: int, max: nat): int {
    Settled(floor, NewestOf(Visit(rows, floor, now, max)), now)
  }

  /** The cap did not fall between two rows of one instant. */
  ghost predicate KeepsTies(rows: seq<GatewayLog>, floor: int, now: int, max: nat) {
    var all := In(rows, floor, Ceiling(now));
    |all| <= max || (max > 0 && all[max - 1].at < all[max].at)
  }

  /** With nothing to visit the run jumps to the ceiling, and there is nothing below it. */
  lemma IdleRun(rows: seq<GatewayLog>, floor: int, now: int, max: nat)
    requires max >= 1 && In(rows, floor, Ceiling(now)) == []
    ensures NextFloor(rows, floor, now, max) == Max(floor, Ceiling(now))
    ensures In(rows, floor, NextFloor(rows, floor, now, max)) == []
  {
    if Ceiling(now) <= floor { InEmpty(rows, floor, floor); }
  }

  /** Otherwise it stops at the instant of the last row it visited. */
  lemma BusyRun(rows: seq<GatewayLog>, floor: int, now: int, max: nat)
    requires max >= 1 && In(rows, floor, Ceiling(now)) != []
    ensures var all := In(rows, floor, Ceiling(now)); var k := Min(max, |all|);
      Visit(rows, floor, now, max) == all[..k] && NextFloor(rows, floor, now, max) == all[k - 1].at
      && floor < all[k - 1].at <= Ceiling(now)
  {
    InWithin(rows, floor, Ceiling(now));
  }

  /** What one run leaves behind it: nothing unvisited if its cap kept ties together, else at least one row. */
  lemma OneRunCovers(rows: seq<GatewayLog>, floor: int, now: int, max: nat)
    requires Ascending(rows) && max >= 1
    ensures var next := NextFloor(rows, floor, now, max);
      && floor <= next <= Max(floor, Ceiling(now))
      && (KeepsTies(rows, floor, now, max) ==> In(rows, floor, next) == Visit(rows, floor, now, max))
      && (!KeepsTies(rows, floor, now, max) ==> |In(rows, floor, next)| > |Visit(rows, floor, now, max)|)
  {
    hide In, NextFloor;
    WatermarkAdvancesExactlyWhen(rows, floor, now, max);
    var all := In(rows, floor, Ceiling(now));
    if all == [] {
      IdleRun(rows, floor, now, max);
    } else {
      BusyRun(rows, floor, now, max);
      InWithin(rows, floor, Ceiling(now));
      InAscends(rows, floor, Ceiling(now));
      var k := Min(max, |all|);
      var next := all[k - 1].at;
      InNarrows(rows, floor, next, Ceiling(now));
      if KeepsTies(rows, floor, now, max) {
        PrefixUpTo(all, floor, next, k);
      } else {
        TiedRowIsExtra(all, floor, next, k);
      }
    }
  }

  /**
   A run passes over no row exactly when its cap keeps ties together: everything between the old floor
   and the new one was visited.
   */
  lemma NothingPassedOverExactlyWhen(rows: seq<GatewayLog>, floor: int, now: int, max: nat)
    requires Ascending(rows) && max >= 1
    ensures In(rows, floor, NextFloor(rows, floor, now, max)) == Visit(rows, floor, now, max)
       <==> KeepsTies(rows, floor, now, max)
  {
    hide In, NextFloor, Visit, KeepsTies;
    OneRunCovers(rows, floor, now, max);
  }

  /** Distinct instants keep every tie together, whatever the cap. */
  lemma DistinctKeepsTies(rows: seq<GatewayLog>, floor: int, now: int, max: nat)
    requires DistinctInstants(rows) && max >= 1
    ensures KeepsTies(rows, floor, now, max)
  {
    InDistinct(rows, floor, Ceiling(now));
  }

  lemma {:induction false} InDistinct(rows: seq<GatewayLog>, lo: int, hi: int)
    requires DistinctInstants(rows)
    ensures DistinctInstants(In(rows, lo, hi))
  {
    if rows != [] {
      InDistinct(rows[1..], lo, hi);
      InFrom(rows[1..], lo, hi, rows[0].at + 1);
    }
  }

  /** The watermark moves forward, never back, and moves exactly when the settled instant is past it. */
  lemma WatermarkAdvancesExactlyWhen(rows: seq<GatewayLog>, floor: int, now: int, max: nat)
    requires max >= 1
    ensures floor <= NextFloor(rows, floor, now, max) <= Max(floor, Ceiling(now))
    ensures NextFloor(rows, floor, now, max) > floor <==> Ceiling(now) > floor
  {
    hide In, NextFloor;
    if In(rows, floor, Ceiling(now)) == [] { IdleRun(rows, floor, now, max); } else { BusyRun(rows, floor, now, max); }
  }

  // ---- many runs ----

  datatype Turn = Turn(now: int, max: nat)

  predicate Capped(turns: seq<Turn>) { forall i :: 0 <= i < |turns| ==> turns[i].max >= 1 }

  function VisitAll(rows: seq<GatewayLog>, floor: int, turns: seq<Turn>): seq<GatewayLog>
    decreases |turns|
  {
    if turns == [] then []
    else Visit(rows, floor, turns[0].now, turns[0].max)
         + VisitAll(rows, NextFloor(rows, floor, turns[0].now, turns[0].max), turns[1..])
  }

  function FinalFloor(rows: seq<GatewayLog>, floor: int, turns: seq<Turn>): int
    decreases |turns|
  {
    if turns == [] then floor
    else FinalFloor(rows, NextFloor(rows, floor, turns[0].now, turns[0].max), turns[1..])
  }

  /** Every run of the sequence, at the floor it starts from, keeps its ties together. */
  ghost predicate TiesKept(rows: seq<GatewayLog>, floor: int, turns: seq<Turn>)
    decreases |turns|
  {
    turns != [] ==>
      && KeepsTies(rows, floor, turns[0].now, turns[0].max)
      && TiesKept(rows, NextFloor(rows, floor, turns[0].now, turns[0].max), turns[1..])
  }

  lemma {:induction false} DistinctInstantsKeepTies(rows: seq<GatewayLog>, floor: int, turns: seq<Turn>)
    requires DistinctInstants(rows) && Capped(turns)
    ensures TiesKept(rows, floor, turns)
    decreases |turns|
  {
    if turns != [] {
      DistinctKeepsTies(rows, floor, turns[0].now, turns[0].max);
      DistinctInstantsKeepTies(rows, NextFloor(rows, floor, turns[0].now, turns[0].max), turns[1..]);
    }
  }

  /** A row at or below the floor is visited by no later run: what a run passes over is lost for good. */
  lemma {:induction false} PassedOverForGood(rows: seq<GatewayLog>, floor: int, turns: seq<Turn>, l: GatewayLog)
    requires Capped(turns) && l.at <= floor
    ensures l !in VisitAll(rows, floor, turns)
    decreases |turns|
  {
    hide In, NextFloor;
    if turns != [] {
      var t := turns[0];
      InWithin(rows, floor, Ceiling(t.now));
      WatermarkAdvancesExactlyWhen(rows, floor, t.now, t.max);
      PassedOverForGood(rows, NextFloor(rows, floor, t.now, t.max), turns[1..], l);
    }
  }

  lemma {:induction false} RunsVisitAtMostTheWindow(rows: seq<GatewayLog>, floor: int, turns: seq<Turn>)
    requires Ascending(rows) && Capped(turns)
    ensures floor <= FinalFloor(rows, floor, turns)
    ensures TiesKept(rows, floor, turns) ==> VisitAll(rows, floor, turns) == In(rows, floor, FinalFloor(rows, floor, turns))
    ensures !TiesKept(rows, floor, turns) ==> |VisitAll(rows, floor, turns)| < |In(rows, floor, FinalFloor(rows, floor, turns))|
    decreases |turns|
  {
    hide In, Visit, NextFloor, KeepsTies;
    if turns == [] {
      InEmpty(rows, floor, floor);
    } else {
      var t := turns[0];
      var next := NextFloor(rows, floor, t.now, t.max);
      OneRunCovers(rows, floor, t.now, t.max);
      RunsVisitAtMostTheWindow(rows, next, turns[1..]);
      InSplits(rows, floor, next, FinalFloor(rows, floor, turns));
    }
  }

  /**
   Any sequence of runs decides, in order and once each, exactly the rows up to where it stops, if and
   only if none of its caps splits a group of equal timestamps.
   */
  lemma RunsCoverTheWindow(rows: seq<GatewayLog>, floor: int, turns: seq<Turn>)
    requires Ascending(rows) && Capped(turns)
    ensures floor <= FinalFloor(rows, floor, turns)
    ensures VisitAll(rows, floor, turns) == In(rows, floor, FinalFloor(rows, floor, turns)) <==> TiesKept(rows, floor, turns)
  {
    hide In, VisitAll, FinalFloor, TiesKept;
    RunsVisitAtMostTheWindow(rows, floor, turns);
  }

  /** Two rows of one instant and a cap of one: the second row is never visited, however many runs follow. */
  lemma SplitTieIsLost(a: GatewayLog, b: GatewayLog, now: int, later: seq<Turn>)
    requires a.at == b.at && a != b && 0 < a.at <= Ceiling(now) && Capped(later)
    ensures var turns := [Turn(now, 1)] + later;
      a in VisitAll([a, b], 0, turns) && b !in VisitAll([a, b], 0, turns)
  {
    var rows := [a, b];
    var turns := [Turn(now, 1)] + later;
    assert rows[1..] == [b] && [b][1..] == [];
    assert In(rows, 0, Ceiling(now)) == [a] + In([b], 0, Ceiling(now)) && In([b], 0, Ceiling(now)) == [b] + In([], 0, Ceiling(now));
    assert Visit(rows, 0, now, 1) == [a];
    assert turns[1..] == later;
    PassedOverForGood(rows, a.at, later, b);
  }

  /** Crash-free live runs in turn, on a ledger whose rows stay as they are. */
  function LiveRuns(p: Progress, rows: seq<GatewayLog>, floor: int, turns: seq<Turn>,
                    events: seq<UsageEvent>, ids: nat -> string): Progress
    decreases |turns|
  {
    if turns == [] then p
    else
      var t := turns[0];
      LiveRuns(ApplyAll(p, DecideAll(Visit(rows, floor, t.now, t.max), events), ids), rows,
               NextFloor(rows, floor, t.now, t.max), turns[1..], events, ids)
  }

  lemma {:induction false} LiveRunsApplyVisits(p: Progress, rows: seq<GatewayLog>, floor: int, turns: seq<Turn>,
                                              events: seq<UsageEvent>, ids: nat -> string)
    ensures LiveRuns(p, rows, floor, turns, events, ids)
         == ApplyAll(p, DecideAll(VisitAll(rows, floor, turns), events), ids)
    decreases |turns|
  {
    if turns != [] {
      hide ApplyOne, Decide, Visit, NextFloor;
      var t := turns[0];
      var seen := Visit(rows, floor, t.now, t.max);
      var next := NextFloor(rows, floor, t.now, t.max);
      LiveRunsApplyVisits(ApplyAll(p, DecideAll(seen, events), ids), rows, next, turns[1..], events, ids);
      DecideAllConcat(seen, VisitAll(rows, next, turns[1..]), events);
      ApplyAllConcat(p, DecideAll(seen, events), DecideAll(VisitAll(rows, next, turns[1..]), events), ids);
    }
  }

  /**
   Two schedules that reach the same watermark leave the same accounts, periods, grants and adjustments,
   row ids included; in particular any schedule equals one uncapped run to that watermark.
   */
  lemma ScheduleIndependence(p: Progress, rows: seq<GatewayLog>, floor: int, turns: seq<Turn>, uncapped: Turn,
                             events: seq<UsageEvent>, ids: nat -> string)
    requires Ascending(rows) && Capped(turns) && TiesKept(rows, floor, turns)
    requires Ceiling(uncapped.now) == FinalFloor(rows, floor, turns) && uncapped.max >= |rows|
    ensures LiveRuns(p, rows, floor, turns, events, ids)
         == ApplyAll(p, DecideAll(Visit(rows, floor, uncapped.now, uncapped.max), events), ids)
  {
    hide In, LiveRuns, VisitAll, FinalFloor, ApplyAll, DecideAll, TiesKept;
    LiveRunsApplyVisits(p, rows, floor, turns, events, ids);
    RunsCoverTheWindow(rows, floor, turns);
    InWithin(rows, floor, Ceiling(uncapped.now));
    assert Visit(rows, floor, uncapped.now, uncapped.max) == In(rows, floor, Ceiling(uncapped.now));
  }

  /** The n-th run's ids continue where the last one stopped. */
  lemma {:induction false} FreshIdsShift(p: Progress, ds: seq<DecidedRow>, ids: nat -> string, later: nat -> string, from: nat)
    requires forall n: nat :: later(n) == ids(from + n)
    requires p.minted >= from
    ensures var a := ApplyAll(p, ds, ids); var b := ApplyAll(p.(minted := p.minted - from), ds, later);
      a.minted >= from && b == a.(minted := a.minted - from)
  {
    if ds != [] {
      hide Complete, HasAdjustment, DecideAdjustment;
      FreshIdsShift(p, ds[..|ds| - 1], ids, later, from);
    }
  }

  // ---- draining a backlog ----

  /** k capped runs work through the first k * max rows of the backlog. */
  lemma {:induction false} BacklogDrains(rows: seq<GatewayLog>, floor: int, t: Turn, k: nat)
    requires Ascending(rows) && t.max >= 1 && TiesKept(rows, floor, Copies(t, k))
    ensures k * t.max >= 0 && VisitAll(rows, floor, Copies(t, k)) == First(In(rows, floor, Ceiling(t.now)), k * t.max)
    decreases k
  {
    hide In, Visit, NextFloor, KeepsTies;
    if k > 0 {
      assert Copies(t, k)[1..] == Copies(t, k - 1);
      BacklogDrains(rows, NextFloor(rows, floor, t.now, t.max), t, k - 1);
      BacklogStep(rows, floor, t, (k - 1) * t.max);
      Arith.OneMore(k - 1, t.max);
    }
  }

  lemma BacklogStep(rows: seq<GatewayLog>, floor: int, t: Turn, m: int)
    requires Ascending(rows) && t.max >= 1 && m >= 0 && KeepsTies(rows, floor, t.now, t.max)
    ensures var next := NextFloor(rows, floor, t.now, t.max);
      First(In(rows, floor, Ceiling(t.now)), t.max + m)
      == Visit(rows, floor, t.now, t.max) + First(In(rows, next, Ceiling(t.now)), m)
  {
    hide In, Visit, NextFloor, KeepsTies;
    var next := NextFloor(rows, floor, t.now, t.max);
    OneRunCovers(rows, floor, t.now, t.max);
    if Ceiling(t.now) > floor {
      InSplits(rows, floor, next, Ceiling(t.now));
    } else {
      InEmpty(rows, floor, Ceiling(t.now));
      InEmpty(rows, next, Ceiling(t.now));
      InEmpty(rows, floor, next);
    }
    VisitIsFirst(rows, floor, t);
    FirstSplits(In(rows, floor, Ceiling(t.now)), Visit(rows, floor, t.now, t.max), In(rows, next, Ceiling(t.now)), t.max, m);
  }

  lemma VisitIsFirst(rows: seq<GatewayLog>, floor: int, t: Turn)
    ensures Visit(rows, floor, t.now, t.max) == First(In(rows, floor, Ceiling(t.now)), t.max)
  {
  }

  lemma FirstSplits<T>(all: seq<T>, head: seq<T>, rest: seq<T>, a: nat, b: nat)
    requires all == head + rest && head == First(all, a)
    ensures First(all, a + b) == head + First(rest, b)
  {
    if |all| <= a {
      assert rest == [] && First(all, a + b) == all;
    } else {
      assert rest == all[a..];
      assert First(all, a + b) == all[..a] + First(rest, b);
    }
  }

  /** A backlog of n settled rows is drained by k runs exactly when k * max >= n and no tie is split. */
  lemma DrainedExactlyWhen(rows: seq<GatewayLog>, floor: int, t: Turn, k: nat)
    requires Ascending(rows) && t.max >= 1
    ensures VisitAll(rows, floor, Copies(t, k)) == In(rows, floor, Ceiling(t.now))
       <==> TiesKept(rows, floor, Copies(t, k)) && k * t.max >= |In(rows, floor, Ceiling(t.now))|
  {
    hide In, VisitAll, Copies, FinalFloor, TiesKept;
    var all := In(rows, floor, Ceiling(t.now));
    if TiesKept(rows, floor, Copies(t, k)) {
      BacklogDrains(rows, floor, t, k);
    } else {
      CopiesAreCapped(t, k);
      RunsVisitAtMostTheWindow(rows, floor, Copies(t, k));
      RunsStopAtTheCeiling(rows, floor, t, k);
      var stop := FinalFloor(rows, floor, Copies(t, k));
      if stop <= Ceiling(t.now) { InSplits(rows, floor, stop, Ceiling(t.now)); } else { InEmpty(rows, floor, stop); }
    }
  }

  lemma CopiesAreCapped(t: Turn, k: nat)
    requires t.max >= 1
    ensures Capped(Copies(t, k))
  {
  }

  lemma {:induction false} RunsStopAtTheCeiling(rows: seq<GatewayLog>, floor: int, t: Turn, k: nat)
    requires t.max >= 1
    ensures FinalFloor(rows, floor, Copies(t, k)) <= Max(floor, Ceiling(t.now))
    decreases k
  {
    hide NextFloor;
    if k > 0 {
      WatermarkAdvancesExactlyWhen(rows, floor, t.now, t.max);
      assert Copies(t, k)[1..] == Copies(t, k - 1);
      RunsStopAtTheCeiling(rows, NextFloor(rows, floor, t.now, t.max), t, k - 1);
    }
  }
}
