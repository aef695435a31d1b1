/**
 One reconciliation run (src/reconcile-run.ts:136-353): page the biller's feed, decide each settled row
 against the ledger, apply the true-ups, and move the watermark as the very last write.
 */
module ReconcileRun {
  import opened Wrappers
  import opened Sums
  import opened Ledger
  import opened Calls
  import opened Store
  import opened Reconcile

  const MAX_PER_PAGE := 50
  const MAX_REVERSE_CHECK_ROWS := 500

  /** One raw row of the feed; a malformed one has a place in the order but cannot be read. */
  datatype Entry = Malformed(instant: int) | Row(log: GatewayLog) {
    function At(): int { if Malformed? then instant else log.at }
  }

  /**
   The whole gateway log as visible when a given page is fetched, oldest first; None when that call
   throws. It may differ from page to page: rows keep arriving while a run pages.
   */
  type Feed = nat -> Option<seq<Entry>>

  /** The feed's filter: strictly newer than the floor. */
  function Newer(rows: seq<Entry>, floor: int): (r: seq<Entry>)
    ensures |r| <= |rows|
  {
    if rows == [] then []
    else if rows[0].At() > floor then [rows[0]] + Newer(rows[1..], floor)
    else Newer(rows[1..], floor)
  }

  function PageOf(rows: seq<Entry>, page: nat, perPage: nat): (r: seq<Entry>)
    requires page >= 1
    ensures |r| <= perPage
    ensures |r| == perPage ==> page * perPage <= |rows|
  {
    var lo := Min((page - 1) * perPage, |rows|);
    var hi := Min(page * perPage, |rows|);
    assert page * perPage == (page - 1) * perPage + perPage;
    rows[lo..hi]
  }

  function Readable(batch: seq<Entry>): (r: seq<GatewayLog>)
    ensures |r| <= |batch|
  {
    if batch == [] then []
    else if batch[0].Row? then [batch[0].log] + Readable(batch[1..])
    else Readable(batch[1..])
  }

  // ---- what a run looks at ----

  /** How many rows of a batch a run processes: it stops at an unsettled row or at the cap. */
  function TakeCount(rows: seq<GatewayLog>, room: nat, ceiling: int): (k: nat)
    ensures k <= |rows| && k <= room
    ensures forall i :: 0 <= i < k ==> rows[i].at <= ceiling
    ensures k < |rows| ==> k == room || rows[k].at > ceiling
  {
    if rows == [] || rows[0].at > ceiling || room == 0 then 0
    else 1 + TakeCount(rows[1..], room - 1, ceiling)
  }

  datatype Paged = Paged(logs: seq<GatewayLog>, pages: nat, malformed: nat, truncated: bool, failed: bool)

  function Then(a: Paged, b: Paged): Paged {
    Paged(a.logs + b.logs, a.pages + b.pages, a.malformed + b.malformed, b.truncated, b.failed)
  }

  ghost predicate Bounded(feed: Feed, bound: nat) {
    forall p: nat :: feed(p).Some? ==> |feed(p).value| <= bound
  }

  /** What one fetched page contributes. */
  function OnePage(batch: seq<Entry>, room: nat, ceiling: int): (r: Paged)
    ensures |r.logs| <= room
  {
    var rows := Readable(batch);
    var k := TakeCount(rows, room, ceiling);
    Paged(rows[..k], 1, |batch| - |rows|, k < |rows|, false)
  }

  lemma FullPageIsInBounds(page: nat, perPage: nat, bound: nat)
    requires page >= 1 && perPage >= 1 && page * perPage <= bound
    ensures page <= bound
  {
  }

  /** Everything a run reads from page `page` on, with room for `room` more rows. */
  ghost function Paging(feed: Feed, bound: nat, floor: int, page: nat, perPage: nat, room: nat, ceiling: int): (r: Paged)
    requires Bounded(feed, bound) && page >= 1 && perPage >= 1
    ensures |r.logs| <= room
    decreases if page <= bound then bound + 1 - page else 0
  {
    if feed(page).None? then Paged([], 0, 0, false, true)
    else
      var batch := PageOf(Newer(feed(page).value, floor), page, perPage);
      var one := OnePage(batch, room, ceiling);
      if one.truncated || |batch| < perPage then one
      else
        FullPageIsInBounds(page, perPage, bound);
        Then(one, Paging(feed, bound, floor, page + 1, perPage, room - |one.logs|, ceiling))
  }

  // ---- what a run says of its pages ----

  /** The page a run fetches: the rows newer than its floor, so many to a page. */
  function Fetched(feed: Feed, floor: int, perPage: nat, page: nat): seq<Entry>
    requires page >= 1 && feed(page).Some?
  {
    PageOf(Newer(feed(page).value, floor), page, perPage)
  }

  function MalformedIn(batch: seq<Entry>): nat {
    if batch == [] then 0 else MalformedIn(batch[1..]) + if batch[0].Malformed? then 1 else 0
  }

  lemma {:induction false} ReadableOrMalformed(batch: seq<Entry>)
    ensures |batch| == |Readable(batch)| + MalformedIn(batch)
  {
    if batch != [] { ReadableOrMalformed(batch[1..]); }
  }

  /** What `n` pages from `page` on hold: malformed rows, and rows that can be read. */
  ghost function Held(feed: Feed, floor: int, perPage: nat, page: nat, n: nat): (int, int)
    requires page >= 1
    decreases n
  {
    if n == 0 || feed(page).None? then (0, 0)
    else
      var batch, rest := Fetched(feed, floor, perPage, page), Held(feed, floor, perPage, page + 1, n - 1);
      (MalformedIn(batch) + rest.0, (|batch| - MalformedIn(batch)) + rest.1)
  }

  /** The report counts every malformed row on its pages; a run is cut short exactly when a row it could read there was not processed. */
  lemma {:induction false} PagesAreCounted(feed: Feed, bound: nat, floor: int, page: nat, perPage: nat, room: nat, ceiling: int)
    requires Bounded(feed, bound) && page >= 1 && perPage >= 1
    ensures var p := Paging(feed, bound, floor, page, perPage, room, ceiling);
      var held := Held(feed, floor, perPage, page, p.pages);
      p.malformed == held.0 && (p.truncated <==> |p.logs| < held.1)
    decreases if page <= bound then bound + 1 - page else 0
  {
    hide Newer, Readable, TakeCount, PageOf, MalformedIn, Paging, OnePage;
    PagingStep(feed, bound, floor, page, perPage, room, ceiling);
    if feed(page).Some? {
      var batch := Fetched(feed, floor, perPage, page);
      var one := OnePage(batch, room, ceiling);
      ReadableOrMalformed(batch);
      NothingHeld(feed, floor, perPage, page + 1);
      if !one.truncated && |batch| == perPage {
        PagesAreCounted(feed, bound, floor, page + 1, perPage, room - |one.logs|, ceiling);
      }
    }
  }

  lemma NothingHeld(feed: Feed, floor: int, perPage: nat, page: nat)
    requires page >= 1
    ensures Held(feed, floor, perPage, page, 0) == (0, 0)
  {
  }

  predicate Answered(feed: Feed, page: nat, n: nat) { forall k: nat :: page <= k < page + n ==> feed(k).Some? }

  ghost predicate Full(feed: Feed, floor: int, perPage: nat, page: nat, n: nat)
    requires page >= 1 && Answered(feed, page, n)
  {
    forall k: nat :: page <= k < page + n ==> |Fetched(feed, floor, perPage, k)| == perPage
  }

  /** A run fails exactly when every page so far was full and processed to its end and the next one did not answer. */
  lemma {:induction false} FailsExactlyWhen(feed: Feed, bound: nat, floor: int, page: nat, perPage: nat, room: nat, ceiling: int)
    requires Bounded(feed, bound) && page >= 1 && perPage >= 1
    ensures var p := Paging(feed, bound, floor, page, perPage, room, ceiling);
      && Answered(feed, page, p.pages)
      && (p.failed <==> feed(page + p.pages).None? && !p.truncated && Full(feed, floor, perPage, page, p.pages))
    decreases if page <= bound then bound + 1 - page else 0
  {
    hide Newer, Readable, TakeCount, PageOf, Paging, OnePage;
    PagingStep(feed, bound, floor, page, perPage, room, ceiling);
    if feed(page).Some? {
      var batch := Fetched(feed, floor, perPage, page);
      var one := OnePage(batch, room, ceiling);
      if !one.truncated && |batch| == perPage {
        FailsExactlyWhen(feed, bound, floor, page + 1, perPage, room - |one.logs|, ceiling);
        var n := Paging(feed, bound, floor, page + 1, perPage, room - |one.logs|, ceiling).pages;
        assert Full(feed, floor, perPage, page, n + 1) <==> Full(feed, floor, perPage, page + 1, n);
      }
    }
  }

  // ---- what a run does ----

  /** The ledger read of one row, skipped when the decision cannot use it. */
  function LedgerRow(log: GatewayLog, events: seq<UsageEvent>): Option<UsageEvent> {
    if NeedsLedgerLookup(log) then FindEvent(events, log.requestId.value) else None
  }

  function Decide(log: GatewayLog, events: seq<UsageEvent>): DecidedRow {
    DecidedRow(log, DecideAdjustment(log, LedgerRow(log, events)))
  }

  function DecideAll(logs: seq<GatewayLog>, events: seq<UsageEvent>): (ds: seq<DecidedRow>)
    ensures |ds| == |logs| && forall i :: 0 <= i < |logs| ==> ds[i] == Decide(logs[i], events)
  {
    if logs == [] then [] else DecideAll(logs[..|logs| - 1], events) + [Decide(logs[|logs| - 1], events)]
  }

  /** The true-up row: the ledger row's own account and period, keyed by the gateway row. */
  function ToAdjustment(log: GatewayLog, o: Outcome, id: string): Adjustment
    requires o.Adjust?
  {
    Adjustment(id, o.event.accountId, o.event.id, o.event.requestId, log.id, o.event.periodKey,
               o.estimate, o.gateway, o.delta, o.direction, o.applied, AdjustmentKey(log.id))
  }

  /** Tables, ids minted so far, true-ups written, true-ups found already written. */
  datatype Progress = Progress(tables: Tables, minted: nat, applied: nat, already: nat)

  function ApplyOne(p: Progress, d: DecidedRow, ids: nat -> string): Progress {
    if !d.outcome.Adjust? then p
    else
      var r := ToAdjustment(d.log, d.outcome, ids(p.minted));
      var had := HasAdjustment(p.tables.adjustments, r);
      Progress(Complete(p.tables, AdjustInsert(r)), p.minted + 1,
               p.applied + (if had then 0 else 1), p.already + (if had then 1 else 0))
  }

  function ApplyAll(p: Progress, ds: seq<DecidedRow>, ids: nat -> string): Progress {
    if ds == [] then p else ApplyOne(ApplyAll(p, ds[..|ds| - 1], ids), ds[|ds| - 1], ids)
  }

  datatype Finding = NoLedgerRowFinding(log: GatewayLog) | AccountMismatchFinding(log: GatewayLog)
                   | MalformedFinding(rows: nat) | UnmatchedFinding(rows: nat)

  function RowFindings(ds: seq<DecidedRow>): seq<Finding> {
    if ds == [] then []
    else
      var d := ds[|ds| - 1];
      RowFindings(ds[..|ds| - 1]) +
      (if d.outcome == Skipped(NoLedgerRow) then [NoLedgerRowFinding(d.log)]
       else if d.outcome == Skipped(AccountMismatch) then [AccountMismatchFinding(d.log)]
       else [])
  }

  function SeenIds(ds: seq<DecidedRow>): set<string> {
    set d | d in ds && !Blank(d.log.requestId) :: d.log.requestId.value
  }

  /** Ledger rows of the window that no processed gateway row names. */
  function Unmatched(rows: seq<UsageEvent>, seen: set<string>): seq<UsageEvent> {
    if rows == [] then []
    else Unmatched(rows[..|rows| - 1], seen) + if rows[|rows| - 1].requestId in seen then [] else [rows[|rows| - 1]]
  }

  // ---- the two checks of the report, on the rows themselves ----

  predicate InWindow(e: UsageEvent, from: int, to: int) { from < e.createdAt <= to }

  /** How many ledger rows of the window come before a place in the ledger. */
  function Before(rows: seq<UsageEvent>, n: nat, from: int, to: int): nat
    requires n <= |rows|
  {
    if n == 0 then 0 else Before(rows, n - 1, from, to) + if InWindow(rows[n - 1], from, to) then 1 else 0
  }

  /** Some processed gateway row carries the request id. */
  ghost predicate Carried(logs: seq<GatewayLog>, requestId: string) {
    requestId != "" && exists l :: l in logs && l.requestId == Some(requestId)
  }

  /** The ledger row at a place, when it is among the first rows of the window and no gateway row carries it. */
  ghost function Missing(rows: seq<UsageEvent>, logs: seq<GatewayLog>, from: int, to: int): nat -> Option<UsageEvent> {
    (i: nat) =>
      if i < |rows| && InWindow(rows[i], from, to) && Before(rows, i, from, to) < MAX_REVERSE_CHECK_ROWS
         && !Carried(logs, rows[i].requestId)
      then Some(rows[i]) else None
  }

  function Places(n: nat): seq<nat> { if n == 0 then [] else Places(n - 1) + [n - 1] }

  lemma {:induction false} BetweenOneMore(rows: seq<UsageEvent>, e: UsageEvent, from: int, to: int, limit: nat)
    ensures EventsBetween(rows + [e], from, to, limit)
         == EventsBetween(rows, from, to, limit)
            + if InWindow(e, from, to) && |EventsBetween(rows, from, to, limit)| < limit then [e] else []
    decreases |rows|
  {
    if rows == [] {
      assert [] + [e] == [e] && [e][1..] == [];
    } else if limit > 0 {
      assert (rows + [e])[0] == rows[0] && (rows + [e])[1..] == rows[1..] + [e];
      BetweenOneMore(rows[1..], e, from, to, if InWindow(rows[0], from, to) then limit - 1 else limit);
    }
  }

  lemma {:induction false} BeforeOf(rows: seq<UsageEvent>, more: seq<UsageEvent>, n: nat, from: int, to: int)
    requires n <= |rows|
    ensures Before(rows + more, n, from, to) == Before(rows, n, from, to)
  {
    if n > 0 { BeforeOf(rows, more, n - 1, from, to); }
  }

  lemma {:induction false} BetweenCounts(rows: seq<UsageEvent>, from: int, to: int, limit: nat)
    ensures |EventsBetween(rows, from, to, limit)| == Min(limit, Before(rows, |rows|, from, to))
  {
    if rows != [] {
      var init, e := rows[..|rows| - 1], rows[|rows| - 1];
      assert rows == init + [e];
      BetweenCounts(init, from, to, limit);
      BetweenOneMore(init, e, from, to, limit);
      BeforeOf(init, [e], |init|, from, to);
    } else {
      assert EventsBetween(rows, from, to, limit) == [];
    }
  }

  lemma UnmatchedOneMore(a: seq<UsageEvent>, e: UsageEvent, seen: set<string>)
    ensures Unmatched(a + [e], seen) == Unmatched(a, seen) + if e.requestId in seen then [] else [e]
  {
    assert (a + [e])[..|a|] == a;
  }

  lemma {:induction false} SeenIdsAreCarried(logs: seq<GatewayLog>, events: seq<UsageEvent>, requestId: string)
    ensures requestId in SeenIds(DecideAll(logs, events)) <==> Carried(logs, requestId)
  {
    var ds := DecideAll(logs, events);
    forall i | 0 <= i < |logs| ensures ds[i].log == logs[i] { }
    if requestId in SeenIds(ds) {
      var d :| d in ds && !Blank(d.log.requestId) && d.log.requestId.value == requestId;
      var i :| 0 <= i < |ds| && ds[i] == d;
      assert logs[i] in logs && logs[i].requestId == Some(requestId);
    }
    if Carried(logs, requestId) {
      var l :| l in logs && l.requestId == Some(requestId);
      var i :| 0 <= i < |logs| && logs[i] == l;
      assert ds[i] in ds;
    }
  }

  lemma {:induction false} SamePicks<T, U>(rows: seq<T>, f: T -> Option<U>, g: T -> Option<U>)
    requires forall x :: x in rows ==> f(x) == g(x)
    ensures Pick(rows, f) == Pick(rows, g)
  {
    if rows != [] {
      assert rows[|rows| - 1] in rows;
      SamePicks(rows[..|rows| - 1], f, g);
    }
  }

  lemma {:induction false} PlacesAre(n: nat)
    ensures |Places(n)| == n && forall i: nat :: i in Places(n) <==> i < n
  {
    if n > 0 { PlacesAre(n - 1); }
  }

  lemma MissingOneMore(rows: seq<UsageEvent>, e: UsageEvent, logs: seq<GatewayLog>, from: int, to: int)
    ensures Pick(Places(|rows| + 1), Missing(rows + [e], logs, from, to))
         == Pick(Places(|rows|), Missing(rows, logs, from, to))
            + if InWindow(e, from, to) && Before(rows, |rows|, from, to) < MAX_REVERSE_CHECK_ROWS && !Carried(logs, e.requestId)
              then [e] else []
  {
    hide Pick, Carried, InWindow;
    var n := |rows|;
    PlacesAre(n);
    forall i | i in Places(n) ensures Missing(rows, logs, from, to)(i) == Missing(rows + [e], logs, from, to)(i) {
      BeforeOf(rows, [e], i, from, to);
    }
    SamePicks<nat, UsageEvent>(Places(n), Missing(rows, logs, from, to), Missing(rows + [e], logs, from, to));
    BeforeOf(rows, [e], n, from, to);
    LastPick<nat, UsageEvent>(Places(n), n, Missing(rows + [e], logs, from, to));
  }

  /**
   The reverse check reports exactly the ledger rows of the window, among its first 500, that no processed
   gateway row carries, in ledger order.
   */
  lemma {:induction false} UnmatchedExactlyWhen(rows: seq<UsageEvent>, logs: seq<GatewayLog>, events: seq<UsageEvent>, from: int, to: int)
    ensures Unmatched(EventsBetween(rows, from, to, MAX_REVERSE_CHECK_ROWS), SeenIds(DecideAll(logs, events)))
         == Pick(Places(|rows|), Missing(rows, logs, from, to))
  {
    hide SeenIds, DecideAll, Carried, EventsBetween, Unmatched, Missing, Pick, Places, Before, InWindow;
    if rows != [] {
      var init, e := rows[..|rows| - 1], rows[|rows| - 1];
      assert rows == init + [e];
      UnmatchedExactlyWhen(init, logs, events, from, to);
      BetweenOneMore(init, e, from, to, MAX_REVERSE_CHECK_ROWS);
      BetweenCounts(init, from, to, MAX_REVERSE_CHECK_ROWS);
      SeenIdsAreCarried(logs, events, e.requestId);
      var window := EventsBetween(init, from, to, MAX_REVERSE_CHECK_ROWS);
      UnmatchedOneMore(window, e, SeenIds(DecideAll(logs, events)));
      assert window + [] == window;
      MissingOneMore(init, e, logs, from, to);
    } else {
      NothingBetween(logs, events, from, to);
    }
  }

  lemma NothingBetween(logs: seq<GatewayLog>, events: seq<UsageEvent>, from: int, to: int)
    ensures Unmatched(EventsBetween([], from, to, MAX_REVERSE_CHECK_ROWS), SeenIds(DecideAll(logs, events))) == []
    ensures Pick(Places(0), Missing([], logs, from, to)) == []
  {
  }

  ghost predicate MissingAt(rows: seq<UsageEvent>, logs: seq<GatewayLog>, from: int, to: int, i: nat, e: UsageEvent) {
    && i < |rows| && rows[i] == e && from < e.createdAt <= to && Before(rows, i, from, to) < 500
    && !(e.requestId != "" && exists l :: l in logs && l.requestId == Some(e.requestId))
  }

  /** So a ledger row is reported if and only if it is in the window, among its first 500, and not carried. */
  lemma MissingExactlyWhen(rows: seq<UsageEvent>, logs: seq<GatewayLog>, from: int, to: int, e: UsageEvent)
    ensures e in Pick(Places(|rows|), Missing(rows, logs, from, to)) <==> exists i: nat :: MissingAt(rows, logs, from, to, i, e)
  {
    var f := Missing(rows, logs, from, to);
    PickHolds<nat, UsageEvent>(Places(|rows|), f, e);
    PlacesAre(|rows|);
    if Picked<nat, UsageEvent>(Places(|rows|), f, e) {
      var i: nat :| i in Places(|rows|) && f(i) == Some(e);
      assert MissingAt(rows, logs, from, to, i, e);
    }
    if i: nat :| MissingAt(rows, logs, from, to, i, e) {
      assert i in Places(|rows|) && f(i) == Some(e);
    }
  }

  lemma LastPick<T, U>(rows: seq<T>, x: T, f: T -> Option<U>)
    ensures Pick(rows + [x], f) == Pick(rows, f) + if f(x).Some? then [f(x).value] else []
  {
    assert (rows + [x])[..|rows|] == rows;
  }

  /** The ledger row a gateway row is compared with: it names it, is not cached, says its cost, and agrees on the account. */
  function ComparedTo(l: GatewayLog, events: seq<UsageEvent>): Option<UsageEvent> {
    if l.requestId.None? || l.requestId.value == "" || l.cached || l.cost.None? then None
    else
      var e := FindEvent(events, l.requestId.value);
      if e.Some? && (l.accountId.None? || l.accountId.value == "" || l.accountId.value == e.value.accountId) then e else None
  }

  /** What the biller charged for a row that is compared. */
  function CostCompared(events: seq<UsageEvent>): GatewayLog -> int {
    (l: GatewayLog) => if ComparedTo(l, events).Some? && l.cost.Some? then l.cost.value else 0
  }

  /** A row that names a request with a cost is reported when no ledger row has it, or another account's has. */
  function FindingOf(events: seq<UsageEvent>): GatewayLog -> Option<Finding> {
    (l: GatewayLog) =>
      if l.requestId.None? || l.requestId.value == "" || l.cached || l.cost.None? then None
      else if FindEvent(events, l.requestId.value).None? then Some(NoLedgerRowFinding(l))
      else if ComparedTo(l, events).None? then Some(AccountMismatchFinding(l))
      else None
  }

  lemma OneRowReported(l: GatewayLog, events: seq<UsageEvent>)
    ensures var o := Decide(l, events).outcome;
      && FindingOf(events)(l) == (if o == Skipped(NoLedgerRow) then Some(NoLedgerRowFinding(l))
                                  else if o == Skipped(AccountMismatch) then Some(AccountMismatchFinding(l)) else None)
      && CostCompared(events)(l) == (match o case Adjust(_, _, _, _, gateway, _) => gateway
                                             case InAgreement(microUsd, _) => microUsd case Skipped(_) => 0)
  {
  }

  /** The findings and the billed sum of a run, read off its gateway rows and the ledger. */
  lemma {:induction false} RowsReported(logs: seq<GatewayLog>, events: seq<UsageEvent>)
    ensures RowFindings(DecideAll(logs, events)) == Pick(logs, FindingOf(events))
    ensures SumGateway(DecideAll(logs, events)) == Sum(logs, CostCompared(events))
  {
    if logs != [] {
      hide Decide, FindingOf, CostCompared;
      var init, l := logs[..|logs| - 1], logs[|logs| - 1];
      RowsReported(init, events);
      OneRowReported(l, events);
      DecideKeepsRow(l, events);
      assert DecideAll(logs, events)[..|init|] == DecideAll(init, events);
    }
  }

  lemma DecideKeepsRow(l: GatewayLog, events: seq<UsageEvent>)
    ensures Decide(l, events).log == l
  {
  }

  datatype Report = Report(
    dryRun: bool, windowFrom: int, windowTo: int, watermarkBefore: Option<int>, watermarkAfter: Option<int>,
    pages: nat, truncated: bool, malformed: nat, applied: nat, alreadyApplied: nat, totals: Totals,
    driftAlert: bool, unmatched: seq<UsageEvent>, findings: seq<Finding>)

  datatype RunResult = NoFloor | UpstreamFailed | Completed(report: Report)

  /** The part of a report that may not depend on whether the run was live. */
  function Preview(r: Report): Report {
    r.(dryRun := true, watermarkAfter := None, applied := 0, alreadyApplied := 0)
  }

  datatype Args = Args(
    now: int, dryRun: bool, since: Option<int>, maxRows: Option<int>, perPage: Option<int>)

  function MaxRows(a: Args): nat { Max(1, a.maxRows.GetOr(MAX_ROWS_PER_RUN)) }

  function PerPage(a: Args): nat { Min(MAX_PER_PAGE, Max(1, a.perPage.GetOr(MAX_PER_PAGE))) }

  /** At most 2000 rows by default and never fewer than one; pages of one to fifty. */
  lemma ArgsAreClamped(a: Args)
    ensures MaxRows(a) == match a.maxRows case None => 2000 case Some(n) => if n < 1 then 1 else n
    ensures PerPage(a) == match a.perPage case None => 50 case Some(n) => if n < 1 then 1 else if n > 50 then 50 else n
    ensures Ceiling(a.now) == a.now - 900_000
  {
  }

  /** The stored watermark, else the caller's floor. */
  function Floor(state: Option<ReconcileState>, a: Args): Option<int> {
    if state.Some? && state.value.watermark.Some? then state.value.watermark else a.since
  }

  function NewestOf(logs: seq<GatewayLog>): Option<int> {
    if logs == [] then None else Some(logs[|logs| - 1].at)
  }

  function LastIdOf(logs: seq<GatewayLog>): Option<string> {
    if logs == [] then None else Some(logs[|logs| - 1].id)
  }

  lemma ApplyAllAppend(p: Progress, ds: seq<DecidedRow>, d: DecidedRow, ids: nat -> string)
    ensures ApplyAll(p, ds + [d], ids) == ApplyOne(ApplyAll(p, ds, ids), d, ids)
  {
    assert (ds + [d])[..|ds|] == ds;
  }

  lemma {:induction false} ApplyAllConcat(p: Progress, a: seq<DecidedRow>, b: seq<DecidedRow>, ids: nat -> string)
    ensures ApplyAll(p, a + b, ids) == ApplyAll(ApplyAll(p, a, ids), b, ids)
  {
    if b == [] {
      assert a + b == a;
    } else {
      var n := |b| - 1;
      assert a + b == (a + b[..n]) + [b[n]];
      ApplyAllConcat(p, a, b[..n], ids);
      ApplyAllAppend(p, a + b[..n], b[n], ids);
    }
  }

  lemma DecideAllConcat(a: seq<GatewayLog>, b: seq<GatewayLog>, events: seq<UsageEvent>)
    ensures DecideAll(a + b, events) == DecideAll(a, events) + DecideAll(b, events)
  {
  }

  lemma DecideAllStep(rows: seq<GatewayLog>, i: nat, events: seq<UsageEvent>)
    requires i < |rows|
    ensures DecideAll(rows[..i + 1], events) == DecideAll(rows[..i], events) + [Decide(rows[i], events)]
  {
    assert rows[..i + 1][..i] == rows[..i];
  }

  /** The row loop over one batch (src/reconcile-run.ts:201-253). */
  method ProcessBatch(db: Db, rows: seq<GatewayLog>, room: nat, ceiling: int, dryRun: bool,
                      ids: nat -> string, minted0: nat)
    returns (ds: seq<DecidedRow>, truncated: bool, applied: nat, already: nat, minted: nat)
    modifies db`accounts, db`periods, db`grants, db`adjustments
    ensures ds == DecideAll(rows[..TakeCount(rows, room, ceiling)], db.events)
    ensures truncated <==> TakeCount(rows, room, ceiling) < |rows|
    ensures !dryRun ==>
      Progress(db.Money(), minted, applied, already) == ApplyAll(Progress(old(db.Money()), minted0, 0, 0), ds, ids)
    ensures dryRun ==> db.Money() == old(db.Money()) && applied == 0 && already == 0 && minted == minted0
  {
    hide ApplyOne, DecideAll, Decide;
    ds, truncated, applied, already, minted := [], false, 0, 0, minted0;
    ghost var start := Progress(db.Money(), minted0, 0, 0);
    var i := 0;
    while i < |rows| && !truncated
      invariant 0 <= i <= |rows| && i <= room
      invariant forall j :: 0 <= j < i ==> rows[j].at <= ceiling
      invariant truncated ==> i < |rows| && (i == room || rows[i].at > ceiling)
      invariant ds == DecideAll(rows[..i], db.events)
      invariant !dryRun ==> Progress(db.Money(), minted, applied, already) == ApplyAll(start, ds, ids)
      invariant dryRun ==> db.Money() == old(db.Money()) && applied == 0 && already == 0 && minted == minted0
      decreases |rows| - i, if truncated then 0 else 1
    {
      var log := rows[i];
      if log.at > ceiling || i >= room {
        truncated := true;
      } else {
        var d := DecideRow(db, log);
        DecideAllStep(rows, i, db.events);
        if !dryRun {
          applied, already, minted := ApplyDecision(db, d, ids, applied, already, minted);
          ApplyAllAppend(start, ds, d, ids);
        }
        ds := ds + [d];
        i := i + 1;
      }
    }
  }

  method DecideRow(db: Db, log: GatewayLog) returns (d: DecidedRow)
    ensures d == Decide(log, db.events)
  {
    var event := None;
    if NeedsLedgerLookup(log) {
      event := db.GetUsageEventByRequestId(log.requestId.value);
    }
    d := DecidedRow(log, DecideAdjustment(log, event));
  }

  /** The write of one decision: only an "adjust" writes, under a freshly minted row id. */
  method ApplyDecision(db: Db, d: DecidedRow, ids: nat -> string, applied0: nat, already0: nat, minted0: nat)
    returns (applied: nat, already: nat, minted: nat)
    modifies db`accounts, db`periods, db`grants, db`adjustments
    ensures Progress(db.Money(), minted, applied, already)
         == ApplyOne(Progress(old(db.Money()), minted0, applied0, already0), d, ids)
  {
    applied, already, minted := applied0, already0, minted0;
    if d.outcome.Adjust? {
      var wrote := db.ApplyUsageAdjustment(ToAdjustment(d.log, d.outcome, ids(minted)));
      minted := minted + 1;
      if wrote { applied := applied + 1; } else { already := already + 1; }
    }
  }

  // ---- the whole run ----

  function ProgressFrom(t: Tables): Progress { Progress(t, 0, 0, 0) }

  /** The report of a run that processed `p` and decided `ds` from the ledger rows `events`. */
  ghost predicate ReportsOn(r: Report, a: Args, floor: int, before: Option<int>, p: Paged, ds: seq<DecidedRow>,
                            events: seq<UsageEvent>)
  {
    && r.dryRun == a.dryRun && r.windowFrom == floor && r.windowTo == Ceiling(a.now) && r.watermarkBefore == before
    && r.watermarkAfter == (if a.dryRun then None else NextWatermark(floor, NewestOf(p.logs), a.now))
    && r.pages == p.pages && r.truncated == p.truncated && r.malformed == p.malformed
    && CountsOf(r.totals, ds)
    && (r.driftAlert <==>
          Sum(p.logs, CostCompared(events)) > 0
          && 20 * (r.totals.spend + r.totals.credit) > Sum(p.logs, CostCompared(events)))
    && r.unmatched == Pick(Places(|events|), Missing(events, p.logs, floor, Ceiling(a.now)))
    && r.findings == Pick(p.logs, FindingOf(events))
       + (if p.malformed > 0 then [MalformedFinding(p.malformed)] else [])
       + (if |r.unmatched| > 0 then [UnmatchedFinding(|r.unmatched|)] else [])
  }

  /** The paging loop (src/reconcile-run.ts:188-259). */
  method PageThrough(db: Db, feed: Feed, ghost bound: nat, floor: int, args: Args, ids: nat -> string)
    returns (ds: seq<DecidedRow>, p: Paged, applied: nat, already: nat)
    requires Bounded(feed, bound)
    modifies db`accounts, db`periods, db`grants, db`adjustments
    ensures p == Paging(feed, bound, floor, 1, PerPage(args), MaxRows(args), Ceiling(args.now))
    ensures ds == DecideAll(p.logs, db.events)
    ensures args.dryRun ==> db.Money() == old(db.Money()) && applied == 0 && already == 0
    ensures !args.dryRun ==> exists minted ::
      Progress(db.Money(), minted, applied, already) == ApplyAll(ProgressFrom(old(db.Money())), ds, ids)
  {
    hide ApplyOne, ApplyAll, DecideAll, Decide, Newer, Readable, TakeCount, Paging, OnePage, PageOf,
      NeedsLedgerLookup, FindEvent;
    var perPage, maxRows, ceiling := PerPage(args), MaxRows(args), Ceiling(args.now);
    ds, p, applied, already := [], Paged([], 0, 0, false, false), 0, 0;
    var minted: nat := 0;
    var page: nat := 1;
    ghost var whole := Paging(feed, bound, floor, 1, perPage, maxRows, ceiling);
    ghost var start := ProgressFrom(db.Money());
    NothingDecided(start, ids, db.events);
    while true
      invariant page >= 1 && |p.logs| <= maxRows
      invariant whole == Then(p, Paging(feed, bound, floor, page, perPage, maxRows - |p.logs|, ceiling))
      invariant ds == DecideAll(p.logs, db.events)
      invariant args.dryRun ==> db.Money() == old(db.Money()) && applied == 0 && already == 0
      invariant !args.dryRun ==> Progress(db.Money(), minted, applied, already) == ApplyAll(start, ds, ids)
      decreases if page <= bound then bound + 1 - page else 0
    {
      var listing := feed(page);
      if listing.None? {
        p := p.(truncated := false, failed := true);
        PagingStep(feed, bound, floor, page, perPage, maxRows - |p.logs|, ceiling);
        assert whole.logs == p.logs;
        return;
      }
      var batch := PageOf(Newer(listing.value, floor), page, perPage);
      var rows := Readable(batch);
      ghost var one := OnePage(batch, maxRows - |p.logs|, ceiling);
      PagingStep(feed, bound, floor, page, perPage, maxRows - |p.logs|, ceiling);
      ghost var ds0, p0, money0 := ds, p, db.Money();
      var fresh', truncated, wrote, found, next := ProcessBatch(db, rows, maxRows - |p.logs|, ceiling, args.dryRun, ids, minted);
      DecideAllConcat(p.logs, rows[..|fresh'|], db.events);
      if !args.dryRun {
        ResumeApply(start, ds, fresh', ids, Progress(money0, minted, applied, already), Progress(db.Money(), next, wrote, found));
      }
      ds, applied, already, minted := ds + fresh', applied + wrote, already + found, next;
      p := Paged(p.logs + rows[..|fresh'|], p.pages + 1, p.malformed + (|batch| - |rows|), truncated, false);
      assert p == Then(p0, one);
      if truncated || |batch| < perPage {
        return;
      }
      ThenAssociates(p0, one, Paging(feed, bound, floor, page + 1, perPage, maxRows - |p.logs|, ceiling));
      page := page + 1;
    }
  }

  /** One turn of the paging loop. */
  lemma PagingStep(feed: Feed, bound: nat, floor: int, page: nat, perPage: nat, room: nat, ceiling: int)
    requires Bounded(feed, bound) && page >= 1 && perPage >= 1
    ensures feed(page).None? ==>
      Paging(feed, bound, floor, page, perPage, room, ceiling) == Paged([], 0, 0, false, true)
    ensures feed(page).Some? ==>
      var batch := PageOf(Newer(feed(page).value, floor), page, perPage); var rows := Readable(batch);
      var one := OnePage(batch, room, ceiling);
      && one == Paged(rows[..TakeCount(rows, room, ceiling)], 1, |batch| - |rows|, TakeCount(rows, room, ceiling) < |rows|, false)
      && (one.truncated || |batch| < perPage ==> Paging(feed, bound, floor, page, perPage, room, ceiling) == one)
      && (!one.truncated && |batch| == perPage ==>
            page <= bound && |one.logs| <= room &&
            Paging(feed, bound, floor, page, perPage, room, ceiling)
            == Then(one, Paging(feed, bound, floor, page + 1, perPage, room - |one.logs|, ceiling)))
  {
    if feed(page).Some? && |PageOf(Newer(feed(page).value, floor), page, perPage)| == perPage {
      FullPageIsInBounds(page, perPage, bound);
    }
  }

  lemma NothingDecided(p: Progress, ids: nat -> string, events: seq<UsageEvent>)
    ensures ApplyAll(p, [], ids) == p && DecideAll([], events) == []
  {
  }

  lemma ThenAssociates(a: Paged, b: Paged, c: Paged)
    ensures Then(Then(a, b), c) == Then(a, Then(b, c))
  {
    assert a.logs + b.logs + c.logs == a.logs + (b.logs + c.logs);
  }

  /** Counters restarted at zero for a batch add up with the ones so far. */
  lemma ResumeApply(start: Progress, ds: seq<DecidedRow>, more: seq<DecidedRow>, ids: nat -> string, mid: Progress, batch: Progress)
    requires mid == ApplyAll(start, ds, ids)
    requires batch == ApplyAll(Progress(mid.tables, mid.minted, 0, 0), more, ids)
    ensures ApplyAll(start, ds + more, ids)
         == Progress(batch.tables, batch.minted, mid.applied + batch.applied, mid.already + batch.already)
  {
    ApplyAllConcat(start, ds, more, ids);
    CountersAdd(mid, more, ids);
  }

  lemma {:induction false} CountersAdd(p: Progress, ds: seq<DecidedRow>, ids: nat -> string)
    ensures var q := ApplyAll(Progress(p.tables, p.minted, 0, 0), ds, ids);
      ApplyAll(p, ds, ids) == Progress(q.tables, q.minted, p.applied + q.applied, p.already + q.already)
  {
    if ds != [] {
      hide Complete, HasAdjustment;
      CountersAdd(p, ds[..|ds| - 1], ids);
    }
  }

  method RunReconcile(db: Db, gatewayId: string, feed: Feed, ghost bound: nat, args: Args, ids: nat -> string)
    returns (res: RunResult, ds: seq<DecidedRow>)
    requires Bounded(feed, bound)
    modifies db`accounts, db`periods, db`grants, db`adjustments, db`reconcileStates
    ensures var state := old(Look(db.reconcileStates, gatewayId)); var floor := Floor(state, args);
      && (res.NoFloor? <==> floor.None?)
      && (res.NoFloor? ==> db.Money() == old(db.Money()) && db.reconcileStates == old(db.reconcileStates))
      && (floor.Some? ==>
            var p := Paging(feed, bound, floor.value, 1, PerPage(args), MaxRows(args), Ceiling(args.now));
            && ds == DecideAll(p.logs, db.events)
            && (res.UpstreamFailed? <==> p.failed)
            && (args.dryRun ==> db.Money() == old(db.Money()))
            && (!args.dryRun ==> db.Money() == ApplyAll(ProgressFrom(old(db.Money())), ds, ids).tables)
            && (args.dryRun || p.failed ==> db.reconcileStates == old(db.reconcileStates))
            && (!p.failed ==> ReportsOn(res.report, args, floor.value, if state.Some? then state.value.watermark else None,
                                        p, ds, db.events))
            && (!args.dryRun && !p.failed ==>
                  && res.report.applied == ApplyAll(ProgressFrom(old(db.Money())), ds, ids).applied
                  && res.report.alreadyApplied == ApplyAll(ProgressFrom(old(db.Money())), ds, ids).already
                  && db.reconcileStates == old(db.reconcileStates)[gatewayId :=
                       NextState(state, NextWatermark(floor.value, NewestOf(p.logs), args.now),
                                 if p.logs == [] then None else Some(p.logs[|p.logs| - 1].id),
                                 args.now, |p.logs|, res.report.applied)]))
  {
    hide ApplyOne, ApplyAll, DecideAll, Decide, Paging, CountsOf, Unmatched, EventsBetween, SeenIds, RowFindings,
      SumGateway, NextWatermark, NextState, Floor, PerPage, MaxRows, Genuine, Sum, Pick;
    ds := [];
    var state := if gatewayId in db.reconcileStates then Some(db.reconcileStates[gatewayId]) else None;
    var before := if state.Some? then state.value.watermark else None;
    var floor := Floor(state, args);
    if floor.None? {
      res := NoFloor;
      return;
    }
    var p, applied, already;
    ds, p, applied, already := PageThrough(db, feed, bound, floor.value, args, ids);
    if p.failed {
      res := UpstreamFailed;
      return;
    }
    var totals := Tally(ds);
    RowsReported(p.logs, db.events);
    UnmatchedExactlyWhen(db.events, p.logs, db.events, floor.value, Ceiling(args.now));
    var advance := NextWatermark(floor.value, NewestOf(p.logs), args.now);
    var unmatched := Unmatched(EventsBetween(db.events, floor.value, Ceiling(args.now), MAX_REVERSE_CHECK_ROWS), SeenIds(ds));
    var findings := RowFindings(ds)
      + (if p.malformed > 0 then [MalformedFinding(p.malformed)] else [])
      + (if |unmatched| > 0 then [UnmatchedFinding(|unmatched|)] else []);
    var billed := SumGateway(ds);
    var drift := billed > 0 && 20 * (totals.spend + totals.credit) > billed;
    res := Completed(Report(args.dryRun, floor.value, Ceiling(args.now), before, if args.dryRun then None else advance,
                            p.pages, p.truncated, p.malformed, applied, already, totals, drift, unmatched, findings));
    if !args.dryRun {
      db.AdvanceReconcileState(gatewayId, advance, LastIdOf(p.logs), args.now, totals.rows, applied);
    }
  }
}
