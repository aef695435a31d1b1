/**
 The first true-up of a period (src/reconcile-run.ts:231-252): one batch of decisions, none written
 before, applied to a ledger that stands still meanwhile.
 */
module FirstTrueUp {
  import opened Wrappers
  import opened Sums
  import opened Ledger
  import opened Calls
  import opened Store
  import opened Reconcile
  import opened ReconcileRun
  import opened Truth

  /** One decision's true-up moves its own period's figure by billed minus estimated, whenever it runs. */
  lemma OneTrueUp(p: Progress, d: DecidedRow, ids: nat -> string, account: string, period: string)
    requires Genuine(d) && ApplyOne(p, d, ids).already == p.already
    ensures Reconciled(ApplyOne(p, d, ids).tables, account, period)
         == Reconciled(p.tables, account, period)
            + if Concerns(d, account, period) then Billed(d.outcome) - Estimate(d.outcome.event) else 0
  {
    if d.outcome.Adjust? {
      var r := ToAdjustment(d.log, d.outcome, ids(p.minted));
      CompletedAdjust(p.tables, r);
      TrueUpMovesPeriod(p.tables.(adjustments := p.tables.adjustments + [r]), r, account, period);
    }
  }

  lemma TrueUpMovesPeriod(t: Tables, r: Adjustment, account: string, period: string)
    ensures Reconciled(MoneyBatch(t, r), account, period)
         == Reconciled(t, account, period)
            + if r.accountId == account && r.periodKey == period
              then (if r.direction.Spend? then r.applied else -r.applied) else 0
  {
  }

  lemma {:induction false} AlreadyGrows(p: Progress, ds: seq<DecidedRow>, ids: nat -> string)
    ensures ApplyAll(p, ds, ids).already >= p.already
  {
    if ds != [] { AlreadyGrows(p, ds[..|ds| - 1], ids); }
  }

  /**
   For any decisions none of which had been written before (the report's already-applied count is zero):
   each period's figure moves by what was billed minus what had been estimated for its compared rows.
   A request with several gateway rows is counted once per row.
   */
  lemma {:induction false} TrueUpsNetOut(p: Progress, ds: seq<DecidedRow>, ids: nat -> string, account: string, period: string)
    requires forall d :: d in ds ==> Genuine(d)
    requires ApplyAll(p, ds, ids).already == p.already
    ensures Reconciled(ApplyAll(p, ds, ids).tables, account, period)
         == Reconciled(p.tables, account, period)
            + GatewayIn(ds, account, period) - SumEstimates(ComparedIn(ds, account, period))
  {
    if ds != [] {
      hide ApplyOne, Reconciled;
      var init, d := ds[..|ds| - 1], ds[|ds| - 1];
      assert d in ds;
      AlreadyGrows(p, init, ids);
      AlreadyGrows(ApplyAll(p, init, ids), [d], ids);
      ApplyAllAppend(ApplyAll(p, init, ids), [], d, ids);
      TrueUpsNetOut(p, init, ids, account, period);
      OneTrueUp(ApplyAll(p, init, ids), d, ids, account, period);
      SumConcat(ComparedIn(init, account, period), if Concerns(d, account, period) then [d.outcome.event] else [], Estimate);
      if Concerns(d, account, period) { SumOfOne(d.outcome.event, Estimate); }
    }
  }

  /** A period not yet trued up, whose metered figure is what its ledger rows say. */
  ghost predicate Untouched(t: Tables, account: string, period: string) {
    Reconciled(t, account, period) == EventsAudit(t.events, PeriodCol(account, period, MicroUsd))
  }

  /** From an untouched period, with nothing written before: how the figure ends, and when it is the biller's. */
  lemma FromAnUntouchedPeriod(p: Progress, ds: seq<DecidedRow>, ids: nat -> string, account: string, period: string)
    requires (forall d :: d in ds ==> Genuine(d)) && ApplyAll(p, ds, ids).already == p.already
    requires Untouched(p.tables, account, period)
    ensures Reconciled(ApplyAll(p, ds, ids).tables, account, period)
         == GatewayIn(ds, account, period)
            + SumEstimates(EventsIn(p.tables.events, account, period)) - SumEstimates(ComparedIn(ds, account, period))
  {
    TrueUpsNetOut(p, ds, ids, account, period);
    MeteredIsEstimates(p.tables.events, account, period);
  }

  // ---- nothing is written twice when gateway rows are distinct and row ids are new ----

  /** No adjustment is stored yet under any of these gateway rows' keys. */
  predicate NotYetAdjusted(t: Tables, logs: seq<GatewayLog>) {
    forall r, i :: r in t.adjustments && 0 <= i < |logs| ==> r.key != AdjustmentKey(logs[i].id)
  }

  /** Row ids to come are distinct, and new to the table. */
  ghost predicate UnusedIds(t: Tables, ids: nat -> string, from: nat) {
    && (forall m: nat, n: nat :: from <= m < n ==> ids(m) != ids(n))
    && (forall r, n: nat :: r in t.adjustments && from <= n ==> r.id != ids(n))
  }

  /** A row that was there before, or one this pass wrote. */
  ghost predicate Traced(p: Progress, q: Progress, ds: seq<DecidedRow>, ids: nat -> string, r: Adjustment) {
    r in p.tables.adjustments
    || ((exists i :: 0 <= i < |ds| && r.key == AdjustmentKey(ds[i].log.id))
        && (exists n: nat :: p.minted <= n < q.minted && r.id == ids(n)))
  }

  lemma WritesOneRow(p: Progress, d: DecidedRow, ids: nat -> string)
    ensures var q := ApplyOne(p, d, ids);
      var r := if d.outcome.Adjust? then Some(ToAdjustment(d.log, d.outcome, ids(p.minted))) else None;
      if r.None? then q == p
      else
        && q.minted == p.minted + 1
        && (HasAdjustment(p.tables.adjustments, r.value) ==>
              q.already == p.already + 1 && q.tables.adjustments == p.tables.adjustments)
        && (!HasAdjustment(p.tables.adjustments, r.value) ==>
              q.already == p.already && q.tables.adjustments == p.tables.adjustments + [r.value])
  {
    if d.outcome.Adjust? {
      var r := ToAdjustment(d.log, d.outcome, ids(p.minted));
      CompletedAdjust(p.tables, r);
    }
  }

  lemma {:induction false} NothingTwice(p: Progress, ds: seq<DecidedRow>, ids: nat -> string)
    requires forall i, j :: 0 <= i < j < |ds| ==> ds[i].log.id != ds[j].log.id
    requires forall r, i :: r in p.tables.adjustments && 0 <= i < |ds| ==> r.key != AdjustmentKey(ds[i].log.id)
    requires UnusedIds(p.tables, ids, p.minted)
    ensures var q := ApplyAll(p, ds, ids);
      q.already == p.already && q.minted >= p.minted && forall r :: r in q.tables.adjustments ==> Traced(p, q, ds, ids, r)
  {
    hide ApplyOne, AdjustmentKey, Complete;
    if |ds| > 0 {
      var before, d := ds[..|ds| - 1], ds[|ds| - 1];
      NothingTwice(p, before, ids);
      var q := ApplyAll(p, before, ids);
      var q' := ApplyAll(p, ds, ids);
      WritesOneRow(q, d, ids);
      assert q'.minted >= q.minted;
      forall r | r in q.tables.adjustments
        ensures Traced(p, q', ds, ids, r) && (r.key != AdjustmentKey(d.log.id) && r.id != ids(q.minted))
      {
        assert Traced(p, q, before, ids, r);
        if r !in p.tables.adjustments {
          var i :| 0 <= i < |before| && r.key == AdjustmentKey(before[i].log.id);
          KeysAreDistinct(before[i].log.id, d.log.id);
          assert ds[i] == before[i];
        }
      }
      if d.outcome.Adjust? {
        var r := ToAdjustment(d.log, d.outcome, ids(q.minted));
        assert !HasAdjustment(q.tables.adjustments, r);
        assert ds[|before|] == d && r.key == AdjustmentKey(ds[|before|].log.id) && r.id == ids(q.minted);
        assert Traced(p, q', ds, ids, r);
      }
    }
  }

  lemma FirstTimeApplied(p: Progress, logs: seq<GatewayLog>, ids: nat -> string)
    requires DistinctRows(logs) && NotYetAdjusted(p.tables, logs) && UnusedIds(p.tables, ids, p.minted)
    ensures ApplyAll(p, DecideAll(logs, p.tables.events), ids).already == p.already
  {
    var ds := DecideAll(logs, p.tables.events);
    forall i | 0 <= i < |ds| ensures ds[i].log == logs[i] { }
    NothingTwice(p, ds, ids);
  }

  // ---- a period is untouched after any quiet history that has not trued it up ----

  predicate NeverTruedUp(t: Tables, account: string, period: string) {
    forall r :: r in t.adjustments ==> !TrueUpOf(r, account, period)
  }

  lemma {:induction false} NoTrueUpsThere(rows: seq<Adjustment>, account: string, period: string)
    requires forall r :: r in rows ==> !TrueUpOf(r, account, period)
    ensures TrueUpsIn(rows, account, period) == []
  {
    if |rows| > 0 {
      assert rows[|rows| - 1] in rows;
      NoTrueUpsThere(rows[..|rows| - 1], account, period);
    }
  }

  lemma QuietHistoryLeavesUntouched(actions: seq<Action>, account: string, period: string)
    requires SoundActions(actions) && Calm(Calls.Run(BOOT, actions))
    requires NeverTruedUp(Calls.Run(BOOT, actions).tables, account, period)
    ensures Untouched(Calls.Run(BOOT, actions).tables, account, period)
  {
    hide Calls.Run, SoundActions, Reconciled, Outstanding;
    var t := Calls.Run(BOOT, actions).tables;
    PublishedFigure(actions, account, period);
    CalmOwesNothing(Calls.Run(BOOT, actions), account, period);
    NoTrueUpsThere(t.adjustments, account, period);
    MeteredIsEstimates(t.events, account, period);
  }

  /** Everything a first reconciliation of a period starts from. */
  ghost predicate AboutToTrueUp(actions: seq<Action>, logs: seq<GatewayLog>, ids: nat -> string, account: string, period: string) {
    var s := Calls.Run(BOOT, actions);
    && SoundActions(actions) && Calm(s) && NeverTruedUp(s.tables, account, period)
    && DistinctRows(logs) && NotYetAdjusted(s.tables, logs) && UnusedIds(s.tables, ids, 0)
  }

  /**
   After any quiet, crash-free history, truing up a period for the first time from distinct gateway rows
   makes its published figure the biller's exactly when the compared rows' estimates add up to what the
   period had metered.
   */
  lemma FirstTrueUpIsBilledExactlyWhen(actions: seq<Action>, logs: seq<GatewayLog>, ids: nat -> string,
                                       account: string, period: string)
    requires AboutToTrueUp(actions, logs, ids, account, period)
    ensures var t := Calls.Run(BOOT, actions).tables;
      var ds := DecideAll(logs, t.events);
      Reconciled(ApplyAll(ProgressFrom(t), ds, ids).tables, account, period) == GatewayIn(ds, account, period)
      <==> SumEstimates(ComparedIn(ds, account, period)) == SumEstimates(EventsIn(t.events, account, period))
  {
    hide ApplyAll, DecideAll, Reconciled, UnusedIds, NotYetAdjusted, Untouched, Calls.Run;
    var t := Calls.Run(BOOT, actions).tables;
    QuietHistoryLeavesUntouched(actions, account, period);
    FirstTimeApplied(ProgressFrom(t), logs, ids);
    DecisionsAreGenuine(logs, t.events);
    FromAnUntouchedPeriod(ProgressFrom(t), DecideAll(logs, t.events), ids, account, period);
  }

  /** In particular when each ledger row of the period was compared with exactly one gateway row. */
  lemma FirstTrueUpTruth(actions: seq<Action>, logs: seq<GatewayLog>, ids: nat -> string, account: string, period: string)
    requires AboutToTrueUp(actions, logs, ids, account, period)
    requires var t := Calls.Run(BOOT, actions).tables;
      multiset(ComparedIn(DecideAll(logs, t.events), account, period)) == multiset(EventsIn(t.events, account, period))
    ensures var t := Calls.Run(BOOT, actions).tables;
      var ds := DecideAll(logs, t.events);
      Reconciled(ApplyAll(ProgressFrom(t), ds, ids).tables, account, period) == GatewayIn(ds, account, period)
  {
    hide ApplyAll, DecideAll, Reconciled, AboutToTrueUp, Calls.Run;
    var t := Calls.Run(BOOT, actions).tables;
    SumIsOrderFree(ComparedIn(DecideAll(logs, t.events), account, period), EventsIn(t.events, account, period), Estimate);
    FirstTrueUpIsBilledExactlyWhen(actions, logs, ids, account, period);
  }

  // ---- several gateway rows for one request ----

  /** A gateway row that names a ledger row and can be compared with it. */
  predicate Prices(l: GatewayLog, e: UsageEvent) {
    l.requestId == Some(e.requestId) && e.requestId != "" && !l.cached && l.cost.Some? && l.accountId == Some(e.accountId)
  }

  lemma OneComparison(l: GatewayLog, e: UsageEvent)
    requires Prices(l, e)
    ensures var d := Decide(l, [e]);
      && d.log == l && Genuine(d) && Compared(d.outcome) && d.outcome.event == e && Billed(d.outcome) == l.cost.value
  {
    assert FindEvent([e], e.requestId) == Some(e);
    assert Decide(l, [e]).outcome == DecideAdjustment(l, Some(e));
  }

  /** One ledger row compared with two gateway rows. */
  lemma TwoComparisons(e: UsageEvent, a: GatewayLog, b: GatewayLog)
    requires Prices(a, e) && Prices(b, e)
    ensures var ds := DecideAll([a, b], [e]);
      && (forall d :: d in ds ==> Genuine(d))
      && GatewayIn(ds, e.accountId, e.periodKey) == a.cost.value + b.cost.value
      && ComparedIn(ds, e.accountId, e.periodKey) == [e, e]
  {
    hide Decide, Billed, Genuine;
    var ds := [Decide(a, [e]), Decide(b, [e])];
    OneComparison(a, e);
    OneComparison(b, e);
    assert DecideAll([a, b], [e]) == ds by { assert [a, b][..1] == [a] && [a][..0] == []; }
    assert ds[..1] == [ds[0]] && [ds[0]][..0] == [];
    assert GatewayIn([ds[0]], e.accountId, e.periodKey) == a.cost.value;
    PickOfTwo(ds[0], ds[1], EventCompared(e.accountId, e.periodKey));
  }

  /** The figure is then the two costs less the estimate, once too few. */
  lemma TwoRowsLoneRequest(p: Progress, e: UsageEvent, a: GatewayLog, b: GatewayLog, ids: nat -> string)
    requires p.tables.events == [e] && Untouched(p.tables, e.accountId, e.periodKey)
    requires Prices(a, e) && Prices(b, e) && a.id != b.id
    requires NotYetAdjusted(p.tables, [a, b]) && UnusedIds(p.tables, ids, p.minted)
    ensures var ds := DecideAll([a, b], [e]);
      var r := Reconciled(ApplyAll(p, ds, ids).tables, e.accountId, e.periodKey);
      && GatewayIn(ds, e.accountId, e.periodKey) == a.cost.value + b.cost.value
      && r == a.cost.value + b.cost.value - Estimate(e)
      && (r == GatewayIn(ds, e.accountId, e.periodKey) <==> Estimate(e) == 0)
  {
    hide ApplyAll, DecideAll, Reconciled, Untouched, NotYetAdjusted, UnusedIds, Estimate, GatewayIn, ComparedIn, Genuine, Pick;
    TwoComparisons(e, a, b);
    FirstTimeApplied(p, [a, b], ids);
    FromAnUntouchedPeriod(p, DecideAll([a, b], [e]), ids, e.accountId, e.periodKey);
    PickOfOne(e, EventWithin(e.accountId, e.periodKey));
    assert [e, e] == [e] + [e];
    SumConcat([e], [e], Estimate);
    SumOfOne(e, Estimate);
  }

  // One request estimated at 10 micro-USD, and two gateway rows for it, billed 12 and 15.
  const ESTIMATED := UsageEvent("u", "req", "acct", "client", "2026-08", 10, 0, 10, true, Measured, 0)
  const BILLED_12 := GatewayLog("g1", 1, false, Some(12), Some("req"), Some("acct"))
  const BILLED_15 := GatewayLog("g2", 2, false, Some(15), Some("req"), Some("acct"))
  const ONE_REQUEST := Tables(
    map["acct" := Account(100, 10)], map[("acct", "2026-08") := Period(10, 1, 0, 0, 0, 0)], [ESTIMATED], [], [])

  lemma OneRequestIsUntouched()
    ensures Untouched(ONE_REQUEST, "acct", "2026-08")
  {
    assert [ESTIMATED][..0] == [];
  }

  /** 27 are billed; 17 are published. */
  lemma SeveralGatewayRowsCountEach(ids: nat -> string)
    requires forall m: nat, n: nat :: m < n ==> ids(m) != ids(n)
    ensures var ds := DecideAll([BILLED_12, BILLED_15], ONE_REQUEST.events);
      && Reconciled(ApplyAll(ProgressFrom(ONE_REQUEST), ds, ids).tables, "acct", "2026-08") == 17
      && GatewayIn(ds, "acct", "2026-08") == 27
  {
    hide ApplyAll, DecideAll, Reconciled, Untouched, GatewayIn;
    OneRequestIsUntouched();
    TwoRowsLoneRequest(ProgressFrom(ONE_REQUEST), ESTIMATED, BILLED_12, BILLED_15, ids);
  }
}
