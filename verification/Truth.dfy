/**
 What the true-ups achieve (src/reconcile.ts:157-174, src/reconcile-run.ts:231-252, src/routes/account.ts:81-89):
 a period's reconciled figure is what the biller charged for it, and a dry run foretells a live one.
 */
module Truth {
  import opened Wrappers
  import opened Sums
  import opened Ledger
  import opened Calls
  import opened Store
  import opened Reconcile
  import opened ReconcileRun
  import Pools

  /** period_reconciled_micro_usd as the account route publishes it. */
  function Reconciled(t: Tables, account: string, period: string): int {
    var p := PeriodOf(t, account, period);
    p.microUsd + p.adjustSpend - p.adjustCredit
  }

  predicate Concerns(d: DecidedRow, account: string, period: string) {
    Compared(d.outcome) && d.outcome.event.accountId == account && d.outcome.event.periodKey == period
  }

  function Billed(o: Outcome): int
    requires Compared(o)
  {
    match o
    case Adjust(_, _, _, _, gateway, _) => gateway
    case InAgreement(microUsd, _) => microUsd
  }

  /** What the biller charged for a period's compared rows, and what the ledger had estimated. */
  function GatewayIn(ds: seq<DecidedRow>, account: string, period: string): int {
    if ds == [] then 0
    else GatewayIn(ds[..|ds| - 1], account, period) +
         (if Concerns(ds[|ds| - 1], account, period) then Billed(ds[|ds| - 1].outcome) else 0)
  }

  function EventCompared(account: string, period: string): DecidedRow -> Option<UsageEvent> {
    (d: DecidedRow) => if Concerns(d, account, period) then Some(d.outcome.event) else None
  }

  function ComparedIn(ds: seq<DecidedRow>, account: string, period: string): seq<UsageEvent> {
    Pick(ds, EventCompared(account, period))
  }

  function EventWithin(account: string, period: string): UsageEvent -> Option<UsageEvent> {
    (e: UsageEvent) => if e.accountId == account && e.periodKey == period then Some(e) else None
  }

  function EventsIn(rows: seq<UsageEvent>, account: string, period: string): seq<UsageEvent> {
    Pick(rows, EventWithin(account, period))
  }

  function SumEstimates(rows: seq<UsageEvent>): int { Sum(rows, Estimate) }

  lemma {:induction false} MeteredIsEstimates(rows: seq<UsageEvent>, account: string, period: string)
    ensures EventsAudit(rows, PeriodCol(account, period, MicroUsd)) == SumEstimates(EventsIn(rows, account, period))
  {
    if rows != [] {
      MeteredIsEstimates(rows[..|rows| - 1], account, period);
      var e := rows[|rows| - 1];
      SumConcat(EventsIn(rows[..|rows| - 1], account, period),
                if e.accountId == account && e.periodKey == period then [e] else [], Estimate);
      SumOfOne(e, Estimate);
    }
  }

  // ---- the published figure of any history ----

  /** The money a true-up moves, signed. */
  function Signed(r: Adjustment): int { if r.direction.Spend? then r.applied else -r.applied }

  /** A true-up row without its minted id. */
  function Unnamed(r: Adjustment): Adjustment { r.(id := "") }

  predicate TrueUpOf(r: Adjustment, account: string, period: string) { r.accountId == account && r.periodKey == period }

  function TrueUpWithin(account: string, period: string): Adjustment -> Option<Adjustment> {
    (r: Adjustment) => if TrueUpOf(r, account, period) then Some(Unnamed(r)) else None
  }

  function TrueUpsIn(rows: seq<Adjustment>, account: string, period: string): seq<Adjustment> {
    Pick(rows, TrueUpWithin(account, period))
  }

  /** What a period's figure still lacks: money in flight, or lost by calls that died. */
  function Outstanding(s: System, account: string, period: string): int {
    Unmoved(s, PeriodCol(account, period, MicroUsd)) + Unmoved(s, PeriodCol(account, period, AdjustSpend))
    - Unmoved(s, PeriodCol(account, period, AdjustCredit))
  }

  function Unmoved(s: System, c: Column): int { InFlight(s.calls, c) + Total(s.lost, c) }

  lemma TrueUpOwes(r: Adjustment, account: string, period: string)
    ensures AdjustmentOwes(r, PeriodCol(account, period, AdjustSpend))
            - AdjustmentOwes(r, PeriodCol(account, period, AdjustCredit))
         == if TrueUpOf(r, account, period) then Signed(r) else 0
    ensures AdjustmentOwes(r, PeriodCol(account, period, MicroUsd)) == 0
  {
  }

  lemma {:induction false} TrueUpsOwe(rows: seq<Adjustment>, account: string, period: string)
    ensures AdjustmentsAudit(rows, PeriodCol(account, period, AdjustSpend))
            - AdjustmentsAudit(rows, PeriodCol(account, period, AdjustCredit))
         == Sum(TrueUpsIn(rows, account, period), Signed)
    ensures AdjustmentsAudit(rows, PeriodCol(account, period, MicroUsd)) == 0
  {
    if rows != [] {
      hide AdjustmentOwes;
      var init, r := rows[..|rows| - 1], rows[|rows| - 1];
      TrueUpOwes(r, account, period);
      TrueUpsOwe(init, account, period);
      SumConcat(TrueUpsIn(init, account, period), if TrueUpOf(r, account, period) then [Unnamed(r)] else [], Signed);
      SumOfOne(Unnamed(r), Signed);
    }
  }

  lemma {:induction false} EventsOweNoTrueUps(rows: seq<UsageEvent>, account: string, period: string)
    ensures EventsAudit(rows, PeriodCol(account, period, AdjustSpend)) == 0
    ensures EventsAudit(rows, PeriodCol(account, period, AdjustCredit)) == 0
  {
    if |rows| > 0 { EventsOweNoTrueUps(rows[..|rows| - 1], account, period); }
  }

  /** Credit advanced without its grant row is the only money no audit row explains, and no period holds any. */
  ghost predicate UnbackedIsCredit(s: System) {
    forall i :: 0 <= i < |s.unbacked| ==> s.unbacked[i].LostAmount? && s.unbacked[i].column.CreditCol?
  }

  lemma {:induction false} UnbackedStaysCredit(s: System, actions: seq<Action>)
    requires UnbackedIsCredit(s)
    ensures UnbackedIsCredit(Calls.Run(s, actions))
    decreases |actions|
  {
    if actions != [] { UnbackedStaysCredit(Calls.Step(s, actions[0]), actions[1..]); }
  }

  lemma {:induction false} CreditOwesNoPeriod(ls: seq<Loss>, c: Column)
    requires forall i :: 0 <= i < |ls| ==> ls[i].LostAmount? && ls[i].column.CreditCol?
    requires c.PeriodCol?
    ensures Total(ls, c) == 0
  {
    if ls != [] { CreditOwesNoPeriod(ls[..|ls| - 1], c); }
  }

  lemma PeriodColumn(actions: seq<Action>, c: Column)
    requires SoundActions(actions) && c.PeriodCol?
    ensures var s := Calls.Run(BOOT, actions);
      Value(s.tables, c) + Unmoved(s, c) == EventsAudit(s.tables.events, c) + AdjustmentsAudit(s.tables.adjustments, c)
  {
    hide Value, EventsAudit, AdjustmentsAudit, InFlight;
    var s := Calls.Run(BOOT, actions);
    BootConserved();
    MoneyIsConserved(BOOT, actions);
    assert Balanced(s, c);
    UnbackedStaysCredit(BOOT, actions);
    CreditOwesNoPeriod(s.unbacked, c);
    Pools.GrantsOwePeriodsNothing(s.tables.grants, c);
  }

  /**
   At every moment of any history, crashes included: the published figure and what is still outstanding
   are the period's estimates plus its true-ups.
   */
  lemma PublishedFigure(actions: seq<Action>, account: string, period: string)
    requires SoundActions(actions)
    ensures var s := Calls.Run(BOOT, actions);
      Reconciled(s.tables, account, period) + Outstanding(s, account, period)
      == SumEstimates(EventsIn(s.tables.events, account, period))
         + Sum(TrueUpsIn(s.tables.adjustments, account, period), Signed)
  {
    hide Calls.Run, SoundActions, InFlight, Total;
    var t := Calls.Run(BOOT, actions).tables;
    PeriodColumn(actions, PeriodCol(account, period, MicroUsd));
    PeriodColumn(actions, PeriodCol(account, period, AdjustSpend));
    PeriodColumn(actions, PeriodCol(account, period, AdjustCredit));
    MeteredIsEstimates(t.events, account, period);
    EventsOweNoTrueUps(t.events, account, period);
    TrueUpsOwe(t.adjustments, account, period);
  }

  /** Quiescent and crash-free. */
  ghost predicate Calm(s: System) { Quiet(s.calls) && s.lost == [] && s.unbacked == [] }

  lemma CalmOwesNothing(s: System, account: string, period: string)
    requires Quiet(s.calls) && s.lost == []
    ensures Outstanding(s, account, period) == 0
  {
    QuietOwesNothing(s.calls, PeriodCol(account, period, MicroUsd));
    QuietOwesNothing(s.calls, PeriodCol(account, period, AdjustSpend));
    QuietOwesNothing(s.calls, PeriodCol(account, period, AdjustCredit));
  }

  // ---- the true-ups a list of decisions asks for ----

  predicate DistinctRows(logs: seq<GatewayLog>) { forall i, j :: 0 <= i < j < |logs| ==> logs[i].id != logs[j].id }

  function TrueUpRow(d: DecidedRow): Adjustment
    requires d.outcome.Adjust?
  {
    ToAdjustment(d.log, d.outcome, "")
  }

  function TrueUpAsked(account: string, period: string): DecidedRow -> Option<Adjustment> {
    (d: DecidedRow) => if Concerns(d, account, period) && d.outcome.Adjust? then Some(TrueUpRow(d)) else None
  }

  function RowsOf(ds: seq<DecidedRow>, account: string, period: string): seq<Adjustment> {
    Pick(ds, TrueUpAsked(account, period))
  }

  lemma DecisionsAreGenuine(logs: seq<GatewayLog>, events: seq<UsageEvent>)
    ensures forall d :: d in DecideAll(logs, events) ==> Genuine(d)
  {
    var ds := DecideAll(logs, events);
    forall d | d in ds ensures Genuine(d) {
      var i :| 0 <= i < |ds| && ds[i] == d;
      assert d == Decide(logs[i], events);
    }
  }

  lemma OneDecisionNetsOut(d: DecidedRow)
    requires Genuine(d) && Compared(d.outcome)
    ensures (if d.outcome.Adjust? then Signed(TrueUpRow(d)) else 0) == Billed(d.outcome) - Estimate(d.outcome.event)
  {
  }

  lemma {:induction false} DecisionsNetOut(ds: seq<DecidedRow>, account: string, period: string)
    requires forall d :: d in ds ==> Genuine(d)
    ensures Sum(RowsOf(ds, account, period), Signed)
         == GatewayIn(ds, account, period) - SumEstimates(ComparedIn(ds, account, period))
  {
    if ds != [] {
      hide Genuine, Billed, Signed, Estimate;
      var init, d := ds[..|ds| - 1], ds[|ds| - 1];
      assert d in ds;
      DecisionsNetOut(init, account, period);
      if Concerns(d, account, period) {
        OneDecisionNetsOut(d);
        SumConcat(ComparedIn(init, account, period), [d.outcome.event], Estimate);
        SumOfOne(d.outcome.event, Estimate);
        if d.outcome.Adjust? {
          SumConcat(RowsOf(init, account, period), [TrueUpRow(d)], Signed);
          SumOfOne(TrueUpRow(d), Signed);
        } else {
          assert RowsOf(ds, account, period) == RowsOf(init, account, period);
        }
      } else {
        assert RowsOf(ds, account, period) == RowsOf(init, account, period);
        assert ComparedIn(ds, account, period) == ComparedIn(init, account, period);
      }
    }
  }

  /** The period's stored true-ups are, in whatever order and under whatever ids, what these decisions ask for. */
  ghost predicate Explains(ds: seq<DecidedRow>, t: Tables, account: string, period: string) {
    && (forall d :: d in ds ==> Genuine(d))
    && multiset(RowsOf(ds, account, period)) == multiset(TrueUpsIn(t.adjustments, account, period))
  }

  /** Any history, any decisions behind its true-ups: the figure, and what it is short of. */
  lemma ReconciledFigure(actions: seq<Action>, ds: seq<DecidedRow>, account: string, period: string)
    requires SoundActions(actions) && Explains(ds, Calls.Run(BOOT, actions).tables, account, period)
    ensures var s := Calls.Run(BOOT, actions);
      Reconciled(s.tables, account, period) + Outstanding(s, account, period)
      == GatewayIn(ds, account, period) + SumEstimates(EventsIn(s.tables.events, account, period))
         - SumEstimates(ComparedIn(ds, account, period))
  {
    hide Calls.Run, SoundActions, Outstanding, Reconciled;
    PublishedFigure(actions, account, period);
    DecisionsNetOut(ds, account, period);
    SumIsOrderFree(RowsOf(ds, account, period), TrueUpsIn(Calls.Run(BOOT, actions).tables.adjustments, account, period), Signed);
  }

  /**
   In every quiescent crash-free history the published figure is the biller's exactly when the estimates
   of the compared rows add up to those of the period.
   */
  lemma ReconciledIsBilledExactlyWhen(actions: seq<Action>, ds: seq<DecidedRow>, account: string, period: string)
    requires SoundActions(actions) && Calm(Calls.Run(BOOT, actions))
    requires Explains(ds, Calls.Run(BOOT, actions).tables, account, period)
    ensures var t := Calls.Run(BOOT, actions).tables;
      Reconciled(t, account, period) == GatewayIn(ds, account, period)
      <==> SumEstimates(ComparedIn(ds, account, period)) == SumEstimates(EventsIn(t.events, account, period))
  {
    hide Calls.Run, SoundActions, Outstanding, Reconciled, Explains;
    ReconciledFigure(actions, ds, account, period);
    CalmOwesNothing(Calls.Run(BOOT, actions), account, period);
  }

  /** In particular when each ledger row of the period was compared with exactly one gateway row. */
  lemma ReconciledTruth(actions: seq<Action>, ds: seq<DecidedRow>, account: string, period: string)
    requires SoundActions(actions) && Calm(Calls.Run(BOOT, actions))
    requires var t := Calls.Run(BOOT, actions).tables;
      && Explains(ds, t, account, period)
      && multiset(ComparedIn(ds, account, period)) == multiset(EventsIn(t.events, account, period))
    ensures Reconciled(Calls.Run(BOOT, actions).tables, account, period) == GatewayIn(ds, account, period)
  {
    hide Calls.Run, SoundActions, Reconciled, Explains;
    SumIsOrderFree(ComparedIn(ds, account, period), EventsIn(Calls.Run(BOOT, actions).tables.events, account, period), Estimate);
    ReconciledIsBilledExactlyWhen(actions, ds, account, period);
  }

  /**
   Otherwise it is off by the estimates of the rows compared more than once (too low) and of those never
   compared (too high).
   */
  lemma OffByTheMiscounted(actions: seq<Action>, ds: seq<DecidedRow>, again: seq<UsageEvent>, never: seq<UsageEvent>,
                           account: string, period: string)
    requires SoundActions(actions) && Calm(Calls.Run(BOOT, actions))
    requires var t := Calls.Run(BOOT, actions).tables;
      && Explains(ds, t, account, period)
      && multiset(ComparedIn(ds, account, period) + never) == multiset(EventsIn(t.events, account, period) + again)
    ensures Reconciled(Calls.Run(BOOT, actions).tables, account, period)
         == GatewayIn(ds, account, period) - SumEstimates(again) + SumEstimates(never)
  {
    hide Calls.Run, SoundActions, Reconciled, Explains, Outstanding;
    var t := Calls.Run(BOOT, actions).tables;
    ReconciledFigure(actions, ds, account, period);
    CalmOwesNothing(Calls.Run(BOOT, actions), account, period);
    SumIsOrderFree(ComparedIn(ds, account, period) + never, EventsIn(t.events, account, period) + again, Estimate);
    SumConcat(ComparedIn(ds, account, period), never, Estimate);
    SumConcat(EventsIn(t.events, account, period), again, Estimate);
  }

  /** One request with two gateway rows: the figure is the biller's exactly when its estimate was zero. */
  lemma TwoRowsOneRequest(actions: seq<Action>, ds: seq<DecidedRow>, e: UsageEvent)
    requires SoundActions(actions) && Calm(Calls.Run(BOOT, actions))
    requires var t := Calls.Run(BOOT, actions).tables;
      && Explains(ds, t, e.accountId, e.periodKey)
      && multiset(ComparedIn(ds, e.accountId, e.periodKey)) == multiset(EventsIn(t.events, e.accountId, e.periodKey) + [e])
    ensures var r := Reconciled(Calls.Run(BOOT, actions).tables, e.accountId, e.periodKey);
      && r == GatewayIn(ds, e.accountId, e.periodKey) - Estimate(e)
      && (r == GatewayIn(ds, e.accountId, e.periodKey) <==> Estimate(e) == 0)
  {
    hide Calls.Run, SoundActions, Reconciled, Explains, Calm;
    assert ComparedIn(ds, e.accountId, e.periodKey) + [] == ComparedIn(ds, e.accountId, e.periodKey);
    OffByTheMiscounted(actions, ds, [e], [], e.accountId, e.periodKey);
    SumOfOne(e, Estimate);
  }

  // ---- a dry run foretells the live run ----

  lemma ReportIsDetermined(r: Report, s: Report, a: Args, floor: int, before: Option<int>, p: Paged,
                           ds: seq<DecidedRow>, events: seq<UsageEvent>)
    requires ReportsOn(r, a.(dryRun := true), floor, before, p, ds, events)
    requires ReportsOn(s, a.(dryRun := false), floor, before, p, ds, events)
    ensures Preview(r) == Preview(s)
  {
  }

  /**
   The same arguments first dry, then live: the dry run leaves every table as it was, and totals, findings,
   unmatched rows and every decision are those of the live run that follows.
   */
  method PreviewThenRun(db: Db, gatewayId: string, feed: Feed, ghost bound: nat, args: Args, ids: nat -> string)
    returns (dry: RunResult, dryDecisions: seq<DecidedRow>, live: RunResult, decisions: seq<DecidedRow>)
    requires Bounded(feed, bound)
    modifies db`accounts, db`periods, db`grants, db`adjustments, db`reconcileStates
    ensures dry.Completed? <==> live.Completed?
    ensures dry.Completed? ==> dryDecisions == decisions && Preview(dry.report) == Preview(live.report)
    ensures dry.Completed? ==> db.Money() == ApplyAll(ProgressFrom(old(db.Money())), dryDecisions, ids).tables
  {
    hide ApplyAll, ApplyOne, DecideAll, Paging, ReportsOn, Floor, NextState, Preview;
    dry, dryDecisions := RunReconcile(db, gatewayId, feed, bound, args.(dryRun := true), ids);
    assert db.Money() == old(db.Money()) && db.reconcileStates == old(db.reconcileStates);
    live, decisions := RunReconcile(db, gatewayId, feed, bound, args.(dryRun := false), ids);
    var state := old(Look(db.reconcileStates, gatewayId));
    FloorIgnoresMode(state, args);
    if dry.Completed? {
      var floor := Floor(state, args.(dryRun := true)).value;
      ReportIsDetermined(dry.report, live.report, args, floor,
                         if state.Some? then state.value.watermark else None,
                         Paging(feed, bound, floor, 1, PerPage(args), MaxRows(args), Ceiling(args.now)),
                         decisions, db.events);
    }
  }

  lemma FloorIgnoresMode(state: Option<ReconcileState>, args: Args)
    ensures Floor(state, args.(dryRun := true)) == Floor(state, args.(dryRun := false))
    ensures PerPage(args.(dryRun := true)) == PerPage(args) && MaxRows(args.(dryRun := true)) == MaxRows(args)
    ensures PerPage(args.(dryRun := false)) == PerPage(args) && MaxRows(args.(dryRun := false)) == MaxRows(args)
  {
  }
}
