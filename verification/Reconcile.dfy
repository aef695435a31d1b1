/**
 What a gateway log row means for one ledger row (src/reconcile.ts), and where the watermark goes.
 Instants are integers (epoch milliseconds), costs are integer micro-USD.
 */
module Reconcile {
  import opened Wrappers
  import opened Ledger

  /** One parsed row of the biller's feed; None where the feed carries nothing usable. */
  datatype GatewayLog = GatewayLog(
    id: string, at: int, cached: bool, cost: Option<nat>, requestId: Option<string>, accountId: Option<string>)

  datatype SkipReason = NoRequestId | Cached | UnknownCost | NoLedgerRow | AccountMismatch

  datatype Outcome =
    | Adjust(direction: Direction, applied: int, delta: int, estimate: int, gateway: int, event: UsageEvent)
    | InAgreement(microUsd: int, event: UsageEvent)
    | Skipped(reason: SkipReason)

  datatype DecidedRow = DecidedRow(log: GatewayLog, outcome: Outcome)

  predicate Blank(s: Option<string>) { s.None? || s.value == "" }

  function Abs(x: int): int { if x < 0 then -x else x }

  /** What the ledger charged: nothing for an unmetered row. */
  function Estimate(e: UsageEvent): int { if e.metered then e.microUsd else 0 }

  function DecideAdjustment(log: GatewayLog, event: Option<UsageEvent>): Outcome {
    if Blank(log.requestId) then Skipped(NoRequestId)
    else if log.cached then Skipped(Cached)
    else if log.cost.None? then Skipped(UnknownCost)
    else if event.None? then Skipped(NoLedgerRow)
    else if !Blank(log.accountId) && log.accountId.value != event.value.accountId then Skipped(AccountMismatch)
    else
      var delta := log.cost.value - Estimate(event.value);
      if delta == 0 then InAgreement(log.cost.value, event.value)
      else Adjust(if delta > 0 then Spend else Credit, Abs(delta), delta, Estimate(event.value), log.cost.value, event.value)
  }

  /** The gateway row names a request. */
  predicate Names(log: GatewayLog) { log.requestId.Some? && log.requestId.value != "" }

  /** The two sides agree on the account, or the gateway does not say. */
  predicate AccountAgrees(log: GatewayLog, e: UsageEvent) {
    log.accountId.None? || log.accountId.value == "" || log.accountId.value == e.accountId
  }

  /** Which refusal, and when none: money moves only between rows that agree, by the whole difference, in its direction. */
  lemma DecisionExactlyWhen(log: GatewayLog, event: Option<UsageEvent>)
    ensures var o := DecideAdjustment(log, event);
      && (o == Skipped(NoRequestId) <==> !Names(log))
      && (o == Skipped(Cached) <==> Names(log) && log.cached)
      && (o == Skipped(UnknownCost) <==> Names(log) && !log.cached && log.cost.None?)
      && (o == Skipped(NoLedgerRow) <==> Names(log) && !log.cached && log.cost.Some? && event.None?)
      && (o == Skipped(AccountMismatch) <==>
            Names(log) && !log.cached && log.cost.Some? && event.Some? && !AccountAgrees(log, event.value))
      && (!o.Skipped? ==>
            var charged := if event.value.metered then event.value.microUsd else 0;
            && o.event == event.value
            && (o.InAgreement? ==> log.cost.value == charged && o.microUsd == charged)
            && (o.Adjust? ==>
                  && o.gateway == log.cost.value && o.estimate == charged && o.delta == log.cost.value - charged
                  && o.delta != 0 && (o.direction.Spend? <==> log.cost.value > charged)
                  && o.applied == (if o.direction.Spend? then o.delta else -o.delta)))
  {
  }

  predicate NeedsLedgerLookup(log: GatewayLog) {
    log.requestId.Some? && !log.cached && log.cost.Some?
  }

  /** Skipping the read never changes a decision, and a read that is made is always consulted. */
  lemma LookupIsSkippedExactlyWhenUnused(log: GatewayLog)
    requires log.requestId != Some("")
    ensures NeedsLedgerLookup(log) <==>
      exists e: Option<UsageEvent>, e': Option<UsageEvent> :: DecideAdjustment(log, e) != DecideAdjustment(log, e')
  {
    if NeedsLedgerLookup(log) {
      var owner := if log.accountId.Some? then log.accountId.value else "";
      var e := UsageEvent("", "", owner, "", "", 0, 0, 0, false, Unpriced, 0);
      assert DecideAdjustment(log, None) != DecideAdjustment(log, Some(e));
    }
  }

  function AdjustmentKey(gatewayLogId: string): string { "aig:" + gatewayLogId }

  lemma KeysAreDistinct(a: string, b: string)
    ensures AdjustmentKey(a) == AdjustmentKey(b) ==> a == b
    ensures StartsWith(AdjustmentKey(a), "aig:")
  {
    assert AdjustmentKey(a)[4..] == a && AdjustmentKey(b)[4..] == b;
  }

  // ---- totals ----

  datatype Totals = Totals(
    rows: int, inAgreement: int, adjustedSpend: int, adjustedCredit: int, spend: int, credit: int,
    noRequestId: int, cached: int, unknownCost: int, noLedgerRow: int, accountMismatch: int)

  const NO_TOTALS := Totals(0, 0, 0, 0, 0, 0, 0, 0, 0, 0, 0)

  function SumApplied(ds: seq<DecidedRow>, direction: Direction): int {
    if ds == [] then 0
    else SumApplied(ds[..|ds| - 1], direction) +
         (var o := ds[|ds| - 1].outcome; if o.Adjust? && o.direction == direction then o.applied else 0)
  }

  predicate Compared(o: Outcome) { o.Adjust? || o.InAgreement? }

  /** What the biller charged for the compared rows. */
  function SumGateway(ds: seq<DecidedRow>): int {
    if ds == [] then 0
    else SumGateway(ds[..|ds| - 1]) +
         match ds[|ds| - 1].outcome
         case Adjust(_, _, _, _, gateway, _) => gateway
         case InAgreement(microUsd, _) => microUsd
         case Skipped(_) => 0
  }

  function SumEstimate(ds: seq<DecidedRow>): int {
    if ds == [] then 0
    else SumEstimate(ds[..|ds| - 1]) +
         (if Compared(ds[|ds| - 1].outcome) then Estimate(ds[|ds| - 1].outcome.event) else 0)
  }

  datatype Kind = Agreed | Raised | Lowered | Refused(reason: SkipReason)

  function KindOf(o: Outcome): Kind {
    match o
    case InAgreement(_, _) => Agreed
    case Adjust(direction, _, _, _, _, _) => if direction.Spend? then Raised else Lowered
    case Skipped(reason) => Refused(reason)
  }

  function CountOf(ds: seq<DecidedRow>, k: Kind): nat {
    if ds == [] then 0 else CountOf(ds[..|ds| - 1], k) + if KindOf(ds[|ds| - 1].outcome) == k then 1 else 0
  }

  /** Every counter of the report counts its own kind of decision. */
  ghost predicate CountsOf(t: Totals, ds: seq<DecidedRow>) {
    && t.rows == |ds|
    && t.inAgreement == CountOf(ds, Agreed)
    && t.adjustedSpend == CountOf(ds, Raised) && t.adjustedCredit == CountOf(ds, Lowered)
    && t.noRequestId == CountOf(ds, Refused(NoRequestId)) && t.cached == CountOf(ds, Refused(Cached))
    && t.unknownCost == CountOf(ds, Refused(UnknownCost)) && t.noLedgerRow == CountOf(ds, Refused(NoLedgerRow))
    && t.accountMismatch == CountOf(ds, Refused(AccountMismatch))
    && t.spend == SumApplied(ds, Spend) && t.credit == SumApplied(ds, Credit)
  }

  /** Decisions made by DecideAdjustment from some ledger row. */
  ghost predicate Genuine(d: DecidedRow) {
    exists e: Option<UsageEvent> :: d.outcome == DecideAdjustment(d.log, e)
  }

  /**
   The run report. Every outcome lands in exactly one counter, and the money totals are the exact net
   between what was billed and what was charged.
   */
  method Tally(ds: seq<DecidedRow>) returns (t: Totals)
    ensures CountsOf(t, ds)
    ensures t.rows == t.inAgreement + t.adjustedSpend + t.adjustedCredit + t.noRequestId + t.cached
                      + t.unknownCost + t.noLedgerRow + t.accountMismatch
    ensures (forall d :: d in ds ==> Genuine(d)) ==> t.spend - t.credit == SumGateway(ds) - SumEstimate(ds)
  {
    t := NO_TOTALS;
    var i := 0;
    while i < |ds|
      invariant 0 <= i <= |ds|
      invariant CountsOf(t, ds[..i])
      invariant t.rows == t.inAgreement + t.adjustedSpend + t.adjustedCredit + t.noRequestId + t.cached
                          + t.unknownCost + t.noLedgerRow + t.accountMismatch
    {
      assert ds[..i + 1][..i] == ds[..i] && ds[..i + 1][i] == ds[i];
      t := t.(rows := t.rows + 1);
      match ds[i].outcome {
        case InAgreement(_, _) => t := t.(inAgreement := t.inAgreement + 1);
        case Adjust(Spend, applied, _, _, _, _) =>
          t := t.(adjustedSpend := t.adjustedSpend + 1, spend := t.spend + applied);
        case Adjust(Credit, applied, _, _, _, _) =>
          t := t.(adjustedCredit := t.adjustedCredit + 1, credit := t.credit + applied);
        case Skipped(NoRequestId) => t := t.(noRequestId := t.noRequestId + 1);
        case Skipped(Cached) => t := t.(cached := t.cached + 1);
        case Skipped(UnknownCost) => t := t.(unknownCost := t.unknownCost + 1);
        case Skipped(NoLedgerRow) => t := t.(noLedgerRow := t.noLedgerRow + 1);
        case Skipped(AccountMismatch) => t := t.(accountMismatch := t.accountMismatch + 1);
      }
      i := i + 1;
    }
    assert ds[..i] == ds;
    if forall d :: d in ds ==> Genuine(d) { NetIsGatewayMinusEstimate(ds); }
  }

  lemma {:induction false} NetIsGatewayMinusEstimate(ds: seq<DecidedRow>)
    requires forall d :: d in ds ==> Genuine(d)
    ensures SumApplied(ds, Spend) - SumApplied(ds, Credit) == SumGateway(ds) - SumEstimate(ds)
  {
    if ds != [] {
      NetIsGatewayMinusEstimate(ds[..|ds| - 1]);
      assert Genuine(ds[|ds| - 1]);
    }
  }

  // ---- the watermark ----

  const SETTLE_MS := 15 * 60 * 1000
  const MAX_ROWS_PER_RUN := 2000

  function Ceiling(now: int): int { now - SETTLE_MS }

  /** None leaves the stored watermark alone. With nothing processed the candidate is the ceiling. */
  function NextWatermark(current: int, newestProcessed: Option<int>, now: int): Option<int> {
    var ceiling := Ceiling(now);
    var candidate := if newestProcessed.Some? && newestProcessed.value < ceiling then newestProcessed.value else ceiling;
    if candidate <= current then None else Some(candidate)
  }

  /** Where the watermark stands afterwards. */
  function Settled(current: int, newestProcessed: Option<int>, now: int): int {
    NextWatermark(current, newestProcessed, now).GetOr(current)
  }
}
