/**
 The money tables and the D1 statements that write them (src/store-d1.ts, migrations 0001 to 0004).

 Audit tables (usage_events, credit_grants, usage_adjustments) only grow, so they are sequences in
 insertion order. Running columns (accounts, usage_periods) are maps. Every statement, and every
 D1 batch, is one function from tables to tables: nothing can be observed half way through it.
 Money is integer micro-USD.
 */
module Ledger {
  import opened Wrappers

  datatype PriceBasis = Measured | EstimatedOutput | Unpriced

  datatype Direction = Spend | Credit

  datatype Account = Account(credit: int, spent: int)

  datatype Period = Period(
    microUsd: int, requests: int, unmetered: int,
    adjustSpend: int, adjustCredit: int, allowanceSpent: int)

  const NO_USAGE := Period(0, 0, 0, 0, 0, 0)

  /** A usage_events row. `createdAt` is stamped by the database's own clock. */
  datatype UsageEvent = UsageEvent(
    id: string, requestId: string, accountId: string, clientId: string, periodKey: string,
    microUsd: int, fromAllowance: int, fromCredit: int, metered: bool, basis: PriceBasis,
    createdAt: int)

  datatype Grant = Grant(id: string, accountId: string, microUsd: int, key: string)

  datatype Adjustment = Adjustment(
    id: string, accountId: string, usageEventId: string, requestId: string,
    gatewayLogId: string, periodKey: string, estimate: int, gateway: int, delta: int,
    direction: Direction, applied: int, key: string)

  datatype Tables = Tables(
    accounts: map<string, Account>,
    periods: map<(string, string), Period>,
    events: seq<UsageEvent>,
    grants: seq<Grant>,
    adjustments: seq<Adjustment>)

  const EMPTY := Tables(map[], map[], [], [], [])

  // ---- uniqueness: what INSERT OR IGNORE tests ----

  predicate EventsClash(r: UsageEvent, e: UsageEvent) {
    r.id == e.id || (r.clientId == e.clientId && r.requestId == e.requestId)
  }

  predicate GrantsClash(r: Grant, g: Grant) { r.id == g.id || r.key == g.key }

  predicate AdjustmentsClash(r: Adjustment, a: Adjustment) { r.id == a.id || r.key == a.key }

  predicate HasEvent(rows: seq<UsageEvent>, e: UsageEvent) {
    exists r :: r in rows && EventsClash(r, e)
  }

  predicate HasGrant(rows: seq<Grant>, g: Grant) {
    exists r :: r in rows && GrantsClash(r, g)
  }

  predicate HasAdjustment(rows: seq<Adjustment>, a: Adjustment) {
    exists r :: r in rows && AdjustmentsClash(r, a)
  }

  // ---- statements ----

  /** The row recordUsage binds: an unmetered event stores no split. */
  function Stored(e: UsageEvent): UsageEvent {
    e.(fromAllowance := if e.metered then e.fromAllowance else 0,
       fromCredit := if e.metered then e.fromCredit else 0)
  }

  /** What one ledger row adds to its period: an unmetered row counts requests, never money. */
  function PeriodDelta(e: UsageEvent): Period {
    Period(if e.metered then e.microUsd else 0, 1, if e.metered then 0 else 1, 0, 0,
           Stored(e).fromAllowance)
  }

  function AdjustmentDelta(r: Adjustment): Period {
    Period(0, 0, 0,
           if r.direction.Spend? then r.applied else 0,
           if r.direction.Credit? then r.applied else 0, 0)
  }

  function AddPeriod(a: Period, b: Period): Period {
    Period(a.microUsd + b.microUsd, a.requests + b.requests, a.unmetered + b.unmetered,
           a.adjustSpend + b.adjustSpend, a.adjustCredit + b.adjustCredit,
           a.allowanceSpent + b.allowanceSpent)
  }

  /** An absent period row reads as zero usage. */
  function PeriodOf(t: Tables, account: string, period: string): Period {
    if (account, period) in t.periods then t.periods[(account, period)] else NO_USAGE
  }

  function UpsertPeriod(t: Tables, account: string, period: string, delta: Period): Tables {
    t.(periods := t.periods[(account, period) := AddPeriod(PeriodOf(t, account, period), delta)])
  }

  /** UPDATE ... WHERE id = ?: matches nothing when the account does not exist. */
  function UpdateSpent(t: Tables, account: string, amount: int): Tables {
    if account in t.accounts
    then var a := t.accounts[account]; t.(accounts := t.accounts[account := a.(spent := a.spent + amount)])
    else t
  }

  function UpdateCredit(t: Tables, account: string, amount: int): Tables {
    if account in t.accounts
    then var a := t.accounts[account]; t.(accounts := t.accounts[account := a.(credit := a.credit + amount)])
    else t
  }

  function InsertGrant(t: Tables, g: Grant): Tables {
    if HasGrant(t.grants, g) then t else t.(grants := t.grants + [g])
  }

  /** The grant row a downward true-up writes: same id and key as its adjustment. */
  function TrueUpGrant(r: Adjustment): Grant { Grant(r.id, r.accountId, r.applied, r.key) }

  /** The one batch that moves a true-up's money, in either direction. */
  function MoneyBatch(t: Tables, r: Adjustment): Tables {
    var moved := if r.direction.Spend? then UpdateSpent(t, r.accountId, r.applied)
                 else UpdateCredit(InsertGrant(t, TrueUpGrant(r)), r.accountId, r.applied);
    UpsertPeriod(moved, r.accountId, r.periodKey, AdjustmentDelta(r))
  }

  /** Account row plus opening grant; plain INSERTs, so a clash throws and the batch rolls back. */
  predicate CreateRefused(t: Tables, opening: Grant) {
    opening.accountId in t.accounts || HasGrant(t.grants, opening)
  }

  function CreateBatch(t: Tables, opening: Grant): Tables {
    t.(accounts := t.accounts[opening.accountId := Account(opening.microUsd, 0)],
       grants := t.grants + [opening])
  }

  // ---- columns and what the audit rows say they should hold ----

  datatype Field = MicroUsd | Requests | UnmeteredRequests | AdjustSpend | AdjustCredit | AllowanceSpent

  /** A running column: two on the account, six on the account's period. */
  datatype Column =
    | CreditCol(account: string)
    | SpentCol(account: string)
    | PeriodCol(account: string, period: string, field: Field)

  function Get(f: Field, p: Period): int {
    match f
    case MicroUsd => p.microUsd
    case Requests => p.requests
    case UnmeteredRequests => p.unmetered
    case AdjustSpend => p.adjustSpend
    case AdjustCredit => p.adjustCredit
    case AllowanceSpent => p.allowanceSpent
  }

  function Value(t: Tables, c: Column): int {
    match c
    case CreditCol(a) => if a in t.accounts then t.accounts[a].credit else 0
    case SpentCol(a) => if a in t.accounts then t.accounts[a].spent else 0
    case PeriodCol(a, p, f) => Get(f, PeriodOf(t, a, p))
  }

  // ---- what each audit row obliges each column to hold ----

  function PeriodOwes(account: string, period: string, d: Period, c: Column): int {
    if c.PeriodCol? && c.account == account && c.period == period then Get(c.field, d) else 0
  }

  function Owes(column: Column, amount: int, c: Column): int { if c == column then amount else 0 }

  function EventOwes(e: UsageEvent, c: Column): int {
    PeriodOwes(e.accountId, e.periodKey, PeriodDelta(e), c) +
    Owes(SpentCol(e.accountId), Stored(e).fromCredit, c)
  }

  function GrantOwes(g: Grant, c: Column): int { Owes(CreditCol(g.accountId), g.microUsd, c) }

  /** A downward true-up's credit is owed by its grant row, not by the adjustment itself. */
  function AdjustmentOwes(r: Adjustment, c: Column): int {
    PeriodOwes(r.accountId, r.periodKey, AdjustmentDelta(r), c) +
    (if r.direction.Spend? then Owes(SpentCol(r.accountId), r.applied, c) else 0)
  }

  function EventsAudit(rows: seq<UsageEvent>, c: Column): int {
    if rows == [] then 0
    else EventsAudit(rows[..|rows| - 1], c) + EventOwes(rows[|rows| - 1], c)
  }

  function GrantsAudit(rows: seq<Grant>, c: Column): int {
    if rows == [] then 0
    else GrantsAudit(rows[..|rows| - 1], c) + GrantOwes(rows[|rows| - 1], c)
  }

  function AdjustmentsAudit(rows: seq<Adjustment>, c: Column): int {
    if rows == [] then 0
    else AdjustmentsAudit(rows[..|rows| - 1], c) + AdjustmentOwes(rows[|rows| - 1], c)
  }

  /** The audit trail's own figure for a column: the sum over the rows that explain it. */
  function Audit(t: Tables, c: Column): int {
    EventsAudit(t.events, c) + GrantsAudit(t.grants, c) + AdjustmentsAudit(t.adjustments, c)
  }

  // ---- each audit insert raises the audit figure by exactly what its row owes ----

  lemma EventAudited(rows: seq<UsageEvent>, e: UsageEvent, c: Column)
    ensures EventsAudit(rows + [e], c) == EventsAudit(rows, c) + EventOwes(e, c)
  {
    assert (rows + [e])[..|rows|] == rows;
  }

  lemma GrantAudited(rows: seq<Grant>, g: Grant, c: Column)
    ensures GrantsAudit(rows + [g], c) == GrantsAudit(rows, c) + GrantOwes(g, c)
  {
    assert (rows + [g])[..|rows|] == rows;
  }

  lemma AdjustmentAudited(rows: seq<Adjustment>, r: Adjustment, c: Column)
    ensures AdjustmentsAudit(rows + [r], c) == AdjustmentsAudit(rows, c) + AdjustmentOwes(r, c)
  {
    assert (rows + [r])[..|rows|] == rows;
  }

  // ---- each money statement moves exactly what it says ----

  lemma UpsertPeriodMoves(t: Tables, account: string, period: string, d: Period, c: Column)
    ensures Value(UpsertPeriod(t, account, period, d), c) == Value(t, c) + PeriodOwes(account, period, d, c)
  {
  }

  lemma UpdateSpentMoves(t: Tables, account: string, amount: int, c: Column)
    ensures Value(UpdateSpent(t, account, amount), c)
         == Value(t, c) + if account in t.accounts then Owes(SpentCol(account), amount, c) else 0
  {
  }

  lemma UpdateCreditMoves(t: Tables, account: string, amount: int, c: Column)
    ensures Value(UpdateCredit(t, account, amount), c)
         == Value(t, c) + if account in t.accounts then Owes(CreditCol(account), amount, c) else 0
  {
  }
}
