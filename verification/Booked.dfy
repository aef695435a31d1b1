/**
 What one finished store call books, on the call's own fields (src/store-d1.ts:59-108, 275-339,
 376-456), and what the columns of a quiet, crash-free database add up to, row by row.
 */
module Booked {
  import opened Wrappers
  import opened Sums
  import opened Ledger
  import opened Calls

  // ---- one call ----

  /** An account's columns moved by these amounts, every other account untouched; nothing for an unknown one. */
  predicate AccountMoved(t: Tables, t': Tables, account: string, credit: int, spent: int) {
    && t'.accounts.Keys == t.accounts.Keys
    && (forall a :: a in t.accounts ==>
          t'.accounts[a].credit == t.accounts[a].credit + (if a == account then credit else 0)
          && t'.accounts[a].spent == t.accounts[a].spent + (if a == account then spent else 0))
  }

  /** One period row moved by these amounts, from zero when it is new, every other one untouched. */
  predicate PeriodMoved(t: Tables, t': Tables, account: string, period: string, d: Period) {
    && t'.periods.Keys == t.periods.Keys + {(account, period)}
    && (forall k :: k in t.periods && k != (account, period) ==> t'.periods[k] == t.periods[k])
    && var was := if (account, period) in t.periods then t.periods[(account, period)] else Period(0, 0, 0, 0, 0, 0);
       var now := t'.periods[(account, period)];
       && now.microUsd == was.microUsd + d.microUsd
       && now.requests == was.requests + d.requests
       && now.unmetered == was.unmetered + d.unmetered
       && now.adjustSpend == was.adjustSpend + d.adjustSpend
       && now.adjustCredit == was.adjustCredit + d.adjustCredit
       && now.allowanceSpent == was.allowanceSpent + d.allowanceSpent
  }

  /** The allowance a period has on record. */
  function AllowanceOnRecord(t: Tables, account: string, period: string): int {
    if (account, period) in t.periods then t.periods[(account, period)].allowanceSpent else 0
  }

  predicate SameEvent(r: UsageEvent, e: UsageEvent) {
    r.id == e.id || (r.clientId == e.clientId && r.requestId == e.requestId)
  }

  /** A new request: its row with its own split, its period, and its part of prepaid credit. */
  predicate UsageBooked(t: Tables, t': Tables, e: UsageEvent) {
    && AccountMoved(t, t', e.accountId, 0, if e.metered && e.fromCredit > 0 then e.fromCredit else 0)
    && PeriodMoved(t, t', e.accountId, e.periodKey,
                   if e.metered then Period(e.microUsd, 1, 0, 0, 0, e.fromAllowance) else Period(0, 1, 1, 0, 0, 0))
    && t'.events == t.events + [if e.metered then e else e.(fromAllowance := 0, fromCredit := 0)]
    && t'.grants == t.grants && t'.adjustments == t.adjustments
  }

  lemma RecordedUsage(t: Tables, e: UsageEvent)
    ensures (forall r :: r in t.events ==> !SameEvent(r, e)) ==> UsageBooked(t, Complete(t, UsageInsert(e)), e)
    ensures (exists r :: r in t.events && SameEvent(r, e)) ==> Complete(t, UsageInsert(e)) == t
  {
    CompletedUsage(t, e);
    assert forall r :: SameEvent(r, e) <==> EventsClash(r, e);
  }

  predicate SameGrant(r: Grant, g: Grant) { r.id == g.id || r.key == g.key }

  predicate GrantBooked(t: Tables, t': Tables, g: Grant) {
    && AccountMoved(t, t', g.accountId, g.microUsd, 0)
    && t'.periods == t.periods && t'.events == t.events
    && t'.grants == t.grants + [g] && t'.adjustments == t.adjustments
  }

  lemma GrantedCredit(t: Tables, g: Grant)
    ensures (forall r :: r in t.grants ==> !SameGrant(r, g)) ==> GrantBooked(t, Complete(t, GrantInsert(g)), g)
    ensures (exists r :: r in t.grants && SameGrant(r, g)) ==> Complete(t, GrantInsert(g)) == t
  {
    CompletedGrant(t, g);
    assert forall r :: SameGrant(r, g) <==> GrantsClash(r, g);
  }

  predicate AccountOpened(t: Tables, t': Tables, g: Grant) {
    && t'.accounts == t.accounts[g.accountId := Account(g.microUsd, 0)]
    && t'.periods == t.periods && t'.events == t.events
    && t'.grants == t.grants + [g] && t'.adjustments == t.adjustments
  }

  lemma CreatedAccount(t: Tables, g: Grant)
    ensures var fresh' := g.accountId !in t.accounts && forall r :: r in t.grants ==> !SameGrant(r, g);
      && (fresh' ==> AccountOpened(t, Complete(t, CreateAccount(g)), g))
      && (!fresh' ==> Complete(t, CreateAccount(g)) == t)
  {
    assert forall r :: SameGrant(r, g) <==> GrantsClash(r, g);
    assert Advance(t, CreateAccount(g)).call == Done;
  }

  predicate SameAdjustment(r: Adjustment, a: Adjustment) { r.id == a.id || r.key == a.key }

  /** Upwards it is spent, downwards it is granted, in the ledger row's own period either way. */
  predicate TrueUpBooked(t: Tables, t': Tables, r: Adjustment) {
    && AccountMoved(t, t', r.accountId, if r.direction.Credit? then r.applied else 0, if r.direction.Spend? then r.applied else 0)
    && PeriodMoved(t, t', r.accountId, r.periodKey,
                   if r.direction.Spend? then Period(0, 0, 0, r.applied, 0, 0) else Period(0, 0, 0, 0, r.applied, 0))
    && t'.events == t.events && t'.adjustments == t.adjustments + [r]
    && var g := Grant(r.id, r.accountId, r.applied, r.key);
       t'.grants == (if r.direction.Spend? || exists x :: x in t.grants && SameGrant(x, g) then t.grants else t.grants + [g])
  }

  lemma BatchBooked(t: Tables, r: Adjustment)
    ensures TrueUpBooked(t, MoneyBatch(t.(adjustments := t.adjustments + [r]), r), r)
  {
    hide SameGrant, GrantsClash;
    var g := Grant(r.id, r.accountId, r.applied, r.key);
    SameGrantClashes(t.grants, g);
    if r.direction.Spend? {
      assert AdjustmentDelta(r) == Period(0, 0, 0, r.applied, 0, 0);
    } else {
      assert AdjustmentDelta(r) == Period(0, 0, 0, 0, r.applied, 0);
    }
  }

  lemma SameGrantClashes(rows: seq<Grant>, g: Grant)
    ensures HasGrant(rows, g) <==> exists x :: x in rows && SameGrant(x, g)
  {
    assert forall x :: SameGrant(x, g) <==> GrantsClash(x, g);
  }

  lemma AppliedTrueUp(t: Tables, r: Adjustment)
    ensures (forall x :: x in t.adjustments ==> !SameAdjustment(x, r)) ==> TrueUpBooked(t, Complete(t, AdjustInsert(r)), r)
    ensures (exists x :: x in t.adjustments && SameAdjustment(x, r)) ==> Complete(t, AdjustInsert(r)) == t
  {
    hide MoneyBatch, TrueUpBooked;
    CompletedAdjust(t, r);
    BatchBooked(t, r);
    assert forall x :: SameAdjustment(x, r) <==> AdjustmentsClash(x, r);
  }

  // ---- a quiet database, row by row ----

  function GrantedTo(account: string): Grant -> int {
    (g: Grant) => if g.accountId == account then g.microUsd else 0
  }

  function SpentBy(account: string): UsageEvent -> int {
    (e: UsageEvent) => if e.accountId == account && e.metered then e.fromCredit else 0
  }

  function RaisedFor(account: string): Adjustment -> int {
    (r: Adjustment) => if r.accountId == account && r.direction.Spend? then r.applied else 0
  }

  /** An account's credit is its grants; what it has spent is its requests' credit parts and its upward true-ups. */
  lemma AccountAddsUp(actions: seq<Action>, account: string)
    requires SoundActions(actions) && Quiet(Run(BOOT, actions).calls)
    requires Run(BOOT, actions).lost == [] && Run(BOOT, actions).unbacked == []
    requires account in Run(BOOT, actions).tables.accounts
    ensures var t := Run(BOOT, actions).tables;
      && t.accounts[account].credit == Sum(t.grants, GrantedTo(account))
      && t.accounts[account].spent == Sum(t.events, SpentBy(account)) + Sum(t.adjustments, RaisedFor(account))
  {
    hide Run, SoundActions;
    var t := Run(BOOT, actions).tables;
    var credit, spent := CreditCol(account), SpentCol(account);
    QuiescentColumnsAreExact(actions, credit);
    QuiescentColumnsAreExact(actions, spent);
    EventsAreSum(t.events, credit, (e: UsageEvent) => 0);
    SumOfNothing(t.events);
    GrantsAreSum(t.grants, credit, GrantedTo(account));
    AdjustmentsAreSum(t.adjustments, credit, (r: Adjustment) => 0);
    SumOfNothing(t.adjustments);
    EventsAreSum(t.events, spent, SpentBy(account));
    GrantsAreSum(t.grants, spent, (g: Grant) => 0);
    SumOfNothing(t.grants);
    AdjustmentsAreSum(t.adjustments, spent, RaisedFor(account));
  }

  lemma {:induction false} SumOfNothing<T>(rows: seq<T>)
    ensures Sum(rows, (x: T) => 0) == 0
  {
    if rows != [] { SumOfNothing(rows[..|rows| - 1]); }
  }

  lemma {:induction false} EventsAreSum(rows: seq<UsageEvent>, c: Column, f: UsageEvent -> int)
    requires forall e :: f(e) == EventOwes(e, c)
    ensures EventsAudit(rows, c) == Sum(rows, f)
  {
    if rows != [] { EventsAreSum(rows[..|rows| - 1], c, f); }
  }

  lemma {:induction false} GrantsAreSum(rows: seq<Grant>, c: Column, f: Grant -> int)
    requires forall g :: f(g) == GrantOwes(g, c)
    ensures GrantsAudit(rows, c) == Sum(rows, f)
  {
    if rows != [] { GrantsAreSum(rows[..|rows| - 1], c, f); }
  }

  lemma {:induction false} AdjustmentsAreSum(rows: seq<Adjustment>, c: Column, f: Adjustment -> int)
    requires forall r :: f(r) == AdjustmentOwes(r, c)
    ensures AdjustmentsAudit(rows, c) == Sum(rows, f)
  {
    if rows != [] { AdjustmentsAreSum(rows[..|rows| - 1], c, f); }
  }

  predicate In(e: UsageEvent, account: string, period: string) { e.accountId == account && e.periodKey == period }

  function Charged(account: string, period: string): UsageEvent -> int {
    (e: UsageEvent) => if In(e, account, period) && e.metered then e.microUsd else 0
  }

  function Counted(account: string, period: string): UsageEvent -> int {
    (e: UsageEvent) => if In(e, account, period) then 1 else 0
  }

  function Unpaid(account: string, period: string): UsageEvent -> int {
    (e: UsageEvent) => if In(e, account, period) && !e.metered then 1 else 0
  }

  function Allowed(account: string, period: string): UsageEvent -> int {
    (e: UsageEvent) => if In(e, account, period) && e.metered then e.fromAllowance else 0
  }

  function Adjusted(account: string, period: string, direction: Direction): Adjustment -> int {
    (r: Adjustment) => if r.accountId == account && r.periodKey == period && r.direction == direction then r.applied else 0
  }

  /** A period's six columns are sums over its own requests and true-ups. */
  lemma PeriodAddsUp(actions: seq<Action>, account: string, period: string)
    requires SoundActions(actions) && Quiet(Run(BOOT, actions).calls)
    requires Run(BOOT, actions).lost == [] && Run(BOOT, actions).unbacked == []
    requires (account, period) in Run(BOOT, actions).tables.periods
    ensures var t := Run(BOOT, actions).tables;
      t.periods[(account, period)] == Period(
        Sum(t.events, Charged(account, period)), Sum(t.events, Counted(account, period)),
        Sum(t.events, Unpaid(account, period)), Sum(t.adjustments, Adjusted(account, period, Spend)),
        Sum(t.adjustments, Adjusted(account, period, Credit)), Sum(t.events, Allowed(account, period)))
  {
    hide Run, SoundActions, Sum;
    OneColumn(actions, account, period, MicroUsd, Charged(account, period), (r: Adjustment) => 0);
    OneColumn(actions, account, period, Requests, Counted(account, period), (r: Adjustment) => 0);
    OneColumn(actions, account, period, UnmeteredRequests, Unpaid(account, period), (r: Adjustment) => 0);
    OneColumn(actions, account, period, AllowanceSpent, Allowed(account, period), (r: Adjustment) => 0);
    OneColumn(actions, account, period, AdjustSpend, (e: UsageEvent) => 0, Adjusted(account, period, Spend));
    OneColumn(actions, account, period, AdjustCredit, (e: UsageEvent) => 0, Adjusted(account, period, Credit));
    SumOfNothing(Run(BOOT, actions).tables.events);
    SumOfNothing(Run(BOOT, actions).tables.adjustments);
  }

  lemma OneColumn(actions: seq<Action>, account: string, period: string, field: Field,
                  f: UsageEvent -> int, g: Adjustment -> int)
    requires SoundActions(actions) && Quiet(Run(BOOT, actions).calls)
    requires Run(BOOT, actions).lost == [] && Run(BOOT, actions).unbacked == []
    requires forall e :: f(e) == EventOwes(e, PeriodCol(account, period, field))
    requires forall r :: g(r) == AdjustmentOwes(r, PeriodCol(account, period, field))
    ensures var t := Run(BOOT, actions).tables;
      Get(field, PeriodOf(t, account, period)) == Sum(t.events, f) + Sum(t.adjustments, g)
  {
    hide Run, SoundActions;
    var t, c := Run(BOOT, actions).tables, PeriodCol(account, period, field);
    QuiescentColumnsAreExact(actions, c);
    EventsAreSum(t.events, c, f);
    AdjustmentsAreSum(t.adjustments, c, g);
    GrantsAreSum(t.grants, c, (x: Grant) => 0);
    SumOfNothing(t.grants);
  }
}
