/**
 The two spending pools pay for everything (src/store-d1.ts:275-339): in every quiescent crash-free state
 the metered total equals the allowance burned plus the prepaid credit spent, true-ups aside.
 */
module Pools {
  import opened Ledger
  import opened Calls

  /** A metered row's price is split exactly between the pools. */
  predicate Paid(e: UsageEvent) { e.metered ==> e.fromAllowance + e.fromCredit == e.microUsd }

  predicate PaidCall(call: Call) {
    match call
    case UsageInsert(e) => Paid(e)
    case UsagePeriod(e) => Paid(e)
    case UsageSpent(e) => Paid(e)
    case _ => true
  }

  predicate PaidActions(actions: seq<Action>) {
    forall a :: a in actions && a.Start? ==> PaidCall(a.call)
  }

  ghost predicate AllPaid(s: System) {
    && (forall i :: 0 <= i < |s.calls| ==> PaidCall(s.calls[i]))
    && (forall e :: e in s.tables.events ==> Paid(e))
  }

  lemma StatementKeepsPaid(t: Tables, call: Call)
    requires PaidCall(call) && forall e :: e in t.events ==> Paid(e)
    ensures PaidCall(Advance(t, call).call) && forall e :: e in Advance(t, call).tables.events ==> Paid(e)
  {
  }

  lemma StepKeepsPaid(s: System, a: Action)
    requires AllPaid(s) && (a.Start? ==> PaidCall(a.call))
    ensures AllPaid(Step(s, a))
  {
    if a.Exec? && a.slot < |s.calls| { StatementKeepsPaid(s.tables, s.calls[a.slot]); }
  }

  lemma {:induction false} RowsStayPaid(s: System, actions: seq<Action>)
    requires AllPaid(s) && PaidActions(actions)
    ensures AllPaid(Run(s, actions))
    decreases |actions|
  {
    if actions != [] {
      StepKeepsPaid(s, actions[0]);
      RowsStayPaid(Step(s, actions[0]), actions[1..]);
    }
  }

  predicate Distinct(ps: seq<string>) { forall i, j :: 0 <= i < j < |ps| ==> ps[i] != ps[j] }

  /** A running column summed over a list of periods. */
  function OverPeriods(t: Tables, account: string, ps: seq<string>, f: Field): int {
    if ps == [] then 0
    else OverPeriods(t, account, ps[1..], f) + Value(t, PeriodCol(account, ps[0], f))
  }

  function EventsOver(rows: seq<UsageEvent>, account: string, ps: seq<string>, f: Field): int {
    if ps == [] then 0
    else EventsOver(rows, account, ps[1..], f) + EventsAudit(rows, PeriodCol(account, ps[0], f))
  }

  function TrueUpsOver(rows: seq<Adjustment>, account: string, ps: seq<string>, f: Field): int {
    if ps == [] then 0
    else TrueUpsOver(rows, account, ps[1..], f) + AdjustmentsAudit(rows, PeriodCol(account, ps[0], f))
  }

  /** One row's contribution to one period, counted once when the period is listed. */
  function Hit(account: string, period: string, d: Period, a: string, ps: seq<string>, f: Field): int {
    if account == a && period in ps then Get(f, d) else 0
  }

  lemma {:induction false} EventsOverAppend(rows: seq<UsageEvent>, e: UsageEvent, a: string, ps: seq<string>, f: Field)
    requires Distinct(ps)
    ensures EventsOver(rows + [e], a, ps, f)
         == EventsOver(rows, a, ps, f) + Hit(e.accountId, e.periodKey, PeriodDelta(e), a, ps, f)
  {
    if ps != [] {
      EventsOverAppend(rows, e, a, ps[1..], f);
      EventAudited(rows, e, PeriodCol(a, ps[0], f));
      assert ps[0] !in ps[1..] && (e.periodKey in ps <==> e.periodKey == ps[0] || e.periodKey in ps[1..]);
    }
  }

  lemma {:induction false} TrueUpsOverAppend(rows: seq<Adjustment>, r: Adjustment, a: string, ps: seq<string>, f: Field)
    requires Distinct(ps)
    ensures TrueUpsOver(rows + [r], a, ps, f)
         == TrueUpsOver(rows, a, ps, f) + Hit(r.accountId, r.periodKey, AdjustmentDelta(r), a, ps, f)
  {
    if ps != [] {
      TrueUpsOverAppend(rows, r, a, ps[1..], f);
      AdjustmentAudited(rows, r, PeriodCol(a, ps[0], f));
      assert ps[0] !in ps[1..] && (r.periodKey in ps <==> r.periodKey == ps[0] || r.periodKey in ps[1..]);
    }
  }

  lemma {:induction false} NoRowsNoMoney(a: string, ps: seq<string>, f: Field)
    ensures EventsOver([], a, ps, f) == 0 && TrueUpsOver([], a, ps, f) == 0
  {
    if ps != [] { NoRowsNoMoney(a, ps[1..], f); }
  }

  predicate CoversEvents(rows: seq<UsageEvent>, a: string, ps: seq<string>) {
    forall e :: e in rows && e.accountId == a ==> e.periodKey in ps
  }

  predicate CoversTrueUps(rows: seq<Adjustment>, a: string, ps: seq<string>) {
    forall r :: r in rows && r.accountId == a ==> r.periodKey in ps
  }

  lemma {:induction false} EventsSplit(rows: seq<UsageEvent>, a: string, ps: seq<string>)
    requires Distinct(ps) && CoversEvents(rows, a, ps) && forall e :: e in rows ==> Paid(e)
    ensures EventsOver(rows, a, ps, MicroUsd)
         == EventsOver(rows, a, ps, AllowanceSpent) + EventsAudit(rows, SpentCol(a))
    ensures EventsOver(rows, a, ps, AdjustSpend) == 0
  {
    if rows == [] {
      NoRowsNoMoney(a, ps, MicroUsd); NoRowsNoMoney(a, ps, AllowanceSpent); NoRowsNoMoney(a, ps, AdjustSpend);
    } else {
      var init, e := rows[..|rows| - 1], rows[|rows| - 1];
      assert rows == init + [e] && e in rows;
      EventsSplit(init, a, ps);
      EventsOverAppend(init, e, a, ps, MicroUsd);
      EventsOverAppend(init, e, a, ps, AllowanceSpent);
      EventsOverAppend(init, e, a, ps, AdjustSpend);
      EventAudited(init, e, SpentCol(a));
    }
  }

  lemma {:induction false} TrueUpsSplit(rows: seq<Adjustment>, a: string, ps: seq<string>)
    requires Distinct(ps) && CoversTrueUps(rows, a, ps)
    ensures TrueUpsOver(rows, a, ps, AdjustSpend) == AdjustmentsAudit(rows, SpentCol(a))
    ensures TrueUpsOver(rows, a, ps, MicroUsd) == 0 && TrueUpsOver(rows, a, ps, AllowanceSpent) == 0
  {
    if rows == [] {
      NoRowsNoMoney(a, ps, MicroUsd); NoRowsNoMoney(a, ps, AllowanceSpent); NoRowsNoMoney(a, ps, AdjustSpend);
    } else {
      var init, r := rows[..|rows| - 1], rows[|rows| - 1];
      assert rows == init + [r] && r in rows;
      TrueUpsSplit(init, a, ps);
      TrueUpsOverAppend(init, r, a, ps, MicroUsd);
      TrueUpsOverAppend(init, r, a, ps, AllowanceSpent);
      TrueUpsOverAppend(init, r, a, ps, AdjustSpend);
      AdjustmentAudited(init, r, SpentCol(a));
    }
  }

  lemma {:induction false} GrantsOwePeriodsNothing(rows: seq<Grant>, c: Column)
    requires !c.CreditCol?
    ensures GrantsAudit(rows, c) == 0
  {
    if rows != [] { GrantsOwePeriodsNothing(rows[..|rows| - 1], c); }
  }

  lemma {:induction false} ColumnsAreAudits(t: Tables, a: string, ps: seq<string>, f: Field)
    requires forall c :: Value(t, c) == Audit(t, c)
    ensures OverPeriods(t, a, ps, f) == EventsOver(t.events, a, ps, f) + TrueUpsOver(t.adjustments, a, ps, f)
  {
    if ps != [] {
      ColumnsAreAudits(t, a, ps[1..], f);
      var c := PeriodCol(a, ps[0], f);
      GrantsOwePeriodsNothing(t.grants, c);
      assert Value(t, c) == Audit(t, c);
    }
  }

  /**
   Over every quiescent crash-free history and any duplicate-free list of periods that covers the
   account's rows: metered = allowance burned + (spent - upward true-ups).
   */
  lemma PoolsPayForEverything(actions: seq<Action>, a: string, ps: seq<string>)
    requires SoundActions(actions) && PaidActions(actions) && Distinct(ps)
    requires var s := Run(BOOT, actions); Quiet(s.calls) && s.lost == [] && s.unbacked == []
    requires var t := Run(BOOT, actions).tables; CoversEvents(t.events, a, ps) && CoversTrueUps(t.adjustments, a, ps)
    ensures var t := Run(BOOT, actions).tables;
      OverPeriods(t, a, ps, MicroUsd)
      == OverPeriods(t, a, ps, AllowanceSpent) + (Value(t, SpentCol(a)) - OverPeriods(t, a, ps, AdjustSpend))
  {
    var t := Run(BOOT, actions).tables;
    forall c ensures Value(t, c) == Audit(t, c) { QuiescentColumnsAreExact(actions, c); }
    RowsStayPaid(BOOT, actions);
    ColumnsAreAudits(t, a, ps, MicroUsd);
    ColumnsAreAudits(t, a, ps, AllowanceSpent);
    ColumnsAreAudits(t, a, ps, AdjustSpend);
    EventsSplit(t.events, a, ps);
    TrueUpsSplit(t.adjustments, a, ps);
    GrantsOwePeriodsNothing(t.grants, SpentCol(a));
    assert Value(t, SpentCol(a)) == Audit(t, SpentCol(a));
  }
}
