/**
 In-flight store calls, one D1 statement or batch at a time (src/store-d1.ts:59-108, 275-339, 376-456): a
 program counter with its arguments. Calls interleave freely, repeat, and die between any two statements.
 */
module Calls {
  import opened Wrappers
  import opened Ledger

  datatype Call =
    | Done
    | CreateAccount(opening: Grant)
    | GrantInsert(grant: Grant)
    | GrantUpdate(grant: Grant)
    | UsageInsert(event: UsageEvent)
    | UsagePeriod(event: UsageEvent)
    | UsageSpent(event: UsageEvent)
    | AdjustInsert(row: Adjustment)
    | AdjustMoney(row: Adjustment)

  predicate Initial(call: Call) {
    call.CreateAccount? || call.GrantInsert? || call.UsageInsert? || call.AdjustInsert?
  }

  /** Money the audit tables already promise to a column and this call has yet to move. */
  function Due(call: Call, c: Column): int {
    match call
    case GrantUpdate(g) => GrantOwes(g, c)
    case UsagePeriod(e) => EventOwes(e, c)
    case UsageSpent(e) => Owes(SpentCol(e.accountId), Stored(e).fromCredit, c)
    case AdjustMoney(r) => AdjustmentOwes(r, c)
    case _ => 0
  }

  /** Money that will not arrive: a call that died, or an UPDATE that matched no account row. */
  datatype Loss = LostCall(call: Call) | LostAmount(column: Column, amount: int)

  function LossOf(l: Loss, c: Column): int {
    match l
    case LostCall(call) => Due(call, c)
    case LostAmount(column, amount) => Owes(column, amount, c)
  }

  function Total(ls: seq<Loss>, c: Column): int {
    if ls == [] then 0 else Total(ls[..|ls| - 1], c) + LossOf(ls[|ls| - 1], c)
  }

  /**
   One statement of one call. `missed` is an UPDATE that matched no account row; `unbacked` is credit
   advanced although its grant row was ignored.
   */
  datatype Advanced = Advanced(tables: Tables, call: Call, missed: Option<Loss>, unbacked: Option<Loss>)

  function Missed(t: Tables, account: string, column: Column, amount: int): Option<Loss> {
    if account in t.accounts then None else Some(LostAmount(column, amount))
  }

  /** The account column a true-up moves. */
  function TrueUpColumn(r: Adjustment): Column {
    if r.direction.Spend? then SpentCol(r.accountId) else CreditCol(r.accountId)
  }

  function Advance(t: Tables, call: Call): Advanced {
    match call
    case Done => Advanced(t, Done, None, None)
    case CreateAccount(g) =>
      Advanced(if CreateRefused(t, g) then t else CreateBatch(t, g), Done, None, None)
    case GrantInsert(g) =>
      Advanced(InsertGrant(t, g), if HasGrant(t.grants, g) then Done else GrantUpdate(g), None, None)
    case GrantUpdate(g) =>
      Advanced(UpdateCredit(t, g.accountId, g.microUsd), Done,
               Missed(t, g.accountId, CreditCol(g.accountId), g.microUsd), None)
    case UsageInsert(e) =>
      if HasEvent(t.events, e) then Advanced(t, Done, None, None)
      else Advanced(t.(events := t.events + [Stored(e)]), UsagePeriod(e), None, None)
    case UsagePeriod(e) =>
      Advanced(UpsertPeriod(t, e.accountId, e.periodKey, PeriodDelta(e)),
               if e.metered && Stored(e).fromCredit > 0 then UsageSpent(e) else Done, None, None)
    case UsageSpent(e) =>
      Advanced(UpdateSpent(t, e.accountId, Stored(e).fromCredit), Done,
               Missed(t, e.accountId, SpentCol(e.accountId), Stored(e).fromCredit), None)
    case AdjustInsert(r) =>
      if HasAdjustment(t.adjustments, r) then Advanced(t, Done, None, None)
      else Advanced(t.(adjustments := t.adjustments + [r]), AdjustMoney(r), None, None)
    case AdjustMoney(r) =>
      Advanced(MoneyBatch(t, r), Done, Missed(t, r.accountId, TrueUpColumn(r), r.applied),
               if r.direction.Credit? && HasGrant(t.grants, TrueUpGrant(r))
               then Some(LostAmount(TrueUpColumn(r), r.applied)) else None)
  }

  /** The call run to its end, nothing interleaved and no crash: no call has more than three statements. */
  function Complete(t: Tables, call: Call): Tables {
    var a := Advance(t, call);
    var b := Advance(a.tables, a.call);
    Advance(b.tables, b.call).tables
  }

  lemma ThreeStatementsSuffice(t: Tables, call: Call)
    ensures var a := Advance(t, call); var b := Advance(a.tables, a.call); Advance(b.tables, b.call).call == Done
  {
  }

  lemma CompletedGrant(t: Tables, g: Grant)
    ensures Complete(t, GrantInsert(g))
         == if HasGrant(t.grants, g) then t else UpdateCredit(InsertGrant(t, g), g.accountId, g.microUsd)
  {
  }

  lemma CompletedAdjust(t: Tables, r: Adjustment)
    ensures Complete(t, AdjustInsert(r))
         == if HasAdjustment(t.adjustments, r) then t else MoneyBatch(t.(adjustments := t.adjustments + [r]), r)
  {
  }

  lemma CompletedUsage(t: Tables, e: UsageEvent)
    ensures Complete(t, UsageInsert(e))
         == if HasEvent(t.events, e) then t
            else
              var t1 := UpsertPeriod(t.(events := t.events + [Stored(e)]), e.accountId, e.periodKey, PeriodDelta(e));
              if e.metered && Stored(e).fromCredit > 0 then UpdateSpent(t1, e.accountId, Stored(e).fromCredit) else t1
  {
  }

  /** Whole calls, one after another. */
  function InTurn(t: Tables, calls: seq<Call>): Tables
    decreases |calls|
  {
    if calls == [] then t else InTurn(Complete(t, calls[0]), calls[1..])
  }

  lemma TwoInTurn(t: Tables, a: Call, b: Call)
    ensures InTurn(t, [a, b]) == Complete(Complete(t, a), b)
  {
    assert [a, b][1..] == [b] && [b][1..] == [];
    assert InTurn(Complete(t, a), [b]) == InTurn(Complete(Complete(t, a), b), []);
  }

  /** Amounts the callers pass: integers, never negative. */
  predicate Sound(call: Call) {
    match call
    case Done => true
    case CreateAccount(g) => g.microUsd >= 0
    case GrantInsert(g) => g.microUsd >= 0
    case GrantUpdate(g) => g.microUsd >= 0
    case UsageInsert(e) => SoundEvent(e)
    case UsagePeriod(e) => SoundEvent(e)
    case UsageSpent(e) => SoundEvent(e)
    case AdjustInsert(r) => r.applied >= 0
    case AdjustMoney(r) => r.applied >= 0
  }

  predicate SoundEvent(e: UsageEvent) {
    e.microUsd >= 0 && e.fromAllowance >= 0 && e.fromCredit >= 0
  }

  predicate SoundLoss(l: Loss) {
    match l
    case LostCall(call) => Sound(call)
    case LostAmount(_, amount) => amount >= 0
  }

  // ---- the whole system ----

  datatype System = System(tables: Tables, calls: seq<Call>, lost: seq<Loss>, unbacked: seq<Loss>)

  const BOOT := System(EMPTY, [], [], [])

  datatype Action = Start(call: Call) | Exec(slot: nat) | Crash(slot: nat)

  function Listed(l: Option<Loss>): seq<Loss> { if l.Some? then [l.value] else [] }

  function Step(s: System, a: Action): System {
    match a
    case Start(call) => if Initial(call) then s.(calls := s.calls + [call]) else s
    case Exec(i) =>
      if i < |s.calls| then
        var n := Advance(s.tables, s.calls[i]);
        System(n.tables, s.calls[i := n.call], s.lost + Listed(n.missed), s.unbacked + Listed(n.unbacked))
      else s
    case Crash(i) =>
      if i < |s.calls| then s.(calls := s.calls[i := Done], lost := s.lost + [LostCall(s.calls[i])])
      else s
  }

  function Run(s: System, actions: seq<Action>): System
    decreases |actions|
  {
    if actions == [] then s else Run(Step(s, actions[0]), actions[1..])
  }

  function InFlight(calls: seq<Call>, c: Column): int {
    if calls == [] then 0
    else InFlight(calls[..|calls| - 1], c) + Due(calls[|calls| - 1], c)
  }

  ghost predicate Balanced(s: System, c: Column) {
    Value(s.tables, c) + InFlight(s.calls, c) + Total(s.lost, c)
    == Audit(s.tables, c) + Total(s.unbacked, c)
  }

  /** Every amount the audit tables name is in its column, in flight, or lost to a crash. */
  ghost predicate Conserved(s: System) { forall c :: Balanced(s, c) }

  // ---- conservation, statement by statement ----

  lemma InFlightAppend(calls: seq<Call>, x: Call, c: Column)
    ensures InFlight(calls + [x], c) == InFlight(calls, c) + Due(x, c)
  {
    assert (calls + [x])[..|calls|] == calls;
  }

  lemma {:induction false} InFlightUpdate(calls: seq<Call>, i: nat, x: Call, c: Column)
    requires i < |calls|
    ensures InFlight(calls[i := x], c) == InFlight(calls, c) - Due(calls[i], c) + Due(x, c)
  {
    var n := |calls| - 1;
    if i == n {
      assert calls[i := x][..n] == calls[..n];
    } else {
      assert calls[i := x][..n] == calls[..n][i := x];
      InFlightUpdate(calls[..n], i, x, c);
    }
  }

  lemma TotalAppend(ls: seq<Loss>, l: Loss, c: Column)
    ensures Total(ls + [l], c) == Total(ls, c) + LossOf(l, c)
  {
    assert (ls + [l])[..|ls|] == ls;
  }

  function Extra(l: Option<Loss>, c: Column): int { if l.Some? then LossOf(l.value, c) else 0 }

  lemma TotalListed(ls: seq<Loss>, l: Option<Loss>, c: Column)
    ensures Total(ls + Listed(l), c) == Total(ls, c) + Extra(l, c)
  {
    if l.Some? { TotalAppend(ls, l.value, c); } else { assert ls + Listed(l) == ls; }
  }

  lemma SpendTrueUpConserves(t: Tables, r: Adjustment, c: Column)
    requires r.direction.Spend?
    ensures Value(MoneyBatch(t, r), c)
         == Value(t, c) + AdjustmentOwes(r, c)
            - (if r.accountId in t.accounts then 0 else Owes(SpentCol(r.accountId), r.applied, c))
    ensures Audit(MoneyBatch(t, r), c) == Audit(t, c)
  {
    var t1 := UpdateSpent(t, r.accountId, r.applied);
    UpdateSpentMoves(t, r.accountId, r.applied, c);
    UpsertPeriodMoves(t1, r.accountId, r.periodKey, AdjustmentDelta(r), c);
  }

  lemma GrantInsertConserves(t: Tables, g: Grant, c: Column)
    ensures Value(InsertGrant(t, g), c) == Value(t, c)
    ensures Audit(InsertGrant(t, g), c) == Audit(t, c) + if HasGrant(t.grants, g) then 0 else GrantOwes(g, c)
  {
    GrantAudited(t.grants, g, c);
  }

  lemma CreditTrueUpConserves(t: Tables, r: Adjustment, c: Column)
    requires r.direction.Credit?
    ensures Value(MoneyBatch(t, r), c)
         == Value(t, c) + AdjustmentOwes(r, c)
            + (if r.accountId in t.accounts then Owes(CreditCol(r.accountId), r.applied, c) else 0)
    ensures Audit(MoneyBatch(t, r), c)
         == Audit(t, c) + (if HasGrant(t.grants, TrueUpGrant(r)) then 0 else Owes(CreditCol(r.accountId), r.applied, c))
  {
    var t1 := InsertGrant(t, TrueUpGrant(r));
    GrantInsertConserves(t, TrueUpGrant(r), c);
    UpdateCreditMoves(t1, r.accountId, r.applied, c);
    UpsertPeriodMoves(UpdateCredit(t1, r.accountId, r.applied), r.accountId, r.periodKey, AdjustmentDelta(r), c);
  }

  lemma TrueUpConserves(t: Tables, r: Adjustment, c: Column)
    ensures Shifts(t, AdjustMoney(r), c)
  {
    if r.direction.Spend? { SpendTrueUpConserves(t, r, c); } else { CreditTrueUpConserves(t, r, c); }
  }

  lemma UpdatesKeepAudit(t: Tables, account: string, period: string, x: int, d: Period, c: Column)
    ensures Audit(UpdateCredit(t, account, x), c) == Audit(t, c)
    ensures Audit(UpdateSpent(t, account, x), c) == Audit(t, c)
    ensures Audit(UpsertPeriod(t, account, period, d), c) == Audit(t, c)
  {
  }

  /** The step of the proof: one statement shifts money between column, in flight and lost. */
  ghost predicate Shifts(t: Tables, call: Call, c: Column) {
    var n := Advance(t, call);
    Value(n.tables, c) + Due(n.call, c) + Extra(n.missed, c) + Audit(t, c)
    == Value(t, c) + Due(call, c) + Audit(n.tables, c) + Extra(n.unbacked, c)
  }

  lemma UsagePeriodConserves(t: Tables, e: UsageEvent, c: Column)
    requires SoundEvent(e)
    ensures Shifts(t, UsagePeriod(e), c)
  {
    UpsertPeriodMoves(t, e.accountId, e.periodKey, PeriodDelta(e), c);
    UpdatesKeepAudit(t, e.accountId, e.periodKey, 0, PeriodDelta(e), c);
  }

  lemma UsageSpentConserves(t: Tables, e: UsageEvent, c: Column)
    ensures Shifts(t, UsageSpent(e), c)
  {
    UpdateSpentMoves(t, e.accountId, Stored(e).fromCredit, c);
    UpdatesKeepAudit(t, e.accountId, "", Stored(e).fromCredit, NO_USAGE, c);
  }

  lemma GrantUpdateConserves(t: Tables, g: Grant, c: Column)
    ensures Shifts(t, GrantUpdate(g), c)
  {
    UpdateCreditMoves(t, g.accountId, g.microUsd, c);
    UpdatesKeepAudit(t, g.accountId, "", g.microUsd, NO_USAGE, c);
  }

  lemma StoredOwesTheSame(e: UsageEvent, c: Column)
    ensures EventOwes(Stored(e), c) == EventOwes(e, c)
  {
  }

  lemma UsageInsertConserves(t: Tables, e: UsageEvent, c: Column)
    ensures Shifts(t, UsageInsert(e), c)
  {
    hide EventsAudit, GrantsAudit, AdjustmentsAudit, EventOwes, HasEvent, Stored;
    EventAudited(t.events, Stored(e), c);
    StoredOwesTheSame(e, c);
  }

  lemma AdjustInsertConserves(t: Tables, r: Adjustment, c: Column)
    ensures Shifts(t, AdjustInsert(r), c)
  {
    AdjustmentAudited(t.adjustments, r, c);
  }

  lemma CreateConserves(t: Tables, g: Grant, c: Column)
    ensures Shifts(t, CreateAccount(g), c)
  {
    GrantAudited(t.grants, g, c);
  }

  lemma StatementConserves(t: Tables, call: Call, c: Column)
    requires Sound(call)
    ensures Shifts(t, call, c)
  {
    match call
    case Done =>
    case CreateAccount(g) => CreateConserves(t, g, c);
    case GrantInsert(g) => 
      GrantInsertConserves(t, g, c);
      assert Shifts(t, GrantInsert(g), c);
    case GrantUpdate(g) => GrantUpdateConserves(t, g, c);
    case UsageInsert(e) => UsageInsertConserves(t, e, c);
    case UsagePeriod(e) => UsagePeriodConserves(t, e, c);
    case UsageSpent(e) => UsageSpentConserves(t, e, c);
    case AdjustInsert(r) => AdjustInsertConserves(t, r, c);
    case AdjustMoney(r) => TrueUpConserves(t, r, c);
  }

  ghost predicate AllSound(s: System) {
    && (forall i :: 0 <= i < |s.calls| ==> Sound(s.calls[i]))
    && (forall i :: 0 <= i < |s.lost| ==> SoundLoss(s.lost[i]))
    && (forall i :: 0 <= i < |s.unbacked| ==> SoundLoss(s.unbacked[i]))
  }

  predicate SoundActions(actions: seq<Action>) {
    forall a :: a in actions && a.Start? ==> Sound(a.call)
  }

  lemma ReplaceBalances(s: System, i: nat, n: Advanced, c: Column)
    requires Balanced(s, c) && i < |s.calls|
    requires Value(n.tables, c) + Due(n.call, c) + Extra(n.missed, c) + Audit(s.tables, c)
          == Value(s.tables, c) + Due(s.calls[i], c) + Audit(n.tables, c) + Extra(n.unbacked, c)
    ensures Balanced(System(n.tables, s.calls[i := n.call], s.lost + Listed(n.missed), s.unbacked + Listed(n.unbacked)), c)
  {
    InFlightUpdate(s.calls, i, n.call, c);
    TotalListed(s.lost, n.missed, c);
    TotalListed(s.unbacked, n.unbacked, c);
  }

  lemma ExecBalances(s: System, i: nat, c: Column)
    requires Balanced(s, c) && AllSound(s) && i < |s.calls|
    ensures Balanced(Step(s, Exec(i)), c)
  {
    hide Advance, Value, Audit, Due;
    StatementConserves(s.tables, s.calls[i], c);
    ReplaceBalances(s, i, Advance(s.tables, s.calls[i]), c);
  }

  lemma CrashBalances(s: System, i: nat, c: Column)
    requires Balanced(s, c) && i < |s.calls|
    ensures Balanced(Step(s, Crash(i)), c)
  {
    InFlightUpdate(s.calls, i, Done, c);
    TotalAppend(s.lost, LostCall(s.calls[i]), c);
  }

  lemma StepBalances(s: System, a: Action, c: Column)
    requires Balanced(s, c) && AllSound(s)
    ensures Balanced(Step(s, a), c)
  {
    match a
    case Start(call) => InFlightAppend(s.calls, call, c);
    case Exec(i) => if i < |s.calls| { ExecBalances(s, i, c); }
    case Crash(i) => if i < |s.calls| { CrashBalances(s, i, c); }
  }

  lemma AdvanceSound(t: Tables, call: Call)
    requires Sound(call)
    ensures Sound(Advance(t, call).call)
    ensures Advance(t, call).missed.Some? ==> SoundLoss(Advance(t, call).missed.value)
    ensures Advance(t, call).unbacked.Some? ==> SoundLoss(Advance(t, call).unbacked.value)
  {
  }

  lemma StepSound(s: System, a: Action)
    requires AllSound(s) && (a.Start? ==> Sound(a.call))
    ensures AllSound(Step(s, a))
  {
    match a
    case Start(_) =>
    case Exec(i) => if i < |s.calls| { AdvanceSound(s.tables, s.calls[i]); }
    case Crash(i) =>
  }

  lemma StepConserves(s: System, a: Action)
    requires Conserved(s) && AllSound(s)
    ensures Conserved(Step(s, a))
  {
    forall c ensures Balanced(Step(s, a), c) { StepBalances(s, a, c); }
  }

  /** Every history: any interleaving, any repeats, a crash between any two statements. */
  lemma {:induction false} MoneyIsConserved(s: System, actions: seq<Action>)
    requires Conserved(s) && AllSound(s) && SoundActions(actions)
    ensures Conserved(Run(s, actions)) && AllSound(Run(s, actions))
    decreases |actions|
  {
    if actions != [] {
      StepConserves(s, actions[0]);
      StepSound(s, actions[0]);
      MoneyIsConserved(Step(s, actions[0]), actions[1..]);
    }
  }

  lemma BootConserved()
    ensures Conserved(BOOT) && AllSound(BOOT)
  {
    forall c ensures Balanced(BOOT, c) { }
  }

  lemma DueNonNegative(call: Call, c: Column)
    requires Sound(call)
    ensures Due(call, c) >= 0
  {
  }

  lemma {:induction false} InFlightNonNegative(calls: seq<Call>, c: Column)
    requires forall i :: 0 <= i < |calls| ==> Sound(calls[i])
    ensures InFlight(calls, c) >= 0
  {
    if calls != [] { InFlightNonNegative(calls[..|calls| - 1], c); DueNonNegative(calls[|calls| - 1], c); }
  }

  lemma {:induction false} TotalNonNegative(ls: seq<Loss>, c: Column)
    requires forall i :: 0 <= i < |ls| ==> SoundLoss(ls[i])
    ensures Total(ls, c) >= 0
  {
    if ls != [] {
      TotalNonNegative(ls[..|ls| - 1], c);
      if ls[|ls| - 1].LostCall? { DueNonNegative(ls[|ls| - 1].call, c); }
    }
  }

  /** A column errs only downwards: it exceeds its audit figure by at most the unbacked credit. */
  lemma NeverOverApplied(actions: seq<Action>, c: Column)
    requires SoundActions(actions)
    ensures var s := Run(BOOT, actions);
      0 <= Total(s.unbacked, c) && Value(s.tables, c) <= Audit(s.tables, c) + Total(s.unbacked, c)
  {
    BootConserved();
    MoneyIsConserved(BOOT, actions);
    var s := Run(BOOT, actions);
    InFlightNonNegative(s.calls, c);
    TotalNonNegative(s.lost, c);
    TotalNonNegative(s.unbacked, c);
    assert Balanced(s, c);
  }

  predicate Quiet(calls: seq<Call>) { forall i :: 0 <= i < |calls| ==> calls[i] == Done }

  lemma {:induction false} QuietOwesNothing(calls: seq<Call>, c: Column)
    requires Quiet(calls)
    ensures InFlight(calls, c) == 0
  {
    if calls != [] { QuietOwesNothing(calls[..|calls| - 1], c); }
  }

  /** With nothing in flight, nothing lost and no ignored grant, every column is its audit sum. */
  lemma QuiescentColumnsAreExact(actions: seq<Action>, c: Column)
    requires SoundActions(actions)
    requires Quiet(Run(BOOT, actions).calls)
    requires Run(BOOT, actions).lost == [] && Run(BOOT, actions).unbacked == []
    ensures Value(Run(BOOT, actions).tables, c) == Audit(Run(BOOT, actions).tables, c)
  {
    BootConserved();
    MoneyIsConserved(BOOT, actions);
    QuietOwesNothing(Run(BOOT, actions).calls, c);
    assert Balanced(Run(BOOT, actions), c);
  }
}
