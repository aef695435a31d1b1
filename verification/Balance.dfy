/**
 The spend gate and the split of a charge across the two pools (src/balance.ts), and how far an account can
 overshoot through gate, price and record (src/routes/chat.ts:178-278, src/routes/nonchat.ts:203-332).
 */
module Balance {
  import opened Wrappers
  import Arith

  /** A stored number, as far as Number.isInteger can tell. */
  datatype Number = Whole(n: int) | NotWhole

  predicate Usable(x: Number) { x.Whole? && x.n >= 0 }

  datatype Pools = Pools(credit: Number, spent: Number, included: Number, allowanceSpent: Number)

  datatype Verdict =
    | Allow(remaining: int, remainingAllowance: int, remainingCredit: int)
    | Exhausted
    | Indeterminate

  function RemainingAllowance(included: Number, allowanceSpent: Number): int {
    if !Usable(included) || !Usable(allowanceSpent) then 0
    else Max(0, included.n - allowanceSpent.n)
  }

  function RemainingCredit(credit: int, spent: int): int { Max(0, credit - spent) }

  function DecideBalance(p: Pools): Verdict {
    if !Usable(p.credit) || !Usable(p.spent) || !Usable(p.included) || !Usable(p.allowanceSpent) then Indeterminate
    else
      var allowance := RemainingAllowance(p.included, p.allowanceSpent);
      var credit := RemainingCredit(p.credit.n, p.spent.n);
      if allowance == 0 && p.spent.n >= p.credit.n then Exhausted
      else Allow(allowance + credit, allowance, credit)
  }

  datatype Split = Split(fromAllowance: int, fromCredit: int)

  function AllocateCharge(charge: Number, included: Number, allowanceSpent: Number): Split {
    if !charge.Whole? || charge.n <= 0 then Split(0, 0)
    else
      var fromAllowance := Min(charge.n, RemainingAllowance(included, allowanceSpent));
      Split(fromAllowance, charge.n - fromAllowance)
  }

  /**
   Every split is non-negative and adds up to the charge; credit is touched only when the allowance is
   used up exactly, and the allowance never passes its limit because of it.
   */
  lemma SplitIsExact(charge: nat, included: nat, spent: nat)
    ensures var s := AllocateCharge(Whole(charge), Whole(included), Whole(spent));
      && s.fromAllowance >= 0 && s.fromCredit >= 0 && s.fromAllowance + s.fromCredit == charge
      && (s.fromCredit > 0 ==> spent + s.fromAllowance >= included)
      && (s.fromAllowance > 0 ==> spent + s.fromAllowance <= included)
  {
  }

  /** A stored number the code trusts. */
  predicate Known(x: Number) { x.Whole? && 0 <= x.n }

  /** What is left of `limit` after `spent`. */
  function Left(limit: int, spent: int): nat { if spent < limit then limit - spent else 0 }

  /** The charge is paid out of what is left of the allowance, and only what that does not cover out of credit. */
  predicate AllowanceFirst(charge: int, included: int, spent: int, fromAllowance: int, fromCredit: int) {
    fromAllowance == (if charge <= Left(included, spent) then charge else Left(included, spent))
    && fromCredit == charge - fromAllowance
  }

  /** Exhausted is a fact about the account, indeterminate one about us, and all that is left is offered otherwise. */
  lemma VerdictExactlyWhen(p: Pools)
    ensures var v := DecideBalance(p); var known := Known(p.credit) && Known(p.spent) && Known(p.included) && Known(p.allowanceSpent);
      && (v.Indeterminate? <==> !known)
      && (v.Exhausted? <==> known && p.allowanceSpent.n >= p.included.n && p.spent.n >= p.credit.n)
      && (v.Allow? ==>
            && v.remainingAllowance == Left(p.included.n, p.allowanceSpent.n)
            && v.remainingCredit == Left(p.credit.n, p.spent.n)
            && v.remaining == v.remainingAllowance + v.remainingCredit && v.remaining > 0)
  {
  }

  /** An allowance that cannot be read pays for nothing, and a charge that is not positive costs nothing. */
  lemma SplitExactlyWhen(charge: Number, included: Number, allowanceSpent: Number)
    ensures var s := AllocateCharge(charge, included, allowanceSpent);
      if charge.Whole? && charge.n > 0 then
        if Known(included) && Known(allowanceSpent)
        then AllowanceFirst(charge.n, included.n, allowanceSpent.n, s.fromAllowance, s.fromCredit)
        else s == Split(0, charge.n)
      else s == Split(0, 0)
  {
  }

  // ---- one account in one period, requests strictly one after another ----

  /** `start` is what was already spent when the period began. */
  datatype Position = Position(allowanceSpent: int, spent: int)

  function Gate(included: nat, credit: nat, p: Position): Verdict {
    DecideBalance(Pools(Whole(credit), Whole(p.spent), Whole(included), Whole(p.allowanceSpent)))
  }

  /** Gate, serve, price, record: a refused request changes nothing. */
  function Serve(included: nat, credit: nat, p: Position, charge: nat): Position {
    if !Gate(included, credit, p).Allow? then p else Record(included, p, charge)
  }

  function Record(included: nat, p: Position, charge: nat): Position {
    var s := AllocateCharge(Whole(charge), Whole(included), Whole(p.allowanceSpent));
    Position(p.allowanceSpent + s.fromAllowance, p.spent + s.fromCredit)
  }

  function ServeAll(included: nat, credit: nat, p: Position, charges: seq<nat>): Position
    decreases |charges|
  {
    if charges == [] then p
    else ServeAll(included, credit, Serve(included, credit, p, charges[0]), charges[1..])
  }

  predicate AtMost(charges: seq<nat>, cap: nat) { forall i :: 0 <= i < |charges| ==> charges[i] <= cap }

  /** While any allowance remains nothing has left the credit pool this period. */
  ghost predicate InBounds(included: nat, credit: nat, start: nat, cap: nat, p: Position) {
    && 0 <= p.allowanceSpent <= included && start <= p.spent
    && (p.allowanceSpent < included ==> p.spent == start)
    && p.spent <= Max(start, credit) + cap - 1
  }

  lemma {:induction false} SequentialOvershootInv(included: nat, credit: nat, start: nat, cap: nat, p: Position, charges: seq<nat>)
    requires cap >= 1 && AtMost(charges, cap) && InBounds(included, credit, start, cap, p)
    ensures InBounds(included, credit, start, cap, ServeAll(included, credit, p, charges))
    decreases |charges|
  {
    if charges != [] {
      SplitIsExact(charges[0], included, p.allowanceSpent);
      SequentialOvershootInv(included, credit, start, cap, Serve(included, credit, p, charges[0]), charges[1..]);
    }
  }

  /** One period: the allowance is never exceeded and credit by less than one request. */
  lemma SequentialOvershoot(included: nat, credit: nat, start: nat, cap: nat, charges: seq<nat>)
    requires cap >= 1 && AtMost(charges, cap)
    ensures var p := ServeAll(included, credit, Position(0, start), charges);
      p.allowanceSpent <= included && p.spent <= Max(start, credit) + cap - 1
  {
    SequentialOvershootInv(included, credit, start, cap, Position(0, start), charges);
  }

  /** The non-chat doors also require one whole unit to fit (a zero rate always passes). */
  function ServeUnit(included: nat, credit: nat, p: Position, unit: nat): Position {
    if !Gate(included, credit, p).Allow? then p
    else if unit > 0 && Gate(included, credit, p).remaining < unit then p
    else Record(included, p, unit)
  }

  function ServeUnits(included: nat, credit: nat, p: Position, units: seq<nat>): Position
    decreases |units|
  {
    if units == [] then p else ServeUnits(included, credit, ServeUnit(included, credit, p, units[0]), units[1..])
  }

  /** A position after paying a charge, allowance first. */
  predicate Paid(included: nat, p: Position, charge: int, q: Position) {
    AllowanceFirst(charge, included, p.allowanceSpent, q.allowanceSpent - p.allowanceSpent, q.spent - p.spent)
  }

  /** A chat request is served if and only if either pool has anything left; then it is paid in full. */
  lemma ServedExactlyWhen(included: nat, credit: nat, p: Position, charge: nat)
    requires p.allowanceSpent >= 0 && p.spent >= 0
    ensures if p.allowanceSpent < included || p.spent < credit then Paid(included, p, charge, Serve(included, credit, p, charge))
            else Serve(included, credit, p, charge) == p
  {
  }

  /** A unit request is served if and only if something is left and, unless it is free, both pools together cover it. */
  lemma UnitServedExactlyWhen(included: nat, credit: nat, p: Position, unit: nat)
    requires p.allowanceSpent >= 0 && p.spent >= 0
    ensures var left := Left(included, p.allowanceSpent) + Left(credit, p.spent);
      if left > 0 && (unit == 0 || unit <= left) then Paid(included, p, unit, ServeUnit(included, credit, p, unit))
      else ServeUnit(included, credit, p, unit) == p
  {
  }

  /** Single-unit requests at any mix of rates never overshoot at all. */
  lemma {:induction false} UnitRequestsNeverOvershoot(included: nat, credit: nat, p: Position, units: seq<nat>)
    requires 0 <= p.allowanceSpent <= included && 0 <= p.spent
    ensures var q := ServeUnits(included, credit, p, units);
      p.allowanceSpent <= q.allowanceSpent <= included && p.spent <= q.spent <= Max(p.spent, credit)
    decreases |units|
  {
    if units != [] {
      SplitIsExact(units[0], included, p.allowanceSpent);
      UnitRequestsNeverOvershoot(included, credit, ServeUnit(included, credit, p, units[0]), units[1..]);
    }
  }

  // ---- several periods: the allowance resets, spent does not ----

  function ServePeriods(included: nat, credit: nat, spent: int, months: seq<seq<nat>>): int
    decreases |months|
  {
    if months == [] then spent
    else ServePeriods(included, credit, ServeAll(included, credit, Position(0, spent), months[0]).spent, months[1..])
  }

  predicate AllAtMost(months: seq<seq<nat>>, cap: nat) { forall i :: 0 <= i < |months| ==> AtMost(months[i], cap) }

  lemma {:induction false} PureCreditPeriod(credit: nat, p: Position, charges: seq<nat>, cap: nat, bound: int)
    requires cap >= 1 && AtMost(charges, cap) && 0 <= p.spent <= bound && credit + cap - 1 <= bound && p.allowanceSpent == 0
    ensures var q := ServeAll(0, credit, p, charges); q.allowanceSpent == 0 && 0 <= q.spent <= bound
    decreases |charges|
  {
    if charges != [] {
      SplitIsExact(charges[0], 0, 0);
      PureCreditPeriod(credit, Serve(0, credit, p, charges[0]), charges[1..], cap, bound);
    }
  }

  lemma {:induction false} PureCreditPeriods(credit: nat, spent: nat, cap: nat, months: seq<seq<nat>>, bound: int)
    requires cap >= 1 && AllAtMost(months, cap) && spent <= bound && credit + cap - 1 <= bound
    ensures ServePeriods(0, credit, spent, months) <= bound
    decreases |months|
  {
    if months != [] {
      PureCreditPeriod(credit, Position(0, spent), months[0], cap, bound);
      PureCreditPeriods(credit, ServeAll(0, credit, Position(0, spent), months[0]).spent, cap, months[1..], bound);
    }
  }

  lemma {:induction false} AllowancePeriods(included: nat, credit: nat, spent: nat, cap: nat, months: seq<seq<nat>>)
    requires cap >= 1 && AllAtMost(months, cap)
    ensures ServePeriods(included, credit, spent, months) <= Max(spent, credit) + |months| * (cap - 1)
    decreases |months|
  {
    if months != [] {
      SequentialOvershootInv(included, credit, spent, cap, Position(0, spent), months[0]);
      var next := ServeAll(included, credit, Position(0, spent), months[0]).spent;
      assert spent <= next <= Max(spent, credit) + (cap - 1);
      AllowancePeriods(included, credit, next, cap, months[1..]);
      Arith.OneMore(|months[1..]|, cap - 1);
    }
  }

  /** Whether one request's overshoot bounds an account for ever, however long it runs. */
  ghost predicate OneRequestOvershoot(included: nat, cap: nat) {
    forall credit: nat, spent: nat, months: seq<seq<nat>> :: AllAtMost(months, cap) ==>
      ServePeriods(included, credit, spent, months) <= Max(spent, credit) + cap - 1
  }

  /** Two months in which the allowance opens the gate on an account already out of credit. */
  function TwoMonths(included: nat, cap: nat): seq<seq<nat>> {
    [Burn(included - 1) + [cap], Burn(included - 1) + [cap]]
  }

  function Burn(n: int): (s: seq<nat>)
    ensures |s| == Max(0, n)
  {
    if n <= 0 then [] else [1] + Burn(n - 1)
  }

  lemma {:induction false} BurnThenOvershoot(included: nat, spent: nat, used: nat, cap: nat)
    requires used < included && cap >= 2
    ensures ServeAll(included, 0, Position(used, spent), Burn(included - used - 1) + [cap])
         == Position(included, spent + cap - 1)
    decreases included - used
  {
    var charges := Burn(included - used - 1) + [cap];
    if used == included - 1 {
      assert charges == [cap] && charges[1..] == [];
      assert Serve(included, 0, Position(used, spent), cap) == Position(included, spent + cap - 1);
    } else {
      assert charges[0] == 1 && charges[1..] == Burn(included - used - 2) + [cap];
      assert Serve(included, 0, Position(used, spent), 1) == Position(used + 1, spent);
      BurnThenOvershoot(included, spent, used + 1, cap);
    }
  }

  lemma {:induction false} BurnIsSmall(n: int, cap: nat)
    requires cap >= 1
    ensures AtMost(Burn(n) + [cap], cap)
  {
    if n > 0 {
      BurnIsSmall(n - 1, cap);
      assert Burn(n) + [cap] == [1] + (Burn(n - 1) + [cap]);
    }
  }

  /**
   "At most one request of overshoot" holds for an account's whole life exactly when the plan has no
   monthly allowance (or no request can cost more than one micro-USD); otherwise it is one per period.
   */
  lemma LifetimeOvershootExactlyWhen(included: nat, cap: nat)
    requires cap >= 1
    ensures OneRequestOvershoot(included, cap) <==> included == 0 || cap == 1
  {
    if included == 0 {
      forall credit: nat, spent: nat, months: seq<seq<nat>> | AllAtMost(months, cap)
        ensures ServePeriods(included, credit, spent, months) <= Max(spent, credit) + cap - 1
      {
        PureCreditPeriods(credit, spent, cap, months, Max(spent, credit) + cap - 1);
      }
    } else if cap == 1 {
      forall credit: nat, spent: nat, months: seq<seq<nat>> | AllAtMost(months, cap)
        ensures ServePeriods(included, credit, spent, months) <= Max(spent, credit) + cap - 1
      {
        AllowancePeriods(included, credit, spent, cap, months);
        assert |months| * (cap - 1) == 0;
      }
    } else {
      var months := TwoMonths(included, cap);
      BurnIsSmall(included - 1, cap);
      BurnThenOvershoot(included, 0, 0, cap);
      BurnThenOvershoot(included, cap - 1, 0, cap);
      var rest := months[1..];
      assert rest == [months[1]] && |rest[1..]| == 0;
      assert ServePeriods(included, 0, 0, months) == ServePeriods(included, 0, cap - 1, rest);
      assert ServePeriods(included, 0, cap - 1, rest) == ServePeriods(included, 0, 2 * (cap - 1), rest[1..]);
      assert AllAtMost(months, cap);
    }
  }
}
