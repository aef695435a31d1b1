/**
 The concrete store (src/store-d1.ts): a database updated statement by statement. Each method is its call of
 module Calls run without interruption, so what is proved there speaks about these bodies too.
 */
module Store {
  import opened Wrappers
  import opened Ledger
  import opened Calls
  import opened RateLimit
  import opened Sums
  import opened Booked

  /** One reconcile_state row; instants are integers. */
  datatype ReconcileState = ReconcileState(
    watermark: Option<int>, lastLogId: Option<string>, lastRunAt: int, runs: int, rowsSeen: int, rowsAdjusted: int)

  /** The UPSERT of advanceReconcileState: null arguments leave the stored value alone. */
  function NextState(s: Option<ReconcileState>, watermark: Option<int>, lastLogId: Option<string>,
                    at: int, rowsSeen: int, rowsAdjusted: int): ReconcileState {
    match s
    case None => ReconcileState(watermark, lastLogId, at, 1, rowsSeen, rowsAdjusted)
    case Some(was) =>
      ReconcileState(if watermark.Some? then watermark else was.watermark,
                     if lastLogId.Some? then lastLogId else was.lastLogId,
                     at, was.runs + 1, was.rowsSeen + rowsSeen, was.rowsAdjusted + rowsAdjusted)
  }

  /** What one finished run tells the state row. */
  datatype RunNote = RunNote(watermark: Option<int>, lastLogId: Option<string>, at: int, seen: int, adjusted: int)

  function Noted(s: Option<ReconcileState>, notes: seq<RunNote>): Option<ReconcileState> {
    if notes == [] then s
    else
      var n := notes[|notes| - 1];
      Some(NextState(Noted(s, notes[..|notes| - 1]), n.watermark, n.lastLogId, n.at, n.seen, n.adjusted))
  }

  function SeenIn(n: RunNote): int { n.seen }

  function AdjustedIn(n: RunNote): int { n.adjusted }

  /** The last of the values that is one. */
  ghost predicate IsLast<T>(x: Option<T>, n: nat, at: nat -> Option<T>) {
    if x.None? then forall i: nat :: i < n ==> at(i).None?
    else exists k: nat :: k < n && at(k) == x && forall i: nat :: k < i < n ==> at(i).None?
  }

  function WatermarkGiven(notes: seq<RunNote>): nat -> Option<int> {
    (i: nat) => if i < |notes| then notes[i].watermark else None
  }

  function LogIdGiven(notes: seq<RunNote>): nat -> Option<string> {
    (i: nat) => if i < |notes| then notes[i].lastLogId else None
  }

  /**
   However many runs report, from no row at all: the row counts them, adds up what they saw and adjusted,
   and holds the last watermark and the last log id any of them gave; a run that gave none changed neither.
   */
  lemma {:induction false} StateAddsUp(notes: seq<RunNote>)
    requires |notes| > 0
    ensures var s := Noted(None, notes);
      && s.Some? && s.value.runs == |notes| && s.value.lastRunAt == notes[|notes| - 1].at
      && s.value.rowsSeen == Sum(notes, SeenIn) && s.value.rowsAdjusted == Sum(notes, AdjustedIn)
      && IsLast(s.value.watermark, |notes|, WatermarkGiven(notes))
      && IsLast(s.value.lastLogId, |notes|, LogIdGiven(notes))
  {
    hide IsLast;
    var before, n := notes[..|notes| - 1], notes[|notes| - 1];
    if |before| == 0 {
      assert notes == [n];
      SumOfOne(n, SeenIn);
      SumOfOne(n, AdjustedIn);
      NothingLast<int>(WatermarkGiven(before));
      NothingLast<string>(LogIdGiven(before));
    } else {
      StateAddsUp(before);
    }
    var s := Noted(None, before);
    LastOneMore(if s.Some? then s.value.watermark else None, |before|, WatermarkGiven(before), WatermarkGiven(notes));
    LastOneMore(if s.Some? then s.value.lastLogId else None, |before|, LogIdGiven(before), LogIdGiven(notes));
  }

  lemma NothingLast<T>(at: nat -> Option<T>)
    ensures IsLast(None, 0, at)
  {
  }

  lemma LastOneMore<T>(x: Option<T>, n: nat, was: nat -> Option<T>, at: nat -> Option<T>)
    requires IsLast(x, n, was) && forall i: nat :: i < n ==> at(i) == was(i)
    ensures IsLast(if at(n).Some? then at(n) else x, n + 1, at)
  {
    if at(n).None? && x.Some? {
      var k: nat :| k < n && was(k) == x && forall i: nat :: k < i < n ==> was(i).None?;
      assert at(k) == x;
    }
  }

  /** SELECT ... WHERE request_id = ? LIMIT 1. */
  function FindEvent(rows: seq<UsageEvent>, requestId: string): (e: Option<UsageEvent>)
    ensures e.Some? ==> e.value in rows && e.value.requestId == requestId
    ensures e.None? ==> forall r :: r in rows ==> r.requestId != requestId
  {
    if rows == [] then None
    else if rows[0].requestId == requestId then Some(rows[0])
    else FindEvent(rows[1..], requestId)
  }

  /** Ledger rows stamped inside (from, to], oldest first, at most `limit`. */
  function EventsBetween(rows: seq<UsageEvent>, from: int, to: int, limit: nat): (r: seq<UsageEvent>)
    ensures |r| <= limit
    ensures forall e :: e in r ==> e in rows && from < e.createdAt <= to
  {
    if rows == [] || limit == 0 then []
    else if from < rows[0].createdAt <= to then [rows[0]] + EventsBetween(rows[1..], from, to, limit - 1)
    else EventsBetween(rows[1..], from, to, limit)
  }

  function Look<K, V>(m: map<K, V>, k: K): Option<V> { if k in m then Some(m[k]) else None }

  class Db {
    var accounts: map<string, Account>
    var periods: map<(string, string), Period>
    var events: seq<UsageEvent>
    var grants: seq<Grant>
    var adjustments: seq<Adjustment>
    var reconcileStates: map<string, ReconcileState>
    var buckets: map<string, Bucket>

    constructor ()
      ensures Money() == EMPTY && reconcileStates == map[] && buckets == map[]
    {
      accounts, periods, events, grants, adjustments := map[], map[], [], [], [];
      reconcileStates, buckets := map[], map[];
    }

    /** The money tables as one value. */
    ghost function Money(): Tables
      reads this
    {
      Tables(accounts, periods, events, grants, adjustments)
    }

    /** Returns None where the source throws: the batch clashed and was rolled back. */
    method CreateAccount(opening: Grant) returns (row: Option<Account>)
      modifies this`accounts, this`grants
      ensures Money() == Complete(old(Money()), Calls.CreateAccount(opening))
      ensures row.None? <==> CreateRefused(old(Money()), opening)
      ensures row.Some? ==> row.value == Account(opening.microUsd, 0)
      ensures row.Some? ==> AccountOpened(old(Money()), Money(), opening)
      ensures row.None? ==> Money() == old(Money())
    {
      CreatedAccount(Money(), opening);
      if opening.accountId in accounts || HasGrant(grants, opening) {
        return None;
      }
      accounts := accounts[opening.accountId := Account(opening.microUsd, 0)];
      grants := grants + [opening];
      row := Some(accounts[opening.accountId]);
    }

    method GrantCredit(g: Grant) returns (applied: bool, credit: int)
      modifies this`accounts, this`grants
      ensures Money() == Complete(old(Money()), GrantInsert(g))
      ensures applied <==> !HasGrant(old(grants), g)
      ensures credit == Value(Money(), CreditCol(g.accountId))
      ensures !applied ==> Money() == old(Money())
      ensures applied ==> GrantBooked(old(Money()), Money(), g)
    {
      hide GrantBooked;
      GrantedCredit(Money(), g);
      applied := !HasGrant(grants, g);
      if applied {
        grants := grants + [g];
        if g.accountId in accounts {
          var a := accounts[g.accountId];
          accounts := accounts[g.accountId := a.(credit := a.credit + g.microUsd)];
        }
      }
      credit := if g.accountId in accounts then accounts[g.accountId].credit else 0;
      CompletedGrant(old(Money()), g);
    }

    method RecordUsage(e: UsageEvent)
      modifies this`accounts, this`periods, this`events
      ensures Money() == Complete(old(Money()), UsageInsert(e))
      ensures HasEvent(old(events), e) ==> Money() == old(Money())
      ensures HasEvent(events, e)
      ensures (forall r :: r in old(events) ==> !SameEvent(r, e)) ==> UsageBooked(old(Money()), Money(), e)
    {
      hide UsageBooked;
      RecordedUsage(Money(), e);
      var fromAllowance := if e.metered then e.fromAllowance else 0;
      var fromCredit := if e.metered then e.fromCredit else 0;
      CompletedUsage(Money(), e);
      if HasEvent(events, e) {
        return;
      }
      var row := e.(fromAllowance := fromAllowance, fromCredit := fromCredit);
      events := events + [row];
      assert EventsClash(events[|events| - 1], e);

      var key := (e.accountId, e.periodKey);
      var p := if key in periods then periods[key] else NO_USAGE;
      periods := periods[key := Period(
        p.microUsd + (if e.metered then e.microUsd else 0),
        p.requests + 1,
        p.unmetered + (if e.metered then 0 else 1),
        p.adjustSpend,
        p.adjustCredit,
        p.allowanceSpent + fromAllowance)];

      if e.metered && fromCredit > 0 {
        if e.accountId in accounts {
          var a := accounts[e.accountId];
          accounts := accounts[e.accountId := a.(spent := a.spent + fromCredit)];
        }
      }
    }

    method ApplyUsageAdjustment(r: Adjustment) returns (applied: bool)
      modifies this`accounts, this`periods, this`grants, this`adjustments
      ensures Money() == Complete(old(Money()), AdjustInsert(r))
      ensures applied <==> !HasAdjustment(old(adjustments), r)
      ensures !applied ==> Money() == old(Money())
      ensures applied ==> TrueUpBooked(old(Money()), Money(), r)
    {
      hide TrueUpBooked;
      AppliedTrueUp(Money(), r);
      CompletedAdjust(Money(), r);
      if HasAdjustment(adjustments, r) {
        return false;
      }
      adjustments := adjustments + [r];
      RunMoneyBatch(r);
      return true;
    }

    /** The true-up's D1 batch: balance and period move together or not at all. */
    method RunMoneyBatch(r: Adjustment)
      modifies this`accounts, this`periods, this`grants
      ensures Money() == MoneyBatch(old(Money()), r)
    {
      var key := (r.accountId, r.periodKey);
      var p := if key in periods then periods[key] else NO_USAGE;
      if r.direction.Spend? {
        if r.accountId in accounts {
          var a := accounts[r.accountId];
          accounts := accounts[r.accountId := a.(spent := a.spent + r.applied)];
        }
        periods := periods[key := p.(adjustSpend := p.adjustSpend + r.applied)];
        return;
      }
      var grant := Grant(r.id, r.accountId, r.applied, r.key);
      if !HasGrant(grants, grant) {
        grants := grants + [grant];
      }
      if r.accountId in accounts {
        var a := accounts[r.accountId];
        accounts := accounts[r.accountId := a.(credit := a.credit + r.applied)];
      }
      periods := periods[key := p.(adjustCredit := p.adjustCredit + r.applied)];
    }

    method GetUsageEventByRequestId(requestId: string) returns (e: Option<UsageEvent>)
      ensures e == FindEvent(events, requestId)
    {
      e := None;
      var i := 0;
      while i < |events|
        invariant 0 <= i <= |events|
        invariant FindEvent(events, requestId) == FindEvent(events[i..], requestId)
      {
        if events[i].requestId == requestId {
          return Some(events[i]);
        }
        i := i + 1;
      }
    }

    method AdvanceReconcileState(gatewayId: string, watermark: Option<int>, lastLogId: Option<string>,
                                 at: int, rowsSeen: int, rowsAdjusted: int)
      modifies this`reconcileStates
      ensures reconcileStates == old(reconcileStates)[gatewayId :=
        NextState(old(Look(reconcileStates, gatewayId)), watermark, lastLogId, at, rowsSeen, rowsAdjusted)]
    {
      if gatewayId in reconcileStates {
        var s := reconcileStates[gatewayId];
        reconcileStates := reconcileStates[gatewayId := ReconcileState(
          if watermark.Some? then watermark else s.watermark,
          if lastLogId.Some? then lastLogId else s.lastLogId,
          at, s.runs + 1, s.rowsSeen + rowsSeen, s.rowsAdjusted + rowsAdjusted)];
      } else {
        reconcileStates := reconcileStates[gatewayId :=
          ReconcileState(watermark, lastLogId, at, 1, rowsSeen, rowsAdjusted)];
      }
    }

    method ClaimRateBucket(key: string, now: int, window: int) returns (row: Bucket)
      modifies this`buckets
      ensures row == Claim(old(Look(buckets, key)), now, window)
      ensures buckets == old(buckets)[key := row]
    {
      if key !in buckets {
        row := Bucket(1, now);
      } else {
        var b := buckets[key];
        var rolls := now - b.start >= window;
        row := Bucket(if rolls then 1 else b.count + 1, if rolls then now else b.start);
      }
      buckets := buckets[key := row];
    }

    /** checkRateLimit with the clock read made an argument. */
    method CheckRateLimit(key: string, now: int, limit: int, window: int) returns (d: Decision)
      modifies this`buckets
      ensures d == Check(old(Look(buckets, key)), now, limit, window)
      ensures buckets == old(buckets)[key := Bucket(d.count, d.start)]
    {
      var row := ClaimRateBucket(key, now, window);
      var elapsed := now - row.start;
      d := Decision(row.count <= limit, row.count, row.start, Max(1, window - elapsed));
    }
  }
}
