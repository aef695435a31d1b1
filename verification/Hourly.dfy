/**
 Reconciliation while the month goes on (src/reconcile-run.ts:200-253, src/store-d1.ts:275-456): runs
 interleaved, statement by statement, with recording, dying, overlapping or repeated at will.
 */
module Hourly {
  import opened Wrappers
  import opened Sums
  import opened Ledger
  import opened Calls
  import opened Store
  import opened Reconcile
  import opened ReconcileRun
  import opened Truth
  import AuditTrail

  /**
   Anything the store does, true-ups aside; or some live run reading a ledger row and deciding one gateway
   row of the feed, whose true-up call starts under a fresh row id.
   */
  datatype Deed = Elsewhere(action: Action) | Compare(log: GatewayLog, id: string)

  datatype Month = Month(system: System, decided: seq<DecidedRow>)

  const NEW_MONTH := Month(BOOT, [])

  /** What a deed asks of the store. Only a comparison starts a true-up. */
  function Asks(rows: seq<GatewayLog>, m: Month, e: Deed): Option<Action> {
    match e
    case Elsewhere(a) => if a.Start? && a.call.AdjustInsert? then None else Some(a)
    case Compare(log, id) =>
      var d := Decide(log, m.system.tables.events);
      if log in rows && d.outcome.Adjust? then Some(Start(AdjustInsert(ToAdjustment(d.log, d.outcome, id)))) else None
  }

  function Next(rows: seq<GatewayLog>, m: Month, e: Deed): Month {
    var asked := Asks(rows, m, e);
    Month(if asked.Some? then Calls.Step(m.system, asked.value) else m.system,
          if e.Compare? && e.log in rows then m.decided + [Decide(e.log, m.system.tables.events)] else m.decided)
  }

  function History(rows: seq<GatewayLog>, m: Month, deeds: seq<Deed>): Month
    decreases |deeds|
  {
    if deeds == [] then m else History(rows, Next(rows, m, deeds[0]), deeds[1..])
  }

  function Actions(rows: seq<GatewayLog>, m: Month, deeds: seq<Deed>): seq<Action>
    decreases |deeds|
  {
    if deeds == [] then []
    else
      var asked := Asks(rows, m, deeds[0]);
      (if asked.Some? then [asked.value] else []) + Actions(rows, Next(rows, m, deeds[0]), deeds[1..])
  }

  /** Amounts are never negative, and a minted row id belongs to one key only. */
  predicate SoundDeed(e: Deed, keyOf: string -> string) {
    match e
    case Elsewhere(a) => a.Start? ==> Sound(a.call)
    case Compare(log, id) => keyOf(id) == AdjustmentKey(log.id)
  }

  predicate SoundDeeds(deeds: seq<Deed>, keyOf: string -> string) { forall e :: e in deeds ==> SoundDeed(e, keyOf) }

  /** Every history is a history of the store, so all that holds of those holds here. */
  lemma {:induction false} HistoryIsARun(rows: seq<GatewayLog>, m: Month, deeds: seq<Deed>, keyOf: string -> string)
    requires SoundDeeds(deeds, keyOf)
    ensures History(rows, m, deeds).system == Calls.Run(m.system, Actions(rows, m, deeds))
    ensures SoundActions(Actions(rows, m, deeds))
    decreases |deeds|
  {
    if deeds != [] {
      hide Calls.Step, Decide, SoundDeed, Next, Asks, Sound;
      HistoryIsARun(rows, Next(rows, m, deeds[0]), deeds[1..], keyOf);
      var asked, rest := Asks(rows, m, deeds[0]), Actions(rows, Next(rows, m, deeds[0]), deeds[1..]);
      NextAsks(rows, m, deeds[0]);
      if asked.Some? {
        assert ([asked.value] + rest)[1..] == rest;
        if asked.value.Start? { AskedIsSound(rows, m, deeds[0], keyOf); }
      } else {
        assert [] + rest == rest;
      }
    }
  }

  lemma NextAsks(rows: seq<GatewayLog>, m: Month, e: Deed)
    ensures Next(rows, m, e).system == match Asks(rows, m, e) case Some(a) => Calls.Step(m.system, a) case None => m.system
  {
  }

  lemma AskedIsSound(rows: seq<GatewayLog>, m: Month, e: Deed, keyOf: string -> string)
    requires SoundDeed(e, keyOf) && Asks(rows, m, e).Some? && Asks(rows, m, e).value.Start?
    ensures Sound(Asks(rows, m, e).value.call)
  {
  }

  // ---- a comparison made once is the comparison made at any later moment ----

  lemma {:induction false} FindEventStays(rows: seq<UsageEvent>, more: seq<UsageEvent>, requestId: string)
    requires FindEvent(rows, requestId).Some?
    ensures FindEvent(rows + more, requestId) == FindEvent(rows, requestId)
  {
    if rows[0].requestId != requestId {
      assert (rows + more)[1..] == rows[1..] + more;
      FindEventStays(rows[1..], more, requestId);
    }
  }

  /** The decision came before its ledger row, or is the one these ledger rows still call for. */
  predicate Stands(d: DecidedRow, events: seq<UsageEvent>) {
    d.outcome == Skipped(NoLedgerRow) || d == Decide(d.log, events)
  }

  lemma DecisionsStand(d: DecidedRow, events: seq<UsageEvent>, later: seq<UsageEvent>)
    requires Stands(d, events) && events <= later
    ensures Stands(d, later)
  {
    assert later == events + later[|events|..];
    if NeedsLedgerLookup(d.log) && FindEvent(events, d.log.requestId.value).Some? {
      FindEventStays(events, later[|events|..], d.log.requestId.value);
    }
  }

  // ---- every true-up row goes back to a decision ----

  ghost predicate Justified(decided: seq<DecidedRow>, keyOf: string -> string, r: Adjustment) {
    keyOf(r.id) == r.key && exists d :: d in decided && d.outcome.Adjust? && TrueUpRow(d) == Unnamed(r)
  }

  ghost predicate Starting(s: System, key: string) {
    exists i :: 0 <= i < |s.calls| && s.calls[i].AdjustInsert? && s.calls[i].row.key == key
  }

  ghost predicate Kept(rows: seq<GatewayLog>, keyOf: string -> string, m: Month) {
    && (forall r :: r in m.system.tables.adjustments ==> Justified(m.decided, keyOf, r))
    && (forall i :: 0 <= i < |m.system.calls| && m.system.calls[i].AdjustInsert? ==>
          Justified(m.decided, keyOf, m.system.calls[i].row))
    && (forall d :: d in m.decided ==> d.log in rows && Stands(d, m.system.tables.events))
    && (m.system.lost == [] ==> forall d :: d in m.decided && d.outcome.Adjust? ==>
          AuditTrail.HasTrueUp(m.system.tables, AdjustmentKey(d.log.id)) || Starting(m.system, AdjustmentKey(d.log.id)))
  }

  /** A statement adds at most its own true-up row, and never starts a true-up. */
  lemma StatementAdds(t: Tables, call: Call)
    ensures var n := Advance(t, call);
      && !n.call.AdjustInsert? && t.events <= n.tables.events && t.adjustments <= n.tables.adjustments
      && (forall r :: r in n.tables.adjustments ==> r in t.adjustments || call == AdjustInsert(r))
      && (call.AdjustInsert? ==> HasAdjustment(n.tables.adjustments, call.row))
  {
    AuditTrail.StatementKeepsRows(t, call);
    if call.AdjustInsert? && !HasAdjustment(t.adjustments, call.row) {
      var after := Advance(t, call).tables.adjustments;
      assert after[|t.adjustments|] == call.row && AdjustmentsClash(call.row, call.row);
      assert HasAdjustment(after, call.row);
    }
  }

  lemma ExecKeeps(rows: seq<GatewayLog>, keyOf: string -> string, m: Month, i: nat)
    requires Kept(rows, keyOf, m) && i < |m.system.calls|
    ensures Kept(rows, keyOf, m.(system := Calls.Step(m.system, Exec(i))))
  {
    hide Advance, Stands, Justified, Decide;
    var s, s' := m.system, Calls.Step(m.system, Exec(i));
    StatementAdds(s.tables, s.calls[i]);
    forall d | d in m.decided ensures Stands(d, s'.tables.events) { DecisionsStand(d, s.tables.events, s'.tables.events); }
    if s'.lost == [] {
      forall d | d in m.decided && d.outcome.Adjust?
        ensures AuditTrail.HasTrueUp(s'.tables, AdjustmentKey(d.log.id)) || Starting(s', AdjustmentKey(d.log.id))
      {
        StillUnderWay(m, keyOf, i, AdjustmentKey(d.log.id));
      }
    }
  }

  lemma StillUnderWay(m: Month, keyOf: string -> string, i: nat, key: string)
    requires i < |m.system.calls| && (AuditTrail.HasTrueUp(m.system.tables, key) || Starting(m.system, key))
    requires forall r :: r in m.system.tables.adjustments ==> Justified(m.decided, keyOf, r)
    requires m.system.calls[i].AdjustInsert? ==> Justified(m.decided, keyOf, m.system.calls[i].row)
    ensures var s' := Calls.Step(m.system, Exec(i)); AuditTrail.HasTrueUp(s'.tables, key) || Starting(s', key)
  {
    hide Advance;
    var s, s' := m.system, Calls.Step(m.system, Exec(i));
    StatementAdds(s.tables, s.calls[i]);
    if AuditTrail.HasTrueUp(s.tables, key) {
      var r :| r in s.tables.adjustments && r.key == key;
      assert r in s'.tables.adjustments;
    } else {
      var j :| 0 <= j < |s.calls| && s.calls[j].AdjustInsert? && s.calls[j].row.key == key;
      if j == i {
        var x :| x in s'.tables.adjustments && AdjustmentsClash(x, s.calls[i].row);
        assert Justified(m.decided, keyOf, x);
        assert x.key == key;
      } else {
        assert s'.calls[j] == s.calls[j];
      }
    }
  }

  lemma JustifiedStays(decided: seq<DecidedRow>, d: DecidedRow, keyOf: string -> string, r: Adjustment)
    requires Justified(decided, keyOf, r)
    ensures Justified(decided + [d], keyOf, r)
  {
    var x :| x in decided && x.outcome.Adjust? && TrueUpRow(x) == Unnamed(r);
    assert x in decided + [d];
  }

  lemma CompareKeeps(rows: seq<GatewayLog>, keyOf: string -> string, m: Month, log: GatewayLog, id: string)
    requires Kept(rows, keyOf, m) && keyOf(id) == AdjustmentKey(log.id)
    ensures Kept(rows, keyOf, Next(rows, m, Compare(log, id)))
  {
    hide Justified, Decide, AdjustmentKey;
    if log in rows {
      var s := m.system;
      var d := Decide(log, s.tables.events);
      var m' := Next(rows, m, Compare(log, id));
      DecideIsOf(log, s.tables.events);
      forall r | Justified(m.decided, keyOf, r) ensures Justified(m'.decided, keyOf, r) {
        JustifiedStays(m.decided, d, keyOf, r);
      }
      assert m'.decided[|m.decided|] == d;
      if d.outcome.Adjust? {
        var r := ToAdjustment(d.log, d.outcome, id);
        assert m'.system.calls == s.calls + [AdjustInsert(r)];
        assert m'.system.calls[|s.calls|] == AdjustInsert(r);
        JustifiedByIt(m'.decided, d, keyOf, id);
        forall key | Starting(s, key) ensures Starting(m'.system, key) {
          var i :| 0 <= i < |s.calls| && s.calls[i].AdjustInsert? && s.calls[i].row.key == key;
          assert m'.system.calls[i] == s.calls[i];
        }
        assert Starting(m'.system, AdjustmentKey(d.log.id));
      }
    }
  }

  lemma DecideIsOf(log: GatewayLog, events: seq<UsageEvent>)
    ensures Decide(log, events).log == log
  {
  }

  lemma JustifiedByIt(decided: seq<DecidedRow>, d: DecidedRow, keyOf: string -> string, id: string)
    requires d in decided && d.outcome.Adjust? && keyOf(id) == AdjustmentKey(d.log.id)
    ensures Justified(decided, keyOf, ToAdjustment(d.log, d.outcome, id))
  {
    assert TrueUpRow(d) == Unnamed(ToAdjustment(d.log, d.outcome, id));
  }

  lemma ElsewhereKeeps(rows: seq<GatewayLog>, keyOf: string -> string, m: Month, a: Action)
    requires Kept(rows, keyOf, m)
    ensures Kept(rows, keyOf, Next(rows, m, Elsewhere(a)))
  {
    hide Justified, Decide, Advance;
    match a
    case Start(call) =>
      var s' := Next(rows, m, Elsewhere(a)).system;
      forall key | Starting(m.system, key) ensures Starting(s', key) {
        var i :| 0 <= i < |m.system.calls| && m.system.calls[i].AdjustInsert? && m.system.calls[i].row.key == key;
        assert s'.calls[i] == m.system.calls[i];
      }
    case Exec(i) => if i < |m.system.calls| { ExecKeeps(rows, keyOf, m, i); }
    case Crash(i) =>
  }

  lemma {:induction false} HistoryKeeps(rows: seq<GatewayLog>, keyOf: string -> string, m: Month, deeds: seq<Deed>)
    requires Kept(rows, keyOf, m) && SoundDeeds(deeds, keyOf)
    ensures Kept(rows, keyOf, History(rows, m, deeds))
    decreases |deeds|
  {
    hide Kept, Next;
    if deeds != [] {
      assert deeds[0] in deeds;
      match deeds[0] {
        case Elsewhere(a) => ElsewhereKeeps(rows, keyOf, m, a);
        case Compare(log, id) => CompareKeeps(rows, keyOf, m, log, id);
      }
      HistoryKeeps(rows, keyOf, Next(rows, m, deeds[0]), deeds[1..]);
    }
  }

  /** What a true-up row says of itself, against the gateway row and the ledger row it came from. */
  predicate Warranted(l: GatewayLog, e: UsageEvent, r: Adjustment) {
    && l.requestId == Some(r.requestId) && r.requestId != "" && !l.cached && l.cost == Some(r.gateway)
    && (l.accountId == Some(r.accountId) || l.accountId == Some("") || l.accountId == None)
    && r.gatewayLogId == l.id && r.key == "aig:" + l.id
    && (r.requestId, r.usageEventId, r.accountId, r.periodKey) == (e.requestId, e.id, e.accountId, e.periodKey)
    && r.estimate == (if e.metered then e.microUsd else 0) && r.delta == r.gateway - r.estimate && r.delta != 0
    && r.applied == (if r.delta > 0 then r.delta else -r.delta) && (r.direction.Spend? <==> r.delta > 0)
  }

  lemma DecidedRowIsWarranted(d: DecidedRow, events: seq<UsageEvent>, r: Adjustment)
    requires d == Decide(d.log, events) && d.outcome.Adjust? && TrueUpRow(d) == Unnamed(r)
    ensures d.outcome.event in events && Warranted(d.log, d.outcome.event, r)
  {
    DecisionExactlyWhen(d.log, LedgerRow(d.log, events));
    assert r.key == TrueUpRow(d).key && r.gatewayLogId == TrueUpRow(d).gatewayLogId;
    assert r.accountId == TrueUpRow(d).accountId && r.requestId == TrueUpRow(d).requestId;
    assert r.usageEventId == TrueUpRow(d).usageEventId && r.periodKey == TrueUpRow(d).periodKey;
    assert r.estimate == TrueUpRow(d).estimate && r.gateway == TrueUpRow(d).gateway && r.delta == TrueUpRow(d).delta;
    assert r.applied == TrueUpRow(d).applied && r.direction == TrueUpRow(d).direction;
  }

  /**
   In every history every stored true-up is warranted by a row of the feed and a ledger row: none is ever
   made for another account, a cached or uncosted row, or an amount other than the difference.
   */
  lemma TrueUpsAreWarranted(rows: seq<GatewayLog>, deeds: seq<Deed>, keyOf: string -> string, r: Adjustment)
    requires SoundDeeds(deeds, keyOf) && r in History(rows, NEW_MONTH, deeds).system.tables.adjustments
    ensures exists l, e :: l in rows && e in History(rows, NEW_MONTH, deeds).system.tables.events && Warranted(l, e, r)
  {
    hide History, SoundDeeds, Decide, Warranted;
    var m := History(rows, NEW_MONTH, deeds);
    NothingYet(rows, keyOf);
    HistoryKeeps(rows, keyOf, NEW_MONTH, deeds);
    assert Justified(m.decided, keyOf, r);
    var d :| d in m.decided && d.outcome.Adjust? && TrueUpRow(d) == Unnamed(r);
    assert Stands(d, m.system.tables.events);
    DecidedRowIsWarranted(d, m.system.tables.events, r);
  }

  // ---- the stored true-ups are those of one pass over the rows that landed ----

  /** Some run compared the row with its ledger row, and the true-up that calls for, if any, is stored. */
  ghost predicate HasLanded(m: Month, l: GatewayLog) {
    exists d :: d in m.decided && d.log == l && Compared(d.outcome)
             && (d.outcome.Adjust? ==> AuditTrail.HasTrueUp(m.system.tables, AdjustmentKey(l.id)))
  }

  ghost function Landed(rows: seq<GatewayLog>, m: Month): seq<GatewayLog> {
    if rows == [] then []
    else Landed(rows[..|rows| - 1], m) + if HasLanded(m, rows[|rows| - 1]) then [rows[|rows| - 1]] else []
  }

  /** The decisions one pass over those rows would make now. */
  ghost function Pass(rows: seq<GatewayLog>, m: Month): seq<DecidedRow> {
    DecideAll(Landed(rows, m), m.system.tables.events)
  }

  lemma {:induction false} LandedAre(rows: seq<GatewayLog>, m: Month)
    requires DistinctRows(rows)
    ensures DistinctRows(Landed(rows, m)) && forall l :: l in Landed(rows, m) <==> l in rows && HasLanded(m, l)
  {
    if |rows| > 0 {
      hide HasLanded;
      LandedAre(rows[..|rows| - 1], m);
      var last := rows[|rows| - 1];
      forall l | l in Landed(rows[..|rows| - 1], m) ensures l.id != last.id {
        var i :| 0 <= i < |rows| - 1 && rows[i] == l;
      }
    }
  }

  ghost predicate AskedFor(ds: seq<DecidedRow>, account: string, period: string, x: Adjustment) {
    Picked(ds, TrueUpAsked(account, period), x)
  }

  ghost predicate StoredFor(rows: seq<Adjustment>, account: string, period: string, x: Adjustment) {
    Picked(rows, TrueUpWithin(account, period), x)
  }

  lemma AskedApart(ds: seq<DecidedRow>, account: string, period: string)
    requires forall i, j :: 0 <= i < j < |ds| ==> ds[i].log.id != ds[j].log.id
    ensures PicksApart(ds, TrueUpAsked(account, period))
  {
    var f := TrueUpAsked(account, period);
    forall i, j | 0 <= i < j < |ds| && f(ds[i]).Some? ensures f(ds[i]) != f(ds[j]) {
      assert f(ds[i]).value.gatewayLogId == ds[i].log.id;
    }
  }

  lemma StoredApart(rows: seq<Adjustment>, account: string, period: string)
    requires forall i, j :: 0 <= i < j < |rows| ==> rows[i].key != rows[j].key
    ensures PicksApart(rows, TrueUpWithin(account, period))
  {
    var f := TrueUpWithin(account, period);
    forall i, j | 0 <= i < j < |rows| && f(rows[i]).Some? ensures f(rows[i]) != f(rows[j]) {
      assert f(rows[i]).value.key == rows[i].key;
    }
  }

  lemma StoredIsAskedFor(rows: seq<GatewayLog>, keyOf: string -> string, m: Month, account: string, period: string, r: Adjustment)
    requires Kept(rows, keyOf, m) && DistinctRows(rows)
    requires r in m.system.tables.adjustments && TrueUpOf(r, account, period)
    ensures AskedFor(Pass(rows, m), account, period, Unnamed(r))
  {
    hide Decide, AdjustmentKey, TrueUpAsked, TrueUpOf, Concerns;
    assert Justified(m.decided, keyOf, r);
    var d :| d in m.decided && d.outcome.Adjust? && TrueUpRow(d) == Unnamed(r);
    assert Stands(d, m.system.tables.events);
    assert AuditTrail.HasTrueUp(m.system.tables, AdjustmentKey(d.log.id)) by { assert r.key == TrueUpRow(d).key; }
    assert HasLanded(m, d.log);
    LandedAre(rows, m);
    var i :| 0 <= i < |Landed(rows, m)| && Landed(rows, m)[i] == d.log;
    assert Pass(rows, m)[i] == d;
    AsksFor(d, r, account, period);
  }

  lemma AsksFor(d: DecidedRow, r: Adjustment, account: string, period: string)
    requires d.outcome.Adjust? && TrueUpRow(d) == Unnamed(r)
    ensures TrueUpOf(r, account, period) <==> Concerns(d, account, period)
    ensures TrueUpOf(r, account, period) ==>
      TrueUpAsked(account, period)(d) == Some(Unnamed(r)) && TrueUpWithin(account, period)(r) == Some(TrueUpRow(d))
  {
    assert r.accountId == TrueUpRow(d).accountId && r.periodKey == TrueUpRow(d).periodKey;
  }

  /** A landed row was decided as it would be now. */
  lemma LandedStands(rows: seq<GatewayLog>, keyOf: string -> string, m: Month, l: GatewayLog)
    requires Kept(rows, keyOf, m) && HasLanded(m, l)
    ensures var d := Decide(l, m.system.tables.events);
      d in m.decided && d.log == l && Compared(d.outcome)
      && (d.outcome.Adjust? ==> AuditTrail.HasTrueUp(m.system.tables, AdjustmentKey(l.id)))
  {
    hide Decide, AdjustmentKey;
    var d :| d in m.decided && d.log == l && Compared(d.outcome)
             && (d.outcome.Adjust? ==> AuditTrail.HasTrueUp(m.system.tables, AdjustmentKey(l.id)));
    assert Stands(d, m.system.tables.events);
  }

  lemma SameRow(rows: seq<GatewayLog>, l: GatewayLog, l': GatewayLog)
    requires DistinctRows(rows) && l in rows && l' in rows && l.id == l'.id
    ensures l == l'
  {
    var i :| 0 <= i < |rows| && rows[i] == l;
    var j :| 0 <= j < |rows| && rows[j] == l';
    assert i == j;
  }

  /** The row stored under a gateway row's key is the one today's decision asks for. */
  lemma StoredUnderItsKey(rows: seq<GatewayLog>, keyOf: string -> string, m: Month, r: Adjustment, l: GatewayLog)
    requires Kept(rows, keyOf, m) && DistinctRows(rows)
    requires r in m.system.tables.adjustments && l in rows && r.key == AdjustmentKey(l.id)
    ensures var d := Decide(l, m.system.tables.events);
      d.outcome.Adjust? && TrueUpRow(d) == Unnamed(r)
  {
    hide Decide, AdjustmentKey;
    assert Justified(m.decided, keyOf, r);
    var x :| x in m.decided && x.outcome.Adjust? && TrueUpRow(x) == Unnamed(r);
    assert r.key == TrueUpRow(x).key;
    KeysAreDistinct(x.log.id, l.id);
    SameRow(rows, x.log, l);
    assert Stands(x, m.system.tables.events);
  }

  lemma AskedForIsStored(rows: seq<GatewayLog>, keyOf: string -> string, m: Month, account: string, period: string,
                         d: DecidedRow)
    requires Kept(rows, keyOf, m) && DistinctRows(rows)
    requires d in Pass(rows, m) && Concerns(d, account, period) && d.outcome.Adjust?
    ensures StoredFor(m.system.tables.adjustments, account, period, TrueUpRow(d))
  {
    hide Decide, AdjustmentKey, TrueUpWithin, TrueUpOf, Concerns, Kept, DistinctRows, TrueUpRow, HasLanded;
    var i :| 0 <= i < |Landed(rows, m)| && Pass(rows, m)[i] == d;
    var l := Landed(rows, m)[i];
    LandedAre(rows, m);
    LandedStands(rows, keyOf, m, l);
    var r :| r in m.system.tables.adjustments && r.key == AdjustmentKey(l.id);
    StoredUnderItsKey(rows, keyOf, m, r, l);
    AsksFor(d, r, account, period);
  }

  /** Whatever happened, the stored true-ups are those of one pass over the landed rows against today's ledger. */
  lemma PassExplains(rows: seq<GatewayLog>, deeds: seq<Deed>, keyOf: string -> string, account: string, period: string)
    requires DistinctRows(rows) && SoundDeeds(deeds, keyOf)
    ensures var m := History(rows, NEW_MONTH, deeds);
      Explains(Pass(rows, m), m.system.tables, account, period)
  {
    hide Decide, History, SoundDeeds, Kept, DistinctRows;
    var m := History(rows, NEW_MONTH, deeds);
    NothingYet(rows, keyOf);
    HistoryKeeps(rows, keyOf, NEW_MONTH, deeds);
    HistoryIsARun(rows, NEW_MONTH, deeds, keyOf);
    AuditTrail.RowsAreUniqueAndPermanent(BOOT, Actions(rows, NEW_MONTH, deeds));
    DecisionsAreGenuine(Landed(rows, m), m.system.tables.events);
    SameRows(rows, keyOf, m, account, period);
  }

  lemma SameRows(rows: seq<GatewayLog>, keyOf: string -> string, m: Month, account: string, period: string)
    requires Kept(rows, keyOf, m) && DistinctRows(rows) && AuditTrail.Unique(m.system.tables)
    ensures multiset(RowsOf(Pass(rows, m), account, period)) == multiset(TrueUpsIn(m.system.tables.adjustments, account, period))
  {
    hide Pass, Kept, DistinctRows, TrueUpAsked, TrueUpWithin, PicksApart, Picked;
    var t, ds := m.system.tables, Pass(rows, m);
    PassIsDistinct(rows, m);
    AskedApart(ds, account, period);
    StoredApart(t.adjustments, account, period);
    PickHasNoRepeats(ds, TrueUpAsked(account, period));
    PickHasNoRepeats(t.adjustments, TrueUpWithin(account, period));
    forall x ensures x in RowsOf(ds, account, period) <==> x in TrueUpsIn(t.adjustments, account, period) {
      PickHolds(ds, TrueUpAsked(account, period), x);
      PickHolds(t.adjustments, TrueUpWithin(account, period), x);
      SameAskedAndStored(rows, keyOf, m, account, period, x);
    }
    SameElements(RowsOf(ds, account, period), TrueUpsIn(t.adjustments, account, period));
  }

  lemma NothingYet(rows: seq<GatewayLog>, keyOf: string -> string)
    ensures Kept(rows, keyOf, NEW_MONTH)
  {
  }

  lemma PassIsDistinct(rows: seq<GatewayLog>, m: Month)
    requires DistinctRows(rows)
    ensures forall i, j :: 0 <= i < j < |Pass(rows, m)| ==> Pass(rows, m)[i].log.id != Pass(rows, m)[j].log.id
  {
    LandedAre(rows, m);
    forall i | 0 <= i < |Pass(rows, m)| ensures Pass(rows, m)[i].log == Landed(rows, m)[i] {
      DecideIsOf(Landed(rows, m)[i], m.system.tables.events);
    }
  }

  lemma SameAskedAndStored(rows: seq<GatewayLog>, keyOf: string -> string, m: Month, account: string, period: string, x: Adjustment)
    requires Kept(rows, keyOf, m) && DistinctRows(rows)
    ensures AskedFor(Pass(rows, m), account, period, x) <==> StoredFor(m.system.tables.adjustments, account, period, x)
  {
    hide Pass, Kept, DistinctRows, TrueUpOf, Concerns, TrueUpRow, Unnamed;
    if AskedFor(Pass(rows, m), account, period, x) {
      var d :| d in Pass(rows, m) && Concerns(d, account, period) && d.outcome.Adjust? && x == TrueUpRow(d);
      AskedForIsStored(rows, keyOf, m, account, period, d);
    }
    if StoredFor(m.system.tables.adjustments, account, period, x) {
      var r :| r in m.system.tables.adjustments && TrueUpOf(r, account, period) && x == Unnamed(r);
      StoredIsAskedFor(rows, keyOf, m, account, period, r);
    }
  }

  // ---- the published figure, whatever the schedule ----

  /**
   At every moment of every history - runs interleaved with recording, overlapping, repeated or dying
   anywhere - the published figure and what is still outstanding are what the biller charged for the landed
   rows, plus the estimates of the period, less those of the rows compared.
   */
  lemma FigureAtAnyMoment(rows: seq<GatewayLog>, deeds: seq<Deed>, keyOf: string -> string, account: string, period: string)
    requires DistinctRows(rows) && SoundDeeds(deeds, keyOf)
    ensures var m := History(rows, NEW_MONTH, deeds);
      Reconciled(m.system.tables, account, period) + Outstanding(m.system, account, period)
      == GatewayIn(Pass(rows, m), account, period)
         + SumEstimates(EventsIn(m.system.tables.events, account, period))
         - SumEstimates(ComparedIn(Pass(rows, m), account, period))
  {
    hide History, Pass, Reconciled, Outstanding, SoundDeeds, DistinctRows;
    HistoryIsARun(rows, NEW_MONTH, deeds, keyOf);
    PassExplains(rows, deeds, keyOf, account, period);
    ReconciledFigure(Actions(rows, NEW_MONTH, deeds), Pass(rows, History(rows, NEW_MONTH, deeds)), account, period);
  }

  /** With no call dead or in flight, a row has landed exactly when some run compared it. */
  lemma CalmLandsAll(rows: seq<GatewayLog>, deeds: seq<Deed>, keyOf: string -> string, l: GatewayLog)
    requires SoundDeeds(deeds, keyOf) && Calm(History(rows, NEW_MONTH, deeds).system)
    ensures var m := History(rows, NEW_MONTH, deeds);
      HasLanded(m, l) <==> exists d :: d in m.decided && d.log == l && Compared(d.outcome)
  {
    hide History, SoundDeeds, AdjustmentKey;
    var m := History(rows, NEW_MONTH, deeds);
    NothingYet(rows, keyOf);
    HistoryKeeps(rows, keyOf, NEW_MONTH, deeds);
    assert forall key :: !Starting(m.system, key);
  }

  /** In a calm month the figure is the biller's exactly when the compared estimates add up to the period's. */
  lemma MonthIsBilledExactlyWhen(rows: seq<GatewayLog>, deeds: seq<Deed>, keyOf: string -> string,
                                 account: string, period: string)
    requires DistinctRows(rows) && SoundDeeds(deeds, keyOf) && Calm(History(rows, NEW_MONTH, deeds).system)
    ensures var m := History(rows, NEW_MONTH, deeds);
      Reconciled(m.system.tables, account, period) == GatewayIn(Pass(rows, m), account, period)
      <==> SumEstimates(ComparedIn(Pass(rows, m), account, period))
           == SumEstimates(EventsIn(m.system.tables.events, account, period))
  {
    hide History, Pass, Reconciled, Outstanding, SoundDeeds, DistinctRows;
    FigureAtAnyMoment(rows, deeds, keyOf, account, period);
    CalmOwesNothing(History(rows, NEW_MONTH, deeds).system, account, period);
  }

  // ---- one compared gateway row for each ledger row ----

  /** Some run compared this gateway row with this ledger row, and what that calls for is stored. */
  ghost predicate ComparedWith(rows: seq<GatewayLog>, m: Month, l: GatewayLog, e: UsageEvent) {
    && l in rows && HasLanded(m, l)
    && var o := Decide(l, m.system.tables.events).outcome; Compared(o) && o.event == e
  }

  /** Every ledger row of the period was compared, and with one gateway row only. */
  ghost predicate EachComparedOnce(rows: seq<GatewayLog>, m: Month, account: string, period: string) {
    forall e :: e in m.system.tables.events && e.accountId == account && e.periodKey == period ==>
      && (exists l :: ComparedWith(rows, m, l, e))
      && (forall l, l' :: ComparedWith(rows, m, l, e) && ComparedWith(rows, m, l', e) ==> l == l')
  }

  lemma EventsApart(t: Tables, account: string, period: string)
    requires AuditTrail.Unique(t)
    ensures PicksApart(t.events, EventWithin(account, period))
  {
    var f := EventWithin(account, period);
    forall i, j | 0 <= i < j < |t.events| && f(t.events[i]).Some? ensures f(t.events[i]) != f(t.events[j]) {
      assert !EventsClash(t.events[i], t.events[j]);
    }
  }

  lemma ComparedIsRecorded(l: GatewayLog, events: seq<UsageEvent>)
    requires Compared(Decide(l, events).outcome)
    ensures Decide(l, events).outcome.event in events
  {
  }

  lemma PassCompares(rows: seq<GatewayLog>, m: Month, d: DecidedRow)
    requires DistinctRows(rows) && d in Pass(rows, m) && Compared(d.outcome)
    ensures ComparedWith(rows, m, d.log, d.outcome.event) && d.outcome.event in m.system.tables.events
    ensures d == Decide(d.log, m.system.tables.events)
  {
    hide Decide;
    var i :| 0 <= i < |Pass(rows, m)| && Pass(rows, m)[i] == d;
    LandedAre(rows, m);
    DecideIsOf(Landed(rows, m)[i], m.system.tables.events);
    ComparedIsRecorded(d.log, m.system.tables.events);
  }

  lemma ComparedInPass(rows: seq<GatewayLog>, m: Month, l: GatewayLog, e: UsageEvent)
    requires DistinctRows(rows) && ComparedWith(rows, m, l, e)
    ensures Decide(l, m.system.tables.events) in Pass(rows, m)
  {
    hide Decide;
    LandedAre(rows, m);
    var i :| 0 <= i < |Landed(rows, m)| && Landed(rows, m)[i] == l;
    assert Pass(rows, m)[i] == Decide(l, m.system.tables.events);
  }

  lemma ComparedApart(rows: seq<GatewayLog>, m: Month, account: string, period: string)
    requires DistinctRows(rows) && EachComparedOnce(rows, m, account, period)
    ensures PicksApart(Pass(rows, m), EventCompared(account, period))
  {
    hide Pass, ComparedWith, DistinctRows;
    var f, ds := EventCompared(account, period), Pass(rows, m);
    PassIsDistinct(rows, m);
    forall i, j | 0 <= i < j < |ds| && f(ds[i]).Some? ensures f(ds[i]) != f(ds[j]) {
      if f(ds[i]) == f(ds[j]) {
        PassCompares(rows, m, ds[i]);
        PassCompares(rows, m, ds[j]);
      }
    }
  }

  lemma ComparedAreThePeriods(rows: seq<GatewayLog>, m: Month, account: string, period: string, e: UsageEvent)
    requires DistinctRows(rows) && EachComparedOnce(rows, m, account, period)
    ensures e in ComparedIn(Pass(rows, m), account, period) <==> e in EventsIn(m.system.tables.events, account, period)
  {
    hide Pass, ComparedWith, DistinctRows;
    var f, ds, events := EventCompared(account, period), Pass(rows, m), m.system.tables.events;
    PickHolds(ds, f, e);
    PickHolds(events, EventWithin(account, period), e);
    if Picked(ds, f, e) {
      var d :| d in ds && f(d) == Some(e);
      PassCompares(rows, m, d);
      assert EventWithin(account, period)(e) == Some(e);
    }
    if Picked(events, EventWithin(account, period), e) {
      var l :| ComparedWith(rows, m, l, e);
      ComparedInPass(rows, m, l, e);
      WhatItComparedWith(rows, m, l, e);
      assert f(Decide(l, events)) == Some(e);
    }
  }

  lemma WhatItComparedWith(rows: seq<GatewayLog>, m: Month, l: GatewayLog, e: UsageEvent)
    requires ComparedWith(rows, m, l, e)
    ensures var o := Decide(l, m.system.tables.events).outcome; Compared(o) && o.event == e
  {
  }

  /**
   However recording and any number of runs interleaved: once calm, a period each of whose ledger rows was
   compared with exactly one gateway row publishes exactly what the biller charged for it.
   */
  lemma MonthIsBilled(rows: seq<GatewayLog>, deeds: seq<Deed>, keyOf: string -> string, account: string, period: string)
    requires DistinctRows(rows) && SoundDeeds(deeds, keyOf)
    requires var m := History(rows, NEW_MONTH, deeds); Calm(m.system) && EachComparedOnce(rows, m, account, period)
    ensures var m := History(rows, NEW_MONTH, deeds);
      Reconciled(m.system.tables, account, period) == GatewayIn(Pass(rows, m), account, period)
  {
    hide History, Pass, Reconciled, SoundDeeds, DistinctRows, EachComparedOnce, PicksApart, Calm;
    var m := History(rows, NEW_MONTH, deeds);
    var t := m.system.tables;
    HistoryIsARun(rows, NEW_MONTH, deeds, keyOf);
    AuditTrail.RowsAreUniqueAndPermanent(BOOT, Actions(rows, NEW_MONTH, deeds));
    EventsApart(t, account, period);
    ComparedApart(rows, m, account, period);
    PickHasNoRepeats(t.events, EventWithin(account, period));
    PickHasNoRepeats(Pass(rows, m), EventCompared(account, period));
    forall e ensures e in ComparedIn(Pass(rows, m), account, period) <==> e in EventsIn(t.events, account, period) {
      ComparedAreThePeriods(rows, m, account, period, e);
    }
    SameElements(ComparedIn(Pass(rows, m), account, period), EventsIn(t.events, account, period));
    SumIsOrderFree(ComparedIn(Pass(rows, m), account, period), EventsIn(t.events, account, period), Estimate);
    MonthIsBilledExactlyWhen(rows, deeds, keyOf, account, period);
  }

  // ---- a live run is such a history ----

  lemma {:induction false} HistoryConcat(rows: seq<GatewayLog>, m: Month, a: seq<Deed>, b: seq<Deed>)
    ensures History(rows, m, a + b) == History(rows, History(rows, m, a), b)
    decreases |a|
  {
    hide Next;
    if a == [] {
      assert a + b == b;
    } else {
      assert (a + b)[1..] == a[1..] + b;
      HistoryConcat(rows, Next(rows, m, a[0]), a[1..], b);
    }
  }

  /** One row as a run treats it: decided, and its true-up run to its end. */
  function RowDeeds(l: GatewayLog, id: string, slot: nat): seq<Deed> {
    [Compare(l, id), Elsewhere(Exec(slot)), Elsewhere(Exec(slot))]
  }

  lemma OneRowIsAHistory(rows: seq<GatewayLog>, m: Month, l: GatewayLog, p: Progress, ids: nat -> string)
    requires l in rows && p.tables == m.system.tables
    ensures var d := Decide(l, p.tables.events);
      var m' := History(rows, m, RowDeeds(l, ids(p.minted), |m.system.calls|));
      var q := ApplyOne(p, d, ids);
      && m'.system.tables == q.tables && q.tables.events == p.tables.events
      && m'.system.calls == m.system.calls + (if d.outcome.Adjust? then [Done] else [])
      && m'.decided == m.decided + [d]
  {
    hide Decide;
    var slot, d := |m.system.calls|, Decide(l, p.tables.events);
    var e := Elsewhere(Exec(slot));
    var a := Next(rows, m, Compare(l, ids(p.minted)));
    var b := Next(rows, a, e);
    var c := Next(rows, b, e);
    DecideIsOf(l, p.tables.events);
    assert RowDeeds(l, ids(p.minted), slot)[1..] == [e, e] && [e, e][1..] == [e] && [e][1..] == [];
    assert History(rows, b, [e]) == History(rows, c, []);
    assert History(rows, a, [e, e]) == History(rows, b, [e]);
    if d.outcome.Adjust? {
      var r := ToAdjustment(d.log, d.outcome, ids(p.minted));
      CompletedAdjust(p.tables, r);
      assert a.system.calls == m.system.calls + [AdjustInsert(r)];
      assert b.system.calls == m.system.calls + [Advance(p.tables, AdjustInsert(r)).call];
      assert c.system.calls == m.system.calls + [Done];
    }
  }

  function RunDeeds(m: Month, logs: seq<GatewayLog>, ids: nat -> string): seq<Deed> {
    if logs == [] then []
    else
      var before, events := logs[..|logs| - 1], m.system.tables.events;
      var minted := ApplyAll(ProgressFrom(m.system.tables), DecideAll(before, events), ids).minted;
      RunDeeds(m, before, ids) + RowDeeds(logs[|logs| - 1], ids(minted), |m.system.calls| + minted)
  }

  /** What a live run leaves - its decisions applied one by one - is what a history of these deeds leaves. */
  lemma {:induction false} LiveRunIsAHistory(rows: seq<GatewayLog>, m: Month, logs: seq<GatewayLog>, ids: nat -> string)
    requires forall l :: l in logs ==> l in rows
    ensures var events := m.system.tables.events;
      var m' := History(rows, m, RunDeeds(m, logs, ids));
      var q := ApplyAll(ProgressFrom(m.system.tables), DecideAll(logs, events), ids);
      && m'.system.tables == q.tables && q.tables.events == events
      && m'.system.calls == m.system.calls + Copies(Done, q.minted)
      && m'.decided == m.decided + DecideAll(logs, events)
  {
    hide History, Decide, ApplyOne, RowDeeds;
    var t := m.system.tables;
    if |logs| > 0 {
      var before, l := logs[..|logs| - 1], logs[|logs| - 1];
      var p := ApplyAll(ProgressFrom(t), DecideAll(before, t.events), ids);
      LiveRunIsAHistory(rows, m, before, ids);
      var mid := History(rows, m, RunDeeds(m, before, ids));
      HistoryConcat(rows, m, RunDeeds(m, before, ids), RowDeeds(l, ids(p.minted), |m.system.calls| + p.minted));
      assert l in logs;
      OneRowIsAHistory(rows, mid, l, p, ids);
      OneIdEach(p, Decide(l, t.events), ids);
      ApplyAllAppend(ProgressFrom(t), DecideAll(before, t.events), Decide(l, t.events), ids);
      assert Copies(Done, p.minted + 1) == Copies(Done, p.minted) + [Done];
    } else {
      NoDeeds(rows, m);
    }
  }

  lemma NoDeeds(rows: seq<GatewayLog>, m: Month)
    ensures History(rows, m, []) == m
  {
  }

  lemma OneIdEach(p: Progress, d: DecidedRow, ids: nat -> string)
    ensures ApplyOne(p, d, ids).minted == p.minted + if d.outcome.Adjust? then 1 else 0
  {
  }
}
