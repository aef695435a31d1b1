/**
 The live speech session (src/stt-session.ts:275-510): a Durable Object whose in-memory state can be lost
 between events, charging audio minutes when the session ends.
 */
module Speech {
  import opened Wrappers
  import opened Ledger
  import opened Balance
  import opened Requests
  import Meter
  import Booked

  const MAX_SESSION_MS := 15 * 60 * 1000

  datatype Meta = Meta(accountId: string, clientId: string, requestId: string, startedMs: int)

  datatype Client = Client(accountId: string, revoked: bool)

  /** The plan row and what it entitles; `Unusable` is a row that does not parse. */
  datatype Plan = Missing | Unusable | Usable(included: nat, entitled: bool)

  /** What one finalize finds outside: the clock, the lookups, and how far the ledger write gets. */
  datatype Findings = Findings(
    nowMs: int, rate: nat, readsFail: bool, client: Option<Client>, suspended: Option<bool>, plan: Plan,
    eventId: string, period: string, dies: Option<nat>)

  /** Whole minutes, at least one, of a wall clock capped at the longest session. */
  function Minutes(startedMs: int, nowMs: int): int {
    var ms := Min(Max(0, nowMs - startedMs), MAX_SESSION_MS);
    if ms <= 0 then 1 else Max(1, (ms + 59_999) / 60_000)
  }

  lemma MinutesAreCapped(startedMs: int, nowMs: int)
    ensures var n := Minutes(startedMs, nowMs);
      && 1 <= n <= 15
      && (nowMs - startedMs <= MAX_SESSION_MS ==> nowMs - startedMs <= n * 60_000)
      && (nowMs > startedMs ==> (n - 1) * 60_000 < nowMs - startedMs)
      && (nowMs - startedMs >= 15 * 60_000 ==> n == 15)
  {
  }

  /** Everything is re-checked at the end; only a session that passes is charged. */
  predicate Chargeable(m: Meta, f: Findings) {
    && f.client.Some? && f.suspended.Some?
    && f.client.value.accountId == m.accountId && !f.client.value.revoked
    && !f.suspended.value
    && f.plan.Usable? && f.plan.entitled
  }

  function Uncharged(m: Meta, account: string, f: Findings): UsageEvent {
    UsageEvent(f.eventId, m.requestId, account, m.clientId, f.period, 0, 0, 0, false, Unpriced, 0)
  }

  /**
   The row a session owes, on what its finalize found: the client's own account; charged only when every
   check passes, whole minutes at the rate, out of what the stored period leaves of the allowance and then credit.
   */
  predicate SessionRow(m: Meta, t: Tables, f: Findings, e: UsageEvent) {
    && f.client.Some? && (e.id, e.requestId, e.clientId, e.periodKey) == (f.eventId, m.requestId, m.clientId, f.period)
    && e.accountId == f.client.value.accountId
    && (e.metered <==> Chargeable(m, f)) && (e.basis.Measured? <==> e.metered) && (e.basis.Unpriced? <==> !e.metered)
    && e.microUsd == (if Chargeable(m, f) then Minutes(m.startedMs, f.nowMs) * f.rate else 0)
    && (Chargeable(m, f) ==>
          Meter.SplitOnRead(e.microUsd, Whole(f.plan.included), Whole(Booked.AllowanceOnRecord(t, m.accountId, f.period)), e))
    && (!Chargeable(m, f) ==> e.fromAllowance == 0 && e.fromCredit == 0)
  }

  /** The row a finalize writes, in the order the checks are made; None when there is nobody to attribute it to. */
  function RowFor(m: Meta, t: Tables, f: Findings): Option<UsageEvent> {
    if f.readsFail || f.client.None? || f.suspended.None? then None
    else if f.client.value.accountId != m.accountId then Some(Uncharged(m, f.client.value.accountId, f))
    else if f.client.value.revoked || f.suspended.value || !f.plan.Usable? || !f.plan.entitled
    then Some(Uncharged(m, m.accountId, f))
    else
      var base := UsageEvent(f.eventId, m.requestId, m.accountId, m.clientId, f.period, 0, 0, 0, true, Measured, 0);
      Some(Meter.BuildEvent(base, Meter.Partial(Minutes(m.startedMs, f.nowMs) * f.rate, true, Measured),
                            Whole(f.plan.included), Whole(PeriodOf(t, m.accountId, f.period).allowanceSpent)))
  }

  /**
   A finalize writes a row whenever it can attribute the session, and a charged one exactly when every
   check passes; the charge is whole minutes at the rate, paid by the pools.
   */
  lemma ChargedExactlyWhen(m: Meta, t: Tables, f: Findings)
    ensures var row := RowFor(m, t, f);
      && (row.Some? <==> !f.readsFail && f.client.Some? && f.suspended.Some?)
      && (row.Some? && row.value.metered <==> !f.readsFail && Chargeable(m, f))
      && (row.Some? ==>
            var e := row.value;
            && ForRequest(m.clientId, m.requestId, e) && e.id == f.eventId && SessionRow(m, t, f, e)
            && e.microUsd == (if Chargeable(m, f) then Minutes(m.startedMs, f.nowMs) * f.rate else 0)
            && e.fromAllowance + e.fromCredit == e.microUsd && e.fromAllowance >= 0 && e.fromCredit >= 0)
  {
    MinutesAreCapped(m.startedMs, f.nowMs);
    Meter.ZeroProduct(Minutes(m.startedMs, f.nowMs), f.rate);
    if !f.readsFail && Chargeable(m, f) {
      var base := UsageEvent(f.eventId, m.requestId, m.accountId, m.clientId, f.period, 0, 0, 0, true, Measured, 0);
      Meter.BuiltRowsArePaid(base, Meter.Partial(Minutes(m.startedMs, f.nowMs) * f.rate, true, Measured),
                             Whole(f.plan.included), Whole(PeriodOf(t, m.accountId, f.period).allowanceSpent));
    }
  }

  datatype Event =
    | Message(found: Findings)
    | Closed(found: Findings)
    | Failed(found: Findings)
    | TimedOut(found: Findings)
    | Evicted

  /** What survives in memory, and the ledger. */
  datatype Memory = Memory(finalized: bool, upstream: bool, timer: bool, tables: Tables)

  function Finalized(m: Meta, s: Memory, f: Findings): Memory {
    if s.finalized then s
    else
      var row := RowFor(m, s.tables, f);
      s.(finalized := true, timer := false,
         tables := if row.None? then s.tables else Recorded(s.tables, Write(row.value, f.dies)).0)
  }

  function Step(m: Meta, s: Memory, e: Event): Memory {
    match e
    case Message(f) => if s.upstream then s else Finalized(m, s, f)
    case Closed(f) => Finalized(m, s.(upstream := false), f)
    case Failed(f) => Finalized(m, s.(upstream := false), f)
    case TimedOut(f) => if s.timer then Finalized(m, s, f) else s
    case Evicted => s.(finalized := false, upstream := false, timer := false)
  }

  class SttSession {
    const meta: Meta
    var finalized: bool
    var upstream: bool
    var maxTimer: bool
    var tables: Tables

    function Now(): Memory
      reads this
    {
      Memory(finalized, upstream, maxTimer, tables)
    }

    constructor (meta: Meta, tables: Tables)
      ensures this.meta == meta && Now() == Memory(false, true, true, tables)
    {
      this.meta, this.tables := meta, tables;
      finalized, upstream, maxTimer := false, true, true;
    }

    method Finalize(f: Findings)
      modifies this
      ensures Now() == Finalized(meta, old(Now()), f)
    {
      if finalized { return; }
      finalized := true;
      maxTimer := false;
      var row := RowFor(meta, tables, f);
      if row.None? { return; }
      var outcome := Recorded(tables, Write(row.value, f.dies));
      tables := outcome.0;
    }

    method WebSocketMessage(f: Findings)
      modifies this
      ensures Now() == Step(meta, old(Now()), Message(f))
    {
      if upstream { return; }
      Finalize(f);
    }

    method WebSocketClose(f: Findings)
      modifies this
      ensures Now() == Step(meta, old(Now()), Closed(f))
    {
      upstream := false;
      Finalize(f);
    }

    method WebSocketError(f: Findings)
      modifies this
      ensures Now() == Step(meta, old(Now()), Failed(f))
    {
      upstream := false;
      Finalize(f);
    }

    method MaxDuration(f: Findings)
      modifies this
      ensures Now() == Step(meta, old(Now()), TimedOut(f))
    {
      if maxTimer { Finalize(f); }
    }
  }

  function After(m: Meta, t: Tables, events: seq<Event>): Memory {
    if |events| == 0 then Memory(false, true, true, t)
    else Step(m, After(m, t, events[..|events| - 1]), events[|events| - 1])
  }

  /** The event leads to a finalize that reaches the ledger. */
  predicate Charges(m: Meta, s: Memory, e: Event) {
    && !s.finalized
    && (e.Closed? || e.Failed? || (e.Message? && !s.upstream) || (e.TimedOut? && s.timer))
    && RowFor(m, s.tables, e.found).Some?
  }

  function WriteOf(m: Meta, s: Memory, e: Event): Write
    requires Charges(m, s, e)
  {
    Write(RowFor(m, s.tables, e.found).value, e.found.dies)
  }

  lemma StepWrites(m: Meta, s: Memory, e: Event)
    ensures Step(m, s, e).tables == if Charges(m, s, e) then Recorded(s.tables, WriteOf(m, s, e)).0 else s.tables
    ensures Charges(m, s, e) ==> Step(m, s, e).finalized
    ensures s.finalized && !e.Evicted? ==> Step(m, s, e).finalized
  {
    hide Recorded, RowFor;
  }

  /** The ledger writes a session makes. */
  function Writes(m: Meta, t: Tables, events: seq<Event>): seq<Write> {
    if |events| == 0 then []
    else
      var before, s := Writes(m, t, events[..|events| - 1]), After(m, t, events[..|events| - 1]);
      if Charges(m, s, events[|events| - 1]) then before + [WriteOf(m, s, events[|events| - 1])] else before
  }

  /** What each of those writes had found. */
  function Found(m: Meta, t: Tables, events: seq<Event>): (fs: seq<Findings>)
    ensures |fs| == |Writes(m, t, events)|
  {
    if |events| == 0 then []
    else
      var before, s := Found(m, t, events[..|events| - 1]), After(m, t, events[..|events| - 1]);
      if Charges(m, s, events[|events| - 1]) then before + [events[|events| - 1].found] else before
  }

  /** Each write is the row owed on what its finalize found and on the tables the earlier writes had left. */
  lemma {:induction false} WritesAreWhatWasFound(m: Meta, t: Tables, events: seq<Event>, i: nat)
    requires i < |Writes(m, t, events)| && FreshIds(t, events)
    ensures SessionRow(m, AllRecorded(t, Writes(m, t, events)[..i]), Found(m, t, events)[i], Writes(m, t, events)[i].event)
  {
    hide RowFor, Chargeable, Minutes, Step, SessionRow, Recorded, AllRecorded, FreshId;
    var before, e := events[..|events| - 1], events[|events| - 1];
    assert FreshIds(t, before);
    if i < |Writes(m, t, before)| {
      WritesAreWhatWasFound(m, t, before, i);
      assert Writes(m, t, events)[..i] == Writes(m, t, before)[..i];
    } else {
      ChargedExactlyWhen(m, After(m, t, before).tables, e.found);
      SessionIsItsWrites(m, t, before);
      assert Writes(m, t, events)[..i] == Writes(m, t, before);
    }
  }

  /** Until a write reaches the ledger nothing has. */
  lemma NothingReached(m: Meta, t: Tables, ws: seq<Write>, i: nat)
    requires !HasRequest(m.clientId, m.requestId, t) && AllForRequest(m.clientId, m.requestId, t, ws)
    requires FirstWrite(ws) == Some(i)
    ensures AllRecorded(t, ws[..i]) == t
  {
    hide HasRequest, ForRequest, FreshId, Recorded, AllRecorded;
    NoneBefore(ws, i);
    LedgerIsTheFirstWrite(m.clientId, m.requestId, t, ws[..i]);
  }

  lemma {:induction false} NoneBefore(ws: seq<Write>, i: nat)
    requires FirstWrite(ws) == Some(i)
    ensures i < |ws| && FirstWrite(ws[..i]) == None
  {
    var before := ws[..|ws| - 1];
    if FirstWrite(before).Some? {
      NoneBefore(before, i);
      assert before[..i] == ws[..i];
    } else {
      assert ws[..i] == before;
    }
  }

  /**
   Messages reach a session whose upstream lives without charging it, and nothing charges it twice in one
   life; its socket closing or failing, its timer, or a message after an eviction charges it.
   */
  lemma WhatEndsASession(m: Meta, t: Tables, messages: seq<Event>, f: Findings)
    requires forall i :: 0 <= i < |messages| ==> messages[i].Message?
    ensures After(m, t, messages) == Memory(false, true, true, t)
    ensures var w := if RowFor(m, t, f).Some? then [Write(RowFor(m, t, f).value, f.dies)] else [];
      && Writes(m, t, messages + [Closed(f)]) == w && Writes(m, t, messages + [Failed(f)]) == w
      && Writes(m, t, messages + [TimedOut(f)]) == w && Writes(m, t, messages + [Evicted, Message(f)]) == w
      && Writes(m, t, messages + [Evicted, TimedOut(f)]) == []
  {
    hide RowFor;
    QuietSoFar(m, t, messages);
    assert (messages + [Closed(f)])[..|messages|] == messages;
    assert (messages + [Failed(f)])[..|messages|] == messages;
    assert (messages + [TimedOut(f)])[..|messages|] == messages;
    var evicted := messages + [Evicted];
    assert evicted[..|messages|] == messages;
    assert (messages + [Evicted, Message(f)])[..|evicted|] == evicted;
    assert (messages + [Evicted, TimedOut(f)])[..|evicted|] == evicted;
  }

  lemma {:induction false} QuietSoFar(m: Meta, t: Tables, messages: seq<Event>)
    requires forall i :: 0 <= i < |messages| ==> messages[i].Message?
    ensures After(m, t, messages) == Memory(false, true, true, t) && Writes(m, t, messages) == []
  {
    if |messages| > 0 { QuietSoFar(m, t, messages[..|messages| - 1]); }
  }

  predicate FreshIds(t: Tables, events: seq<Event>) {
    forall i :: 0 <= i < |events| && !events[i].Evicted? ==> FreshId(t, events[i].found.eventId)
  }

  lemma RecordedLast(t: Tables, ws: seq<Write>, w: Write)
    ensures AllRecorded(t, ws + [w]) == Recorded(AllRecorded(t, ws), w).0
  {
    assert (ws + [w])[..|ws|] == ws;
  }

  lemma {:induction false} SessionIsItsWrites(m: Meta, t: Tables, events: seq<Event>)
    requires FreshIds(t, events)
    ensures After(m, t, events).tables == AllRecorded(t, Writes(m, t, events))
    ensures AllForRequest(m.clientId, m.requestId, t, Writes(m, t, events))
  {
    hide Recorded, RowFor, FreshId, Step, AllRecorded, ForRequest;
    if |events| == 0 {
      NothingRecorded(t);
    } else {
      var before, e := events[..|events| - 1], events[|events| - 1];
      var s := After(m, t, before);
      SessionIsItsWrites(m, t, before);
      StepWrites(m, s, e);
      if Charges(m, s, e) {
        ChargedExactlyWhen(m, s.tables, e.found);
        RecordedLast(t, Writes(m, t, before), WriteOf(m, s, e));
      }
    }
  }

  lemma NothingRecorded(t: Tables)
    ensures AllRecorded(t, []) == t
  {
  }

  /**
   However often the session is finalized - close and error both firing, the timer, a wake after the
   object was evicted - the ledger ends where the first write to reach it left it.
   */
  lemma SessionChargesOnce(m: Meta, t: Tables, events: seq<Event>)
    requires !HasRequest(m.clientId, m.requestId, t) && FreshIds(t, events)
    ensures var ws := Writes(m, t, events);
      var w := FirstWrite(ws);
      After(m, t, events).tables == if w.None? then t else Recorded(t, ws[w.value]).0
  {
    hide Recorded, Writes, After, HasRequest, FreshIds, AllForRequest;
    SessionIsItsWrites(m, t, events);
    LedgerIsTheFirstWrite(m.clientId, m.requestId, t, Writes(m, t, events));
  }

  lemma FinalizedIsSilent(m: Meta, s: Memory, e: Event)
    ensures s.finalized ==> !Charges(m, s, e)
  {
  }

  /**
   Over a whole session the ledger gains the row owed on what the first finalize that reached it found, as
   its split between the pools stood then, and a charged one exactly when that finalize passed every check.
   */
  lemma SessionIsChargedExactlyWhen(m: Meta, t: Tables, events: seq<Event>, r: UsageEvent)
    requires !HasRequest(m.clientId, m.requestId, t) && FreshIds(t, events)
    ensures var w := FirstWrite(Writes(m, t, events));
      r in After(m, t, events).tables.events && ForRequest(m.clientId, m.requestId, r)
      ==> w.Some?
          && SessionRow(m, t, Found(m, t, events)[w.value], r)
    ensures FirstWrite(Writes(m, t, events)).Some? ==> HasRequest(m.clientId, m.requestId, After(m, t, events).tables)
  {
    hide Recorded, Writes, Found, After, FreshIds, AllForRequest, FirstWrite, Chargeable, Minutes, AllRecorded, FreshId,
      SessionRow;
    SessionIsItsWrites(m, t, events);
    var ws := Writes(m, t, events);
    LedgerIsTheFirstWrite(m.clientId, m.requestId, t, ws);
    var w := FirstWrite(ws);
    if w.Some? {
      FirstOfAll(m, t, ws, w.value);
      WriteAddsOneRow(m.clientId, m.requestId, t, ws[w.value]);
      WritesAreWhatWasFound(m, t, events, w.value);
      NothingReached(m, t, ws, w.value);
      StoredAsOwed(m, t, Found(m, t, events)[w.value], ws[w.value].event);
    }
  }

  /** Recording such a row stores it as it is. */
  lemma StoredAsOwed(m: Meta, t: Tables, f: Findings, e: UsageEvent)
    requires SessionRow(m, t, f, e)
    ensures Stored(e) == e
  {
  }

  lemma FirstOfAll(m: Meta, t: Tables, ws: seq<Write>, i: nat)
    requires AllForRequest(m.clientId, m.requestId, t, ws) && FirstWrite(ws) == Some(i)
    ensures i < |ws| && ws[i].dies != Some(0)
    ensures ForRequest(m.clientId, m.requestId, ws[i].event) && FreshId(t, ws[i].event.id)
  {
  }

  /** Within one life of the object, only one finalize writes at all. */
  lemma {:induction false} OneWriteWithoutEviction(m: Meta, t: Tables, events: seq<Event>)
    requires forall i :: 0 <= i < |events| ==> !events[i].Evicted?
    ensures |Writes(m, t, events)| <= 1
    ensures |Writes(m, t, events)| == 1 ==> After(m, t, events).finalized
  {
    hide Step, Charges;
    if |events| > 0 {
      var before, e := events[..|events| - 1], events[|events| - 1];
      OneWriteWithoutEviction(m, t, before);
      StepWrites(m, After(m, t, before), e);
      if After(m, t, before).finalized { FinalizedIsSilent(m, After(m, t, before), e); }
    }
  }
}
