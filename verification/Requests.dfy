/**
 One request's ledger write, attempted any number of times, each attempt free to die between any two
 statements (src/store-d1.ts:275-339). The long-run job and the speech session both rest on this.
 */
module Requests {
  import opened Wrappers
  import opened Ledger
  import opened Calls

  /** One attempt at recordUsage; `dies` is how many statements ran before it threw. */
  datatype Write = Write(event: UsageEvent, dies: Option<nat>)

  /** `n` statements of a call. */
  function Statements(t: Tables, call: Call, n: nat): (Tables, Call)
    decreases n
  {
    if n == 0 || call.Done? then (t, call)
    else Statements(Advance(t, call).tables, Advance(t, call).call, n - 1)
  }

  /** The tables an attempt leaves, and whether it returned. */
  function Recorded(t: Tables, w: Write): (Tables, bool) {
    var (t', rest) := Statements(t, UsageInsert(w.event), w.dies.GetOr(3));
    (t', rest.Done?)
  }

  function AllRecorded(t: Tables, ws: seq<Write>): Tables {
    if |ws| == 0 then t else Recorded(AllRecorded(t, ws[..|ws| - 1]), ws[|ws| - 1]).0
  }

  predicate ForRequest(client: string, request: string, e: UsageEvent) {
    e.clientId == client && e.requestId == request
  }

  /** The ledger already holds this request's row. */
  predicate HasRequest(client: string, request: string, t: Tables) {
    exists r :: r in t.events && ForRequest(client, request, r)
  }

  /** The identifier is new to the ledger. */
  predicate FreshId(t: Tables, id: string) { forall r :: r in t.events ==> r.id != id }

  lemma {:induction false} EventsOnlyGrow(t: Tables, call: Call, n: nat)
    ensures forall r :: r in t.events ==> r in Statements(t, call, n).0.events
    decreases n
  {
    hide Advance;
    if n > 0 && !call.Done? {
      AdvanceKeepsEvents(t, call);
      EventsOnlyGrow(Advance(t, call).tables, Advance(t, call).call, n - 1);
    }
  }

  lemma AdvanceKeepsEvents(t: Tables, call: Call)
    ensures forall r :: r in t.events ==> r in Advance(t, call).tables.events
  {
  }

  /** An attempt that dies before its first statement changes nothing. */
  lemma DeadOnArrival(t: Tables, w: Write)
    requires w.dies == Some(0)
    ensures Recorded(t, w) == (t, false)
  {
  }

  lemma NothingClashes(client: string, request: string, t: Tables, e: UsageEvent)
    requires ForRequest(client, request, e) && !HasRequest(client, request, t) && FreshId(t, e.id)
    ensures !HasEvent(t.events, e)
  {
  }

  lemma InsertStep(t: Tables, e: UsageEvent)
    requires !HasEvent(t.events, e)
    ensures Advance(t, UsageInsert(e)).call == UsagePeriod(e)
    ensures Advance(t, UsageInsert(e)).tables == t.(events := t.events + [Stored(e)])
  {
  }

  /** A first write leaves the request's row behind, however early it dies after that. */
  lemma WriteLeavesTheRow(client: string, request: string, t: Tables, w: Write)
    requires ForRequest(client, request, w.event) && w.dies != Some(0)
    requires !HasRequest(client, request, t) && FreshId(t, w.event.id)
    ensures HasRequest(client, request, Recorded(t, w).0)
  {
    hide Advance, HasEvent;
    var e, n := w.event, w.dies.GetOr(3);
    NothingClashes(client, request, t, e);
    InsertStep(t, e);
    var a := Advance(t, UsageInsert(e));
    assert a.tables.events[|t.events|] == Stored(e);
    EventsOnlyGrow(a.tables, a.call, n - 1);
    var after := Statements(a.tables, a.call, n - 1).0;
    assert Statements(t, UsageInsert(e), n).0 == after;
    assert Stored(e) in a.tables.events && Stored(e) in after.events && ForRequest(client, request, Stored(e));
  }

  lemma OnlyTheInsertAddsARow(t: Tables, call: Call)
    requires call.Done? || call.UsagePeriod? || call.UsageSpent?
    ensures var a := Advance(t, call);
      a.tables.events == t.events && (a.call.Done? || a.call.UsagePeriod? || a.call.UsageSpent?)
  {
  }

  lemma {:induction false} LaterStatementsAddNoRow(t: Tables, call: Call, n: nat)
    requires call.Done? || call.UsagePeriod? || call.UsageSpent?
    ensures Statements(t, call, n).0.events == t.events
    decreases n
  {
    hide Advance;
    if n > 0 && !call.Done? {
      OnlyTheInsertAddsARow(t, call);
      LaterStatementsAddNoRow(Advance(t, call).tables, Advance(t, call).call, n - 1);
    }
  }

  /** The ledger gains exactly the one row. */
  lemma WriteAddsOneRow(client: string, request: string, t: Tables, w: Write)
    requires ForRequest(client, request, w.event) && w.dies != Some(0)
    requires !HasRequest(client, request, t) && FreshId(t, w.event.id)
    ensures Recorded(t, w).0.events == t.events + [Stored(w.event)]
  {
    hide HasEvent, Advance, HasRequest, FreshId;
    NothingClashes(client, request, t, w.event);
    InsertStep(t, w.event);
    var a := Advance(t, UsageInsert(w.event));
    LaterStatementsAddNoRow(a.tables, a.call, w.dies.GetOr(3) - 1);
  }

  /** Once the row is there, a write that is reached moves nothing and returns. */
  lemma ReplayIsSilent(client: string, request: string, t: Tables, w: Write)
    requires HasRequest(client, request, t) && ForRequest(client, request, w.event)
    ensures Recorded(t, w).0 == t && (w.dies != Some(0) ==> Recorded(t, w).1)
  {
    var r :| r in t.events && ForRequest(client, request, r);
    assert EventsClash(r, w.event);
    var n := w.dies.GetOr(3);
    if n > 0 { assert Statements(t, Done, n - 1) == (t, Done); }
  }

  function FirstWrite(ws: seq<Write>): (i: Option<nat>)
    ensures i.Some? ==> i.value < |ws| && ws[i.value].dies != Some(0)
  {
    if |ws| == 0 then None
    else
      var before := FirstWrite(ws[..|ws| - 1]);
      if before.Some? then before else if ws[|ws| - 1].dies != Some(0) then Some(|ws| - 1) else None
  }

  predicate AllForRequest(client: string, request: string, t: Tables, ws: seq<Write>) {
    forall i :: 0 <= i < |ws| ==> ForRequest(client, request, ws[i].event) && FreshId(t, ws[i].event.id)
  }

  /** Any number of attempts leave the ledger where the first one that reached it left it. */
  lemma {:induction false} LedgerIsTheFirstWrite(client: string, request: string, t: Tables, ws: seq<Write>)
    requires !HasRequest(client, request, t) && AllForRequest(client, request, t, ws)
    ensures var w := FirstWrite(ws);
      && AllRecorded(t, ws) == (if w.None? then t else Recorded(t, ws[w.value]).0)
      && (w.Some? ==> HasRequest(client, request, AllRecorded(t, ws)))
  {
    hide Recorded, HasRequest;
    if |ws| > 0 {
      var before, last := ws[..|ws| - 1], ws[|ws| - 1];
      LedgerIsTheFirstWrite(client, request, t, before);
      if FirstWrite(before).Some? {
        ReplayIsSilent(client, request, AllRecorded(t, before), last);
      } else if last.dies == Some(0) {
        DeadOnArrival(t, last);
      } else {
        WriteLeavesTheRow(client, request, t, last);
      }
    }
  }

  lemma ThreeStatementsComplete(t: Tables, call: Call)
    ensures Statements(t, call, 3) == (Complete(t, call), Done)
  {
    hide Advance;
    ThreeStatementsSuffice(t, call);
    var a := Advance(t, call);
    var b := Advance(a.tables, a.call);
    var c := Advance(b.tables, b.call);
    DoneStays(t, call);
    DoneStays(a.tables, a.call);
    DoneStays(b.tables, b.call);
    assert Statements(b.tables, b.call, 1) == (c.tables, Done);
    assert Statements(a.tables, a.call, 2) == (c.tables, Done);
  }

  /** How many statements the write needs: the credit statement is only sent when there is credit to charge. */
  function Needed(e: UsageEvent): nat { if e.metered && Stored(e).fromCredit > 0 then 3 else 2 }

  lemma OneStatement(t: Tables, e: UsageEvent)
    requires !HasEvent(t.events, e)
    ensures Statements(t, UsageInsert(e), 1) == (t.(events := t.events + [Stored(e)]), UsagePeriod(e))
  {
    hide HasEvent;
    InsertStep(t, e);
    assert Statements(Advance(t, UsageInsert(e)).tables, UsagePeriod(e), 0) == (Advance(t, UsageInsert(e)).tables, UsagePeriod(e));
  }

  lemma TwoStatements(t: Tables, e: UsageEvent)
    requires !HasEvent(t.events, e)
    ensures var t1 := t.(events := t.events + [Stored(e)]);
      Statements(t, UsageInsert(e), 2)
      == (UpsertPeriod(t1, e.accountId, e.periodKey, PeriodDelta(e)), if Needed(e) == 3 then UsageSpent(e) else Done)
  {
    hide HasEvent, UpsertPeriod;
    var a := Advance(t, UsageInsert(e));
    var b := Advance(a.tables, a.call);
    assert Statements(b.tables, b.call, 0) == (b.tables, b.call);
    assert Statements(a.tables, a.call, 1) == (b.tables, b.call);
  }

  lemma {:induction false} EnoughStatements(t: Tables, call: Call, n: nat)
    requires n >= 3
    ensures Statements(t, call, n) == (Complete(t, call), Done)
  {
    hide Advance;
    ThreeStatementsComplete(t, call);
    MoreStatements(t, call, 3, n - 3);
  }

  lemma {:induction false} MoreStatements(t: Tables, call: Call, n: nat, m: nat)
    requires Statements(t, call, n).1.Done?
    ensures Statements(t, call, n + m) == Statements(t, call, n)
    decreases n
  {
    hide Advance;
    if n > 0 && !call.Done? { MoreStatements(Advance(t, call).tables, Advance(t, call).call, n - 1, m); }
  }

  /** A write that got past its insert is whole exactly when it got as far as the statements it needs. */
  lemma WholeExactlyWhen(t: Tables, e: UsageEvent, n: nat)
    requires !HasEvent(t.events, e) && e.accountId in t.accounts && n > 0
    ensures Statements(t, UsageInsert(e), n).0 == Complete(t, UsageInsert(e))
       <==> n >= (if e.metered && e.fromCredit > 0 then 3 else 2)
  {
    hide Complete, HasEvent;
    CompletedUsage(t, e);
    if n == 1 {
      OneStatement(t, e);
      PeriodWasMoved(t, e);
    } else if n == 2 {
      TwoStatements(t, e);
    } else {
      EnoughStatements(t, UsageInsert(e), n);
    }
  }

  /** A first write returns exactly when it ran the statements its row needs. */
  lemma ReturnsExactlyWhen(t: Tables, w: Write)
    requires !HasEvent(t.events, w.event)
    ensures Recorded(t, w).1
       <==> w.dies.None? || w.dies.value >= (if w.event.metered && w.event.fromCredit > 0 then 3 else 2)
  {
    hide HasEvent, Statements, UpsertPeriod, Complete, Needed, PeriodDelta, Stored;
    var n := w.dies.GetOr(3);
    NeededIs(w.event);
    if n == 0 {
      DeadOnArrival(t, w);
    } else if n == 1 {
      OneStatement(t, w.event);
    } else if n == 2 {
      TwoStatements(t, w.event);
    } else {
      EnoughStatements(t, UsageInsert(w.event), n);
    }
  }

  lemma NeededIs(e: UsageEvent)
    ensures Needed(e) == if e.metered && e.fromCredit > 0 then 3 else 2
  {
  }

  lemma PeriodWasMoved(t: Tables, e: UsageEvent)
    ensures var t1 := t.(events := t.events + [Stored(e)]);
      var t2 := UpsertPeriod(t1, e.accountId, e.periodKey, PeriodDelta(e));
      t2.periods != t.periods && UpdateSpent(t2, e.accountId, Stored(e).fromCredit).periods == t2.periods
  {
    var t2 := UpsertPeriod(t.(events := t.events + [Stored(e)]), e.accountId, e.periodKey, PeriodDelta(e));
    assert PeriodOf(t2, e.accountId, e.periodKey).requests == PeriodOf(t, e.accountId, e.periodKey).requests + 1;
  }

  lemma DoneStays(t: Tables, call: Call)
    ensures call.Done? ==> Advance(t, call).tables == t && Advance(t, call).call == Done
  {
  }
}
