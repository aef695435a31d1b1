/**
 The long-run job (src/routes/longrun-workflow.ts:83-370): three retried steps around one provider call,
 with a failure possible in every attempt and, in the ledger write, between any two statements.
 */
module LongRun {
  import opened Wrappers
  import opened Ledger
  import opened Calls
  import opened Balance
  import Meter
  import Requests
  import Booked

  const INVOKE_RETRIES := 1
  const REHOST_RETRIES := 2
  const FINALIZE_RETRIES := 3

  /** How an external write ends: as asked, without effect, or done but reported as an error. */
  datatype Reply = Fine | Refused | LostReply

  datatype Params = Params(
    accountId: string, clientId: string, requestId: string, unitMicroUsd: nat, billableUnits: int, included: nat)

  /** One attempt at the provider: not called, called and failed, answered but unusable, answered. */
  datatype InvokeTry = Unready | ProviderFailed | Spoiled | Produced(url: string)

  datatype RehostTry = Broke | Kept(url: string)

  /** One attempt to finalize; `dies` is how many statements of the ledger write ran before it threw. */
  datatype FinalTry = FinalTry(eventId: string, period: string, readsFail: bool, dies: Option<nat>, status: Reply)

  datatype Status = Running | Succeeded(url: string) | FailedJob

  /** Everything the outside does to one run, attempt by attempt. */
  datatype Script = Script(invoke: nat -> InvokeTry, rehost: nat -> RehostTry, finalize: nat -> FinalTry, failWrite: Reply)

  // ---- step one ----

  predicate CallsProvider(t: InvokeTry) { !t.Unready? }

  predicate GoodAnswer(t: InvokeTry) { t.Spoiled? || t.Produced? }

  datatype Invoked = Invoked(url: Option<string>, calls: seq<InvokeTry>)

  /** From attempt `k` on: a good answer ends the step, usable or not; anything else may be retried. */
  function InvokeFrom(invoke: nat -> InvokeTry, k: nat, calls: seq<InvokeTry>): Invoked
    decreases INVOKE_RETRIES + 1 - k
  {
    if k > INVOKE_RETRIES then Invoked(None, calls)
    else
      var t := invoke(k);
      var made := if CallsProvider(t) then calls + [t] else calls;
      if t.Produced? then Invoked(Some(t.url), made)
      else if t.Spoiled? then Invoked(None, made)
      else InvokeFrom(invoke, k + 1, made)
  }

  // ---- step two ----

  function RehostFrom(rehost: nat -> RehostTry, k: nat): Option<string>
    decreases REHOST_RETRIES + 1 - k
  {
    if k > REHOST_RETRIES then None
    else if rehost(k).Kept? then Some(rehost(k).url) else RehostFrom(rehost, k + 1)
  }

  // ---- step three ----

  /** The row of one attempt: units at the unit rate, split on the period as it stands. */
  function Row(p: Params, t: Tables, f: FinalTry): UsageEvent {
    Meter.UnitRow(
      UsageEvent(f.eventId, p.requestId, p.accountId, p.clientId, f.period, 0, 0, 0, true, Measured, 0),
      Max(1, p.billableUnits), 1, p.unitMicroUsd,
      Whole(p.included), Whole(PeriodOf(t, p.accountId, f.period).allowanceSpent))
  }

  function Attempt(p: Params, t: Tables, f: FinalTry): Requests.Write { Requests.Write(Row(p, t, f), f.dies) }

  /** recordUsage: to its end, or thrown out of after some statements. */
  function Recorded(p: Params, t: Tables, f: FinalTry): (Tables, bool) { Requests.Recorded(t, Attempt(p, t, f)) }

  datatype Final = Final(tables: Tables, status: Status, done: bool)

  function FinalAttempt(p: Params, url: string, t: Tables, status: Status, f: FinalTry): Final {
    if f.readsFail || p.accountId !in t.accounts then Final(t, status, false)
    else
      var (t', returned) := Recorded(p, t, f);
      if !returned then Final(t', status, false)
      else Final(t', if f.status.Refused? then status else Succeeded(url), f.status.Fine?)
  }

  function FinalizeFrom(p: Params, url: string, finalize: nat -> FinalTry, t: Tables, status: Status, k: nat): Final
    decreases FINALIZE_RETRIES + 1 - k
  {
    if k > FINALIZE_RETRIES then Final(t, status, false)
    else
      var f := FinalAttempt(p, url, t, status, finalize(k));
      if f.done then f else FinalizeFrom(p, url, finalize, f.tables, f.status, k + 1)
  }

  // ---- the run ----

  datatype Outcome = Outcome(tables: Tables, status: Status, calls: seq<InvokeTry>, threw: bool)

  function FailedWith(t: Tables, status: Status, calls: seq<InvokeTry>, failWrite: Reply): Outcome {
    Outcome(t, if failWrite.Refused? then status else FailedJob, calls, true)
  }

  function WholeRun(p: Params, t: Tables, s: Script): Outcome {
    var i := InvokeFrom(s.invoke, 0, []);
    if i.url.None? then FailedWith(t, Running, i.calls, s.failWrite)
    else
      var kept := RehostFrom(s.rehost, 0);
      if kept.None? then FailedWith(t, Running, i.calls, s.failWrite)
      else
        var f := FinalizeFrom(p, kept.value, s.finalize, t, Running, 0);
        if f.done then Outcome(f.tables, f.status, i.calls, false)
        else FailedWith(f.tables, f.status, i.calls, s.failWrite)
  }

  class PlaneLongRunWorkflow {
    const params: Params
    var tables: Tables
    var status: Status
    var calls: seq<InvokeTry>

    constructor (params: Params, tables: Tables)
      ensures this.params == params && this.tables == tables && status == Running && calls == []
    {
      this.params, this.tables := params, tables;
      status, calls := Running, [];
    }

    method InvokeModel(invoke: nat -> InvokeTry) returns (url: Option<string>)
      modifies this`calls
      ensures Invoked(url, calls) == InvokeFrom(invoke, 0, old(calls))
    {
      var attempt := 0;
      while attempt <= INVOKE_RETRIES
        invariant attempt <= INVOKE_RETRIES + 1
        invariant InvokeFrom(invoke, attempt, calls) == InvokeFrom(invoke, 0, old(calls))
      {
        var t := invoke(attempt);
        if CallsProvider(t) { calls := calls + [t]; }
        if t.Produced? { return Some(t.url); }
        if t.Spoiled? { return None; }
        attempt := attempt + 1;
      }
      url := None;
    }

    method RehostAsset(rehost: nat -> RehostTry) returns (url: Option<string>)
      ensures url == RehostFrom(rehost, 0)
    {
      var attempt := 0;
      while attempt <= REHOST_RETRIES
        invariant attempt <= REHOST_RETRIES + 1
        invariant RehostFrom(rehost, attempt) == RehostFrom(rehost, 0)
      {
        var t := rehost(attempt);
        if t.Kept? { return Some(t.url); }
        attempt := attempt + 1;
      }
      url := None;
    }

    method Finalize(url: string, finalize: nat -> FinalTry) returns (done: bool)
      modifies this`tables, this`status
      ensures Final(tables, status, done) == FinalizeFrom(params, url, finalize, old(tables), old(status), 0)
    {
      hide FinalAttempt;
      var attempt := 0;
      while attempt <= FINALIZE_RETRIES
        invariant attempt <= FINALIZE_RETRIES + 1
        invariant FinalizeFrom(params, url, finalize, tables, status, attempt)
               == FinalizeFrom(params, url, finalize, old(tables), old(status), 0)
      {
        done := MeterAndMark(url, finalize(attempt));
        if done { return; }
        attempt := attempt + 1;
      }
      done := false;
    }

    method MeterAndMark(url: string, f: FinalTry) returns (done: bool)
      modifies this`tables, this`status
      ensures Final(tables, status, done) == FinalAttempt(params, url, old(tables), old(status), f)
    {
      hide Requests.Recorded, Row;
      if f.readsFail || params.accountId !in tables.accounts { return false; }
      var (t, returned) := Recorded(params, tables, f);
      tables := t;
      if !returned { return false; }
      if !f.status.Refused? { status := Succeeded(url); }
      done := f.status.Fine?;
    }

    method Execute(s: Script) returns (threw: bool)
      requires status == Running && calls == []
      modifies this
      ensures Outcome(tables, status, calls, threw) == WholeRun(params, old(tables), s)
    {
      hide InvokeFrom, RehostFrom, FinalizeFrom;
      var asset := InvokeModel(s.invoke);
      if asset.Some? {
        var kept := RehostAsset(s.rehost);
        if kept.Some? {
          var done := Finalize(kept.value, s.finalize);
          if done { return false; }
        }
      }
      if !s.failWrite.Refused? { status := FailedJob; }
      threw := true;
    }
  }

  // ---- the provider ----

  /** Only the last provider call can have been a good answer, and there are at most two. */
  lemma NeverCalledAfterAGoodAnswer(p: Params, t: Tables, s: Script)
    ensures var calls := WholeRun(p, t, s).calls;
      |calls| <= INVOKE_RETRIES + 1 && forall i :: 0 <= i < |calls| - 1 ==> !GoodAnswer(calls[i])
  {
    hide FinalizeFrom, RehostFrom;
    assert InvokeFrom(s.invoke, 2, []).calls == [];
  }

  /** At most two attempts, the second only when the first brought no answer; the step yields what the last one produced. */
  lemma InvokeExactly(invoke: nat -> InvokeTry)
    ensures var r := InvokeFrom(invoke, 0, []); var a, b := invoke(0), invoke(1);
      var again := a.Unready? || a.ProviderFailed?;
      && r.url == (if a.Produced? then Some(a.url) else if again && b.Produced? then Some(b.url) else None)
      && r.calls == (if a.Unready? then [] else [a]) + (if again && !b.Unready? then [b] else [])
  {
    assert InvokeFrom(invoke, 2, []) == Invoked(None, []);
    assert InvokeFrom(invoke, 2, [invoke(1)]) == Invoked(None, [invoke(1)]);
  }

  /** Three attempts to keep the asset; the first that keeps it decides. */
  lemma RehostExactly(rehost: nat -> RehostTry)
    ensures RehostFrom(rehost, 0) ==
      if rehost(0).Kept? then Some(rehost(0).url) else if rehost(1).Kept? then Some(rehost(1).url)
      else if rehost(2).Kept? then Some(rehost(2).url) else None
  {
    assert RehostFrom(rehost, 3) == None;
  }

  // ---- the ledger ----

  /** A row of this job, paid for exactly. */
  predicate OneRow(p: Params, e: UsageEvent) {
    e.accountId == p.accountId && e.clientId == p.clientId && e.requestId == p.requestId
    && e.metered && e.fromAllowance + e.fromCredit == e.microUsd
  }

  /** The ledger already holds this job's row. */
  predicate HasJob(p: Params, t: Tables) { Requests.HasRequest(p.clientId, p.requestId, t) }

  /** Row identifiers are never reused. */
  ghost predicate FreshIds(t: Tables, finalize: nat -> FinalTry) {
    forall k: nat :: Requests.FreshId(t, finalize(k).eventId)
  }

  /**
   The row this job owes: at least one unit at the unit rate, out of what the stored period leaves of the
   plan's allowance and then out of credit.
   */
  predicate JobRow(p: Params, t: Tables, f: FinalTry, e: UsageEvent) {
    && (e.id, e.requestId, e.accountId, e.clientId, e.periodKey)
       == (f.eventId, p.requestId, p.accountId, p.clientId, f.period)
    && e.metered && e.basis.Measured?
    && e.microUsd == (if p.billableUnits < 1 then 1 else p.billableUnits) * p.unitMicroUsd
    && Meter.SplitOnRead(e.microUsd, Whole(p.included), Whole(Booked.AllowanceOnRecord(t, p.accountId, f.period)), e)
  }

  lemma RowIsOwed(p: Params, t: Tables, f: FinalTry)
    ensures JobRow(p, t, f, Row(p, t, f))
  {
    RowIsOne(p, t, f);
  }

  lemma RowIsOne(p: Params, t: Tables, f: FinalTry)
    ensures OneRow(p, Row(p, t, f)) && Row(p, t, f).id == f.eventId
  {
    Meter.UnitRowIsPaid(
      UsageEvent(f.eventId, p.requestId, p.accountId, p.clientId, f.period, 0, 0, 0, true, Measured, 0),
      Max(1, p.billableUnits), 1, p.unitMicroUsd,
      Whole(p.included), Whole(PeriodOf(t, p.accountId, f.period).allowanceSpent));
  }

  /** The attempt gets as far as inserting a row. */
  predicate Writes(p: Params, t: Tables, f: FinalTry) {
    !f.readsFail && p.accountId in t.accounts && f.dies != Some(0)
  }

  /** The first attempt, if any, that gets that far. */
  function FirstWriter(p: Params, t: Tables, finalize: nat -> FinalTry, k: nat): Option<nat>
    decreases FINALIZE_RETRIES + 1 - k
  {
    if k > FINALIZE_RETRIES then None
    else if Writes(p, t, finalize(k)) then Some(k)
    else FirstWriter(p, t, finalize, k + 1)
  }

  lemma NoWriteNoChange(p: Params, t: Tables, f: FinalTry)
    requires !f.readsFail && p.accountId in t.accounts && f.dies == Some(0)
    ensures Recorded(p, t, f) == (t, false)
  {
    Requests.DeadOnArrival(t, Attempt(p, t, f));
  }

  lemma WriteLeavesTheRow(p: Params, t: Tables, f: FinalTry)
    requires Writes(p, t, f) && !HasJob(p, t) && Requests.FreshId(t, f.eventId)
    ensures HasJob(p, Recorded(p, t, f).0)
  {
    hide Requests.Recorded, Requests.HasRequest, Requests.FreshId;
    RowIsOne(p, t, f);
    Requests.WriteLeavesTheRow(p.clientId, p.requestId, t, Attempt(p, t, f));
  }

  lemma ReplayIsSilent(p: Params, t: Tables, f: FinalTry)
    requires HasJob(p, t)
    ensures Recorded(p, t, f).0 == t && (f.dies != Some(0) ==> Recorded(p, t, f).1)
  {
    hide Requests.Recorded, Requests.HasRequest;
    RowIsOne(p, t, f);
    Requests.ReplayIsSilent(p.clientId, p.requestId, t, Attempt(p, t, f));
  }

  lemma {:induction false} RetriesAreSilent(p: Params, url: string, finalize: nat -> FinalTry, t: Tables, status: Status, k: nat)
    requires HasJob(p, t)
    ensures FinalizeFrom(p, url, finalize, t, status, k).tables == t
    decreases FINALIZE_RETRIES + 1 - k
  {
    hide Recorded;
    if k <= FINALIZE_RETRIES {
      ReplayIsSilent(p, t, finalize(k));
      var f := FinalAttempt(p, url, t, status, finalize(k));
      if !f.done { RetriesAreSilent(p, url, finalize, t, f.status, k + 1); }
    }
  }

  /** Whatever fails and is retried, the ledger ends where the first write left it. */
  lemma {:induction false} LedgerIsTheFirstWrite(p: Params, url: string, finalize: nat -> FinalTry, t: Tables, status: Status, k: nat)
    requires !HasJob(p, t) && FreshIds(t, finalize)
    ensures var w := FirstWriter(p, t, finalize, k);
      FinalizeFrom(p, url, finalize, t, status, k).tables
      == if w.None? then t else Recorded(p, t, finalize(w.value)).0
    decreases FINALIZE_RETRIES + 1 - k
  {
    hide Recorded, HasJob;
    if k <= FINALIZE_RETRIES {
      var f := FinalAttempt(p, url, t, status, finalize(k));
      if Writes(p, t, finalize(k)) {
        WriteLeavesTheRow(p, t, finalize(k));
        if !f.done { RetriesAreSilent(p, url, finalize, f.tables, f.status, k + 1); }
      } else {
        if !finalize(k).readsFail && p.accountId in t.accounts { NoWriteNoChange(p, t, finalize(k)); }
        LedgerIsTheFirstWrite(p, url, finalize, t, f.status, k + 1);
      }
    }
  }

  /** The ledger after the whole run: untouched without an asset, else where the first write left it. */
  lemma JobWritesOnce(p: Params, t: Tables, s: Script)
    requires !HasJob(p, t) && FreshIds(t, s.finalize)
    ensures var asset := InvokeFrom(s.invoke, 0, []).url.Some? && RehostFrom(s.rehost, 0).Some?;
      var w := FirstWriter(p, t, s.finalize, 0);
      WholeRun(p, t, s).tables == if asset && w.Some? then Recorded(p, t, s.finalize(w.value)).0 else t
    ensures WholeRun(p, t, s).tables != t ==> exists k: nat :: k <= INVOKE_RETRIES && s.invoke(k).Produced?
  {
    hide Recorded, FinalizeFrom, FirstWriter;
    if InvokeFrom(s.invoke, 0, []).url.Some? {
      AssetWasProduced(s.invoke, 0, []);
      if RehostFrom(s.rehost, 0).Some? {
        LedgerIsTheFirstWrite(p, RehostFrom(s.rehost, 0).value, s.finalize, t, Running, 0);
      }
    }
  }

  lemma {:induction false} AssetWasProduced(invoke: nat -> InvokeTry, k: nat, calls: seq<InvokeTry>)
    requires InvokeFrom(invoke, k, calls).url.Some?
    ensures exists j: nat :: j <= INVOKE_RETRIES && invoke(j).Produced?
    decreases INVOKE_RETRIES + 1 - k
  {
    var t := invoke(k);
    if !t.Produced? && !t.Spoiled? {
      AssetWasProduced(invoke, k + 1, if CallsProvider(t) then calls + [t] else calls);
    }
  }

  /**
   The job is charged in full - the ledger is one completed write - exactly when the first attempt to
   insert its row also got through the statements that row needs. No retry makes up for it.
   */
  lemma ChargedInFullExactlyWhen(p: Params, t: Tables, s: Script, w: nat)
    requires !HasJob(p, t) && FreshIds(t, s.finalize)
    requires InvokeFrom(s.invoke, 0, []).url.Some? && RehostFrom(s.rehost, 0).Some?
    requires FirstWriter(p, t, s.finalize, 0) == Some(w)
    ensures var e, dies := Row(p, t, s.finalize(w)), s.finalize(w).dies;
      var whole := dies.None? || dies.value >= (if e.fromCredit > 0 then 3 else 2);
      && OneRow(p, e) && JobRow(p, t, s.finalize(w), e)
      && (whole ==> Booked.UsageBooked(t, WholeRun(p, t, s).tables, e))
      && (WholeRun(p, t, s).tables == Complete(t, UsageInsert(e)) <==> whole)
  {
    hide FinalizeFrom, Row, JobRow, Booked.UsageBooked, Booked.SameEvent, InvokeFrom, RehostFrom, Complete, HasJob, Requests.Needed, WholeRun, Requests.Statements;
    FirstWriterWrites(p, t, s.finalize, 0);
    JobWritesOnce(p, t, s);
    RowIsOne(p, t, s.finalize(w));
    var e := Row(p, t, s.finalize(w));
    NewRowClashesWithNothing(p, t, s.finalize(w));
    NeedsAtMostThree(e);
    Requests.WholeExactlyWhen(t, e, s.finalize(w).dies.GetOr(3));
    RowIsOwed(p, t, s.finalize(w));
    NeverSeen(t, e);
    Booked.RecordedUsage(t, e);
  }

  lemma NeverSeen(t: Tables, e: UsageEvent)
    requires !HasEvent(t.events, e)
    ensures forall r :: r in t.events ==> !Booked.SameEvent(r, e)
  {
    assert forall r :: Booked.SameEvent(r, e) <==> EventsClash(r, e);
  }

  lemma NeedsAtMostThree(e: UsageEvent)
    ensures Requests.Needed(e) == if e.metered && e.fromCredit > 0 then 3 else 2
  {
  }

  lemma NewRowClashesWithNothing(p: Params, t: Tables, f: FinalTry)
    requires !HasJob(p, t) && Requests.FreshId(t, f.eventId)
    ensures !HasEvent(t.events, Row(p, t, f))
  {
    RowIsOne(p, t, f);
    Requests.NothingClashes(p.clientId, p.requestId, t, Row(p, t, f));
  }

  lemma {:induction false} FirstWriterWrites(p: Params, t: Tables, finalize: nat -> FinalTry, k: nat)
    requires FirstWriter(p, t, finalize, k).Some?
    ensures Writes(p, t, finalize(FirstWriter(p, t, finalize, k).value))
    decreases FINALIZE_RETRIES + 1 - k
  {
    if !Writes(p, t, finalize(k)) { FirstWriterWrites(p, t, finalize, k + 1); }
  }

  /** A run in which nothing goes wrong but the first ledger write, which dies after its insert. */
  function Interrupted(url: string, ids: nat -> string, period: string): Script {
    Script(_ => Produced(url), _ => Kept(url),
           (k: nat) => FinalTry(ids(k), period, false, if k == 0 then Some(1) else None, Fine), Fine)
  }

  /** That job ends succeeded, with its row in the ledger and not one micro-USD of it in any column. */
  lemma SucceededButUndercharged(p: Params, t: Tables, url: string, ids: nat -> string, period: string, c: Column)
    requires !HasJob(p, t) && Requests.FreshId(t, ids(0)) && p.accountId in t.accounts
    ensures var s := Interrupted(url, ids, period);
      var o := WholeRun(p, t, s);
      var e := Row(p, t, s.finalize(0));
      && o.status == Succeeded(url) && !o.threw && HasJob(p, o.tables)
      && Value(o.tables, c) == Value(t, c)
      && Audit(o.tables, c) == Audit(t, c) + EventOwes(Stored(e), c)
      && EventOwes(Stored(e), PeriodCol(p.accountId, period, MicroUsd)) == Max(1, p.billableUnits) * p.unitMicroUsd
      && o.tables != Complete(t, UsageInsert(e))
  {
    hide Row, HasJob, Complete, Value, Audit, EventOwes, HasEvent, WholeRun, Requests.FreshId;
    var s := Interrupted(url, ids, period);
    var f := s.finalize(0);
    var e := Row(p, t, f);
    NewRowClashesWithNothing(p, t, f);
    RowIsOne(p, t, f);
    Requests.OneStatement(t, e);
    WriteLeavesTheRow(p, t, f);
    var t1 := t.(events := t.events + [Stored(e)]);
    assert Recorded(p, t, f) == (t1, false);
    ReplayIsSilent(p, t1, s.finalize(1));
    SecondAttemptEnds(p, t, s, url, t1);
    InsertOnly(t, Stored(e), c);
    RowOwes(p, t, f);
    Requests.WholeExactlyWhen(t, e, 1);
    NeedsAtMostThree(e);
  }

  /** What the row promises its period: the price of the job. */
  lemma RowOwes(p: Params, t: Tables, f: FinalTry)
    ensures EventOwes(Stored(Row(p, t, f)), PeriodCol(p.accountId, f.period, MicroUsd))
         == Max(1, p.billableUnits) * p.unitMicroUsd
  {
  }

  /** An insert promises the row's money and moves none of it. */
  lemma InsertOnly(t: Tables, e: UsageEvent, c: Column)
    ensures var t1 := t.(events := t.events + [e]);
      Value(t1, c) == Value(t, c) && Audit(t1, c) == Audit(t, c) + EventOwes(e, c)
  {
    EventAudited(t.events, e, c);
  }

  lemma SecondAttemptEnds(p: Params, t: Tables, s: Script, url: string, t1: Tables)
    requires s.invoke(0) == Produced(url) && s.rehost(0) == Kept(url)
    requires !s.finalize(0).readsFail && !s.finalize(1).readsFail && s.finalize(1).status.Fine?
    requires p.accountId in t.accounts && p.accountId in t1.accounts
    requires Recorded(p, t, s.finalize(0)) == (t1, false) && Recorded(p, t1, s.finalize(1)) == (t1, true)
    ensures WholeRun(p, t, s) == Outcome(t1, Succeeded(url), [Produced(url)], false)
  {
    hide Recorded;
    assert FinalAttempt(p, url, t, Running, s.finalize(0)) == Final(t1, Running, false);
    assert FinalAttempt(p, url, t1, Running, s.finalize(1)) == Final(t1, Succeeded(url), true);
    assert FinalizeFrom(p, url, s.finalize, t1, Running, 1) == Final(t1, Succeeded(url), true);
    assert FinalizeFrom(p, url, s.finalize, t, Running, 0) == Final(t1, Succeeded(url), true);
    assert [] + [Produced(url)] == [Produced(url)];
  }

  // ---- the status ----

  lemma {:induction false} SuccessFollowsTheRow(p: Params, url: string, finalize: nat -> FinalTry, t: Tables, status: Status, k: nat)
    requires FreshIds(t, finalize) || HasJob(p, t)
    requires status == Running || (status == Succeeded(url) && HasJob(p, t))
    ensures var f := FinalizeFrom(p, url, finalize, t, status, k);
      && (f.status == Running || (f.status == Succeeded(url) && HasJob(p, f.tables)))
      && (f.done ==> f.status == Succeeded(url))
    decreases FINALIZE_RETRIES + 1 - k
  {
    hide Recorded, HasJob;
    if k <= FINALIZE_RETRIES {
      var f := FinalAttempt(p, url, t, status, finalize(k));
      if HasJob(p, t) {
        ReplayIsSilent(p, t, finalize(k));
      } else if Writes(p, t, finalize(k)) {
        WriteLeavesTheRow(p, t, finalize(k));
      } else if !finalize(k).readsFail && p.accountId in t.accounts {
        NoWriteNoChange(p, t, finalize(k));
      }
      if !f.done { SuccessFollowsTheRow(p, url, finalize, f.tables, f.status, k + 1); }
    }
  }

  /** Some earlier attempt, from `from` on, got as far as inserting a row. */
  predicate Inserted(p: Params, t: Tables, finalize: nat -> FinalTry, from: nat, k: nat) {
    exists j: nat :: from <= j < k && !finalize(j).readsFail && p.accountId in t.accounts && finalize(j).dies != Some(0)
  }

  /**
   The attempt's lookups work, its write returns - a repeat after one statement, a first one after all - and
   its status is written and confirmed, or, loosely, written.
   */
  predicate GetsThrough(p: Params, t: Tables, finalize: nat -> FinalTry, loose: bool, wrote: bool, from: nat, k: nat) {
    var f := finalize(k);
    var needed := if wrote || Inserted(p, t, finalize, from, k) then 1 else if Row(p, t, f).fromCredit > 0 then 3 else 2;
    && !f.readsFail && p.accountId in t.accounts && (f.dies.None? || f.dies.value >= needed)
    && (f.status.Fine? || (loose && f.status.LostReply?))
  }

  predicate SomeGetsThrough(p: Params, t: Tables, finalize: nat -> FinalTry, loose: bool, wrote: bool, from: nat) {
    exists k: nat :: from <= k <= 3 && GetsThrough(p, t, finalize, loose, wrote, from, k)
  }

  lemma {:induction false} RecordKeepsAccounts(t: Tables, call: Call, n: nat)
    ensures Requests.Statements(t, call, n).0.accounts.Keys >= t.accounts.Keys
    ensures !call.CreateAccount? ==> Requests.Statements(t, call, n).0.accounts.Keys == t.accounts.Keys
    decreases n
  {
    if n > 0 && !call.Done? {
      NoAccountOpened(t, call);
      RecordKeepsAccounts(Advance(t, call).tables, Advance(t, call).call, n - 1);
    }
  }

  lemma NoAccountOpened(t: Tables, call: Call)
    ensures Advance(t, call).tables.accounts.Keys >= t.accounts.Keys && !Advance(t, call).call.CreateAccount?
    ensures !call.CreateAccount? ==> Advance(t, call).tables.accounts.Keys == t.accounts.Keys
  {
  }

  lemma AttemptReturns(p: Params, t: Tables, f: FinalTry)
    ensures HasJob(p, t) ==> Recorded(p, t, f).0 == t && (Recorded(p, t, f).1 <==> f.dies != Some(0))
    ensures !HasJob(p, t) && Requests.FreshId(t, f.eventId) ==>
      (Recorded(p, t, f).1 <==> f.dies.None? || f.dies.value >= (if Row(p, t, f).fromCredit > 0 then 3 else 2))
  {
    hide Requests.Recorded, Row, HasJob, Requests.FreshId;
    RowIsOne(p, t, f);
    if HasJob(p, t) {
      ReplayIsSilent(p, t, f);
      if f.dies == Some(0) { Requests.DeadOnArrival(t, Attempt(p, t, f)); }
    } else if Requests.FreshId(t, f.eventId) {
      NewRowClashesWithNothing(p, t, f);
      Requests.ReturnsExactlyWhen(t, Attempt(p, t, f));
    }
  }

  lemma NotTheFirst(p: Params, t: Tables, finalize: nat -> FinalTry, loose: bool, wrote: bool, later: bool, k: nat)
    requires k <= 3
    requires forall j: nat :: k < j <= 3 ==>
      (GetsThrough(p, t, finalize, loose, wrote, k, j) <==> GetsThrough(p, t, finalize, loose, later, k + 1, j))
    ensures SomeGetsThrough(p, t, finalize, loose, wrote, k)
       <==> GetsThrough(p, t, finalize, loose, wrote, k, k) || SomeGetsThrough(p, t, finalize, loose, later, k + 1)
  {
    hide GetsThrough;
    if SomeGetsThrough(p, t, finalize, loose, wrote, k) {
      var j: nat :| k <= j <= 3 && GetsThrough(p, t, finalize, loose, wrote, k, j);
      if j > k { assert GetsThrough(p, t, finalize, loose, later, k + 1, j); }
    }
    if SomeGetsThrough(p, t, finalize, loose, later, k + 1) {
      var j: nat :| k + 1 <= j <= 3 && GetsThrough(p, t, finalize, loose, later, k + 1, j);
      assert GetsThrough(p, t, finalize, loose, wrote, k, j);
    }
  }

  /** What the finalize step leaves from attempt `k` on: whether it is done, and whether the job says succeeded. */
  predicate EndsAs(p: Params, t: Tables, finalize: nat -> FinalTry, url: string, wrote: bool, k: nat, status: Status, f: Final) {
    && (f.done <==> SomeGetsThrough(p, t, finalize, false, wrote, k))
    && (f.status == Succeeded(url) <==> status == Succeeded(url) || SomeGetsThrough(p, t, finalize, true, wrote, k))
  }

  lemma OneAttemptMore(p: Params, t: Tables, finalize: nat -> FinalTry, url: string, wrote: bool, later: bool, k: nat,
                       status: Status, now: Final, f: Final)
    requires k <= 3
    requires forall loose: bool, j: nat :: k < j <= 3 ==>
      (GetsThrough(p, t, finalize, loose, wrote, k, j) <==> GetsThrough(p, t, finalize, loose, later, k + 1, j))
    requires now.done <==> GetsThrough(p, t, finalize, false, wrote, k, k)
    requires now.status == if GetsThrough(p, t, finalize, true, wrote, k, k) then Succeeded(url) else status
    requires if now.done then f == now else EndsAs(p, t, finalize, url, later, k + 1, now.status, f)
    ensures EndsAs(p, t, finalize, url, wrote, k, status, f)
  {
    NotTheFirst(p, t, finalize, false, wrote, later, k);
    NotTheFirst(p, t, finalize, true, wrote, later, k);
    assert GetsThrough(p, t, finalize, false, wrote, k, k) ==> GetsThrough(p, t, finalize, true, wrote, k, k);
    hide GetsThrough, SomeGetsThrough;
  }

  /** Once the row is there, each further attempt needs its one statement and its status. */
  lemma {:induction false} RetriesEndExactlyWhen(p: Params, url: string, finalize: nat -> FinalTry, t0: Tables, t: Tables, status: Status, k: nat)
    requires HasJob(p, t) && t.accounts.Keys == t0.accounts.Keys && k <= 4
    ensures EndsAs(p, t0, finalize, url, true, k, status, FinalizeFrom(p, url, finalize, t, status, k))
    decreases FINALIZE_RETRIES + 1 - k
  {
    hide Recorded, HasJob, Row, EndsAs;
    if k <= FINALIZE_RETRIES {
      AttemptReturns(p, t, finalize(k));
      var f := FinalAttempt(p, url, t, status, finalize(k));
      assert f.done <==> GetsThrough(p, t0, finalize, false, true, k, k);
      if !f.done { RetriesEndExactlyWhen(p, url, finalize, t0, t, f.status, k + 1); }
      OneAttemptMore(p, t0, finalize, url, true, true, k, status, f, FinalizeFrom(p, url, finalize, t, status, k));
    } else {
      NoAttemptLeft(p, t0, finalize, url, true, t, status);
    }
  }

  lemma NoAttemptLeft(p: Params, t0: Tables, finalize: nat -> FinalTry, url: string, wrote: bool, t: Tables, status: Status)
    ensures EndsAs(p, t0, finalize, url, wrote, 4, status, Final(t, status, false))
  {
  }

  lemma {:induction false} FinalizeEndsExactlyWhen(p: Params, url: string, finalize: nat -> FinalTry, t: Tables, status: Status, k: nat)
    requires !HasJob(p, t) && FreshIds(t, finalize) && k <= 4
    ensures EndsAs(p, t, finalize, url, false, k, status, FinalizeFrom(p, url, finalize, t, status, k))
    decreases FINALIZE_RETRIES + 1 - k
  {
    hide Recorded, HasJob, Row, EndsAs;
    if k <= FINALIZE_RETRIES {
      AttemptReturns(p, t, finalize(k));
      var f := FinalAttempt(p, url, t, status, finalize(k));
      assert !Inserted(p, t, finalize, k, k);
      assert f.done <==> GetsThrough(p, t, finalize, false, false, k, k);
      var wrote := Writes(p, t, finalize(k));
      if wrote {
        WriteLeavesTheRow(p, t, finalize(k));
        KeepsAccounts(p, t, finalize(k));
        forall j: nat | k < j <= 3 ensures Inserted(p, t, finalize, k, j) { }
        if !f.done { RetriesEndExactlyWhen(p, url, finalize, t, f.tables, f.status, k + 1); }
      } else {
        if !finalize(k).readsFail && p.accountId in t.accounts { NoWriteNoChange(p, t, finalize(k)); }
        forall j: nat | k < j <= 3 ensures Inserted(p, t, finalize, k, j) <==> Inserted(p, t, finalize, k + 1, j) { }
        if !f.done { FinalizeEndsExactlyWhen(p, url, finalize, t, f.status, k + 1); }
      }
      OneAttemptMore(p, t, finalize, url, false, wrote, k, status, f, FinalizeFrom(p, url, finalize, t, status, k));
    } else {
      NoAttemptLeft(p, t, finalize, url, false, t, status);
    }
  }

  lemma KeepsAccounts(p: Params, t: Tables, f: FinalTry)
    ensures Recorded(p, t, f).0.accounts.Keys == t.accounts.Keys
  {
    RecordKeepsAccounts(t, UsageInsert(Row(p, t, f)), f.dies.GetOr(3));
  }

  /**
   The workflow ends without an error exactly when an asset was produced and kept and some attempt to
   finalize got through. After an error the job is failed, or, when that could not be written either, says
   succeeded exactly when some attempt had written that without hearing back.
   */
  lemma JobSucceedsExactlyWhen(p: Params, t: Tables, s: Script)
    requires !HasJob(p, t) && FreshIds(t, s.finalize)
    ensures var o := WholeRun(p, t, s); var url := RehostFrom(s.rehost, 0);
      var asset := InvokeFrom(s.invoke, 0, []).url.Some? && url.Some?;
      && (!o.threw <==> asset && SomeGetsThrough(p, t, s.finalize, false, false, 0))
      && (o.threw && !s.failWrite.Refused? ==> o.status == FailedJob)
      && (o.threw && s.failWrite.Refused? ==>
            (o.status == Running <==> !(asset && SomeGetsThrough(p, t, s.finalize, true, false, 0))))
  {
    hide FinalizeFrom, InvokeFrom, RehostFrom, HasJob, FreshIds, SomeGetsThrough;
    if RehostFrom(s.rehost, 0).Some? {
      FinalizeEndsExactlyWhen(p, RehostFrom(s.rehost, 0).value, s.finalize, t, Running, 0);
      SuccessFollowsTheRow(p, RehostFrom(s.rehost, 0).value, s.finalize, t, Running, 0);
    }
  }

  /**
   A job ends succeeded, with the kept asset and its ledger row in place, or failed; it is left running
   only when the failure itself could not be written.
   */
  lemma JobEnds(p: Params, t: Tables, s: Script)
    requires FreshIds(t, s.finalize)
    ensures var o := WholeRun(p, t, s);
      && (o.status == Running ==> o.threw && s.failWrite.Refused?)
      && (!o.threw ==> o.status.Succeeded?)
      && (o.threw && !s.failWrite.Refused? ==> o.status == FailedJob)
      && (o.status.Succeeded? ==> RehostFrom(s.rehost, 0) == Some(o.status.url) && HasJob(p, o.tables))
  {
    hide FinalizeFrom, InvokeFrom, RehostFrom, HasJob, FreshIds;
    if InvokeFrom(s.invoke, 0, []).url.Some? && RehostFrom(s.rehost, 0).Some? {
      SuccessFollowsTheRow(p, RehostFrom(s.rehost, 0).value, s.finalize, t, Running, 0);
    }
  }
}
