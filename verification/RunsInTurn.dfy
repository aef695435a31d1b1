/**
 The reconciliation method called again and again (src/reconcile-run.ts:156-353): each call starts from the
 stored watermark and mints its own row ids, and together they do what module Schedule says of a schedule.
 */
module RunsInTurn {
  import opened Wrappers
  import opened Ledger
  import opened Calls
  import opened Store
  import opened Reconcile
  import opened ReconcileRun
  import opened Schedule

  function TurnOf(a: Args): Turn { Turn(a.now, MaxRows(a)) }

  function TurnsOf(runs: seq<Args>): (ts: seq<Turn>)
    ensures |ts| == |runs| && forall i :: 0 <= i < |runs| ==> ts[i] == TurnOf(runs[i])
  {
    if |runs| == 0 then [] else TurnsOf(runs[..|runs| - 1]) + [TurnOf(runs[|runs| - 1])]
  }

  /** How many row ids a run mints: one for each decision that adjusts. */
  function Adjusts(ds: seq<DecidedRow>): nat {
    if |ds| == 0 then 0 else Adjusts(ds[..|ds| - 1]) + if ds[|ds| - 1].outcome.Adjust? then 1 else 0
  }

  lemma {:induction false} MintsOnePerAdjust(p: Progress, ds: seq<DecidedRow>, ids: nat -> string)
    ensures ApplyAll(p, ds, ids).minted == p.minted + Adjusts(ds)
  {
    hide Complete, HasAdjustment;
    if |ds| > 0 { MintsOnePerAdjust(p, ds[..|ds| - 1], ids); }
  }

  /** A run that numbers its own rows from zero continues the numbering of the runs before it. */
  lemma RunContinues(p: Progress, ds: seq<DecidedRow>, ids: nat -> string, later: nat -> string)
    requires forall n: nat :: later(n) == ids(p.minted + n)
    ensures ApplyAll(ProgressFrom(p.tables), ds, later).tables == ApplyAll(p, ds, ids).tables
    ensures ApplyAll(p, ds, ids).minted == p.minted + Adjusts(ds)
  {
    hide ApplyAll, ApplyOne;
    FreshIdsShift(p, ds, ids, later, p.minted);
    CountersAdd(p.(minted := 0), ds, later);
    MintsOnePerAdjust(p, ds, ids);
  }

  lemma {:induction false} OneMoreRun(p: Progress, rows: seq<GatewayLog>, floor: int, turns: seq<Turn>, t: Turn,
                                      events: seq<UsageEvent>, ids: nat -> string)
    ensures var from := FinalFloor(rows, floor, turns);
      && FinalFloor(rows, floor, turns + [t]) == NextFloor(rows, from, t.now, t.max)
      && LiveRuns(p, rows, floor, turns + [t], events, ids)
         == ApplyAll(LiveRuns(p, rows, floor, turns, events, ids), DecideAll(Visit(rows, from, t.now, t.max), events), ids)
    decreases |turns|
  {
    hide ApplyAll, DecideAll, Visit, NextFloor;
    if |turns| == 0 {
      assert turns + [t] == [t] && [t][1..] == [];
    } else {
      var u := turns[0];
      assert (turns + [t])[1..] == turns[1..] + [t];
      OneMoreRun(ApplyAll(p, DecideAll(Visit(rows, floor, u.now, u.max), events), ids), rows,
                 NextFloor(rows, floor, u.now, u.max), turns[1..], t, events, ids);
    }
  }

  /** Every one of these runs would start at `floor`: stored, or the same first floor given to each. */
  predicate StartsAt(state: Option<ReconcileState>, runs: seq<Args>, floor: int) {
    forall i :: 0 <= i < |runs| ==> Floor(state, runs[i]) == Some(floor)
  }

  lemma NextRunStartsWhereThisOneStopped(state: Option<ReconcileState>, runs: seq<Args>, rows: seq<GatewayLog>, floor: int,
                                         a: Args, lastLogId: Option<string>, seen: int, adjusted: int)
    requires StartsAt(state, runs, floor)
    ensures var advance := NextWatermark(floor, NewestOf(Visit(rows, floor, a.now, MaxRows(a))), a.now);
      StartsAt(Some(NextState(state, advance, lastLogId, a.now, seen, adjusted)), runs, NextFloor(rows, floor, a.now, MaxRows(a)))
  {
    hide Visit, NewestOf;
  }

  /**
   Live runs in turn, each on a feed that shows every settled row: the tables end as the schedule's
   continuous account says, and the stored watermark where its last run stops.
   */
  method ReconcileInTurn(db: Db, gatewayId: string, feeds: seq<Feed>, ghost bound: nat, runs: seq<Args>,
                         ids: nat -> string, ghost history: seq<Entry>, ghost floor: int)
    requires |feeds| == |runs| && StartsAt(Look(db.reconcileStates, gatewayId), runs, floor)
    requires forall i :: 0 <= i < |runs| ==>
      Bounded(feeds[i], bound) && Shows(feeds[i], history, Ceiling(runs[i].now)) && !runs[i].dryRun
    modifies db`accounts, db`periods, db`grants, db`adjustments, db`reconcileStates
    ensures db.Money()
         == LiveRuns(ProgressFrom(old(db.Money())), Readable(history), floor, TurnsOf(runs), db.events, ids).tables
    ensures StartsAt(Look(db.reconcileStates, gatewayId), runs, FinalFloor(Readable(history), floor, TurnsOf(runs)))
  {
    hide ApplyAll, ApplyOne, DecideAll, Visit, Paging, ReportsOn, NextState, NextWatermark, NextFloor, Floor,
      LiveRuns, FinalFloor, Shows, Bounded, MaxRows, PerPage, Readable, StartsAt;
    ghost var rows := Readable(history);
    ghost var start := ProgressFrom(db.Money());
    ghost var progress := start;
    ghost var from := floor;
    var minted: nat := 0;
    NoRuns(start, rows, floor, db.events, ids);
    for i := 0 to |runs|
      invariant progress == LiveRuns(start, rows, floor, TurnsOf(runs)[..i], db.events, ids)
      invariant from == FinalFloor(rows, floor, TurnsOf(runs)[..i])
      invariant progress.tables == db.Money() && progress.minted == minted
      invariant StartsAt(Look(db.reconcileStates, gatewayId), runs, from)
    {
      var later: nat -> string := (n: nat) => ids(minted + n);
      var decided := RunOnce(db, gatewayId, feeds[i], bound, runs[i], later, history, from, runs, i);
      RunContinues(progress, decided, ids, later);
      assert TurnsOf(runs)[..i + 1] == TurnsOf(runs)[..i] + [TurnOf(runs[i])];
      OneMoreRun(start, rows, floor, TurnsOf(runs)[..i], TurnOf(runs[i]), db.events, ids);
      progress := ApplyAll(progress, decided, ids);
      from := NextFloor(rows, from, runs[i].now, MaxRows(runs[i]));
      minted := minted + Adjusts(decided);
    }
    assert TurnsOf(runs)[..|runs|] == TurnsOf(runs);
  }

  lemma NoRuns(p: Progress, rows: seq<GatewayLog>, floor: int, events: seq<UsageEvent>, ids: nat -> string)
    ensures LiveRuns(p, rows, floor, [], events, ids) == p && FinalFloor(rows, floor, []) == floor
  {
  }

  /** One of those runs. */
  method RunOnce(db: Db, gatewayId: string, feed: Feed, ghost bound: nat, run: Args, ids: nat -> string,
                 ghost history: seq<Entry>, ghost floor: int, ghost runs: seq<Args>, ghost i: nat)
    returns (ds: seq<DecidedRow>)
    requires i < |runs| && runs[i] == run && !run.dryRun
    requires Bounded(feed, bound) && Shows(feed, history, Ceiling(run.now))
    requires StartsAt(Look(db.reconcileStates, gatewayId), runs, floor)
    modifies db`accounts, db`periods, db`grants, db`adjustments, db`reconcileStates
    ensures ds == DecideAll(Visit(Readable(history), floor, run.now, MaxRows(run)), db.events)
    ensures db.Money() == ApplyAll(ProgressFrom(old(db.Money())), ds, ids).tables
    ensures StartsAt(Look(db.reconcileStates, gatewayId), runs, NextFloor(Readable(history), floor, run.now, MaxRows(run)))
  {
    hide ApplyAll, DecideAll, Visit, Paging, ReportsOn, NextState, NextWatermark, NextFloor, Shows, Bounded, MaxRows,
      PerPage, Readable;
    ghost var state := Look(db.reconcileStates, gatewayId);
    assert Floor(state, run) == Some(floor);
    PageSizeIsPositive(run);
    RunVisits(feed, bound, history, floor, run.now, PerPage(run), MaxRows(run));
    var res;
    res, ds := RunReconcile(db, gatewayId, feed, bound, run, ids);
    NextRunStartsWhereThisOneStopped(state, runs, Readable(history), floor, run,
      LastIdOf(Visit(Readable(history), floor, run.now, MaxRows(run))), |ds|, res.report.applied);
  }

  lemma PageSizeIsPositive(a: Args)
    ensures PerPage(a) >= 1 && MaxRows(a) >= 1
  {
  }

  /**
   So two schedules of live runs, on their own copies of one ledger, that stop at the same watermark
   without splitting a tie leave the same money tables.
   */
  lemma SchedulesAgree(t: Tables, events: seq<UsageEvent>, rows: seq<GatewayLog>, floor: int,
                       one: seq<Args>, other: seq<Args>, ids: nat -> string)
    requires Ascending(rows) && TiesKept(rows, floor, TurnsOf(one)) && TiesKept(rows, floor, TurnsOf(other))
    requires FinalFloor(rows, floor, TurnsOf(one)) == FinalFloor(rows, floor, TurnsOf(other))
    ensures LiveRuns(ProgressFrom(t), rows, floor, TurnsOf(one), events, ids)
         == LiveRuns(ProgressFrom(t), rows, floor, TurnsOf(other), events, ids)
  {
    hide LiveRuns, FinalFloor, TiesKept, In, VisitAll, ApplyAll, DecideAll, MaxRows;
    TurnsAreCapped(one);
    TurnsAreCapped(other);
    RunsCoverTheWindow(rows, floor, TurnsOf(one));
    RunsCoverTheWindow(rows, floor, TurnsOf(other));
    LiveRunsApplyVisits(ProgressFrom(t), rows, floor, TurnsOf(one), events, ids);
    LiveRunsApplyVisits(ProgressFrom(t), rows, floor, TurnsOf(other), events, ids);
  }

  lemma TurnsAreCapped(runs: seq<Args>)
    ensures Capped(TurnsOf(runs))
  {
    hide MaxRows;
    forall i | 0 <= i < |runs| ensures TurnsOf(runs)[i].max >= 1 { PageSizeIsPositive(runs[i]); }
  }
}
