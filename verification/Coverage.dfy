/**
 Runs that overlap, die half way, or are started twice (src/reconcile-run.ts:156-353,
 src/store-d1.ts:475-499): the stored watermark never stands above a row nobody decided.
 */
module Coverage {
  import opened Wrappers
  import opened Ledger
  import opened Calls
  import opened Reconcile
  import opened ReconcileRun
  import opened Schedule

  /**
   A run is a program counter over the rows it will visit: each row is decided and written in turn, and
   the watermark is written last, without taking a maximum. The ledger keeps changing under the runs.
   */
  datatype RunState =
    | Active(floor: int, now: int, max: nat, done: nat)
    | Ended

  /** `base` is the highest first-run floor ever supplied; the job answers only for rows above it. */
  datatype World = World(
    tables: Tables, watermark: Option<int>, runs: seq<RunState>, decided: seq<DecidedRow>, base: Option<int>)

  const NEW_WORLD := World(EMPTY, None, [], [], None)

  datatype Event =
    | Begin(now: int, since: Option<int>, max: nat)
    | Process(run: nat, id: string)
    | Die(run: nat)
    | Finish(run: nat)
    | Elsewhere(tables: Tables)

  /** The rows a run will visit, in order. */
  function Plan(rows: seq<GatewayLog>, r: RunState): seq<GatewayLog>
    requires r.Active?
  {
    Visit(rows, r.floor, r.now, r.max)
  }

  /** A freshly minted row id is not already another key's. */
  predicate Minted(t: Tables, id: string, key: string) {
    forall r :: r in t.adjustments && r.id == id ==> r.key == key
  }

  function Written(t: Tables, d: DecidedRow, id: string): Tables {
    if d.outcome.Adjust? then Complete(t, AdjustInsert(ToAdjustment(d.log, d.outcome, id))) else t
  }

  function Next(rows: seq<GatewayLog>, w: World, e: Event): World {
    match e
    case Begin(now, since, max) =>
      var floor := if w.watermark.Some? then w.watermark else since;
      if floor.None? || max == 0 then w
      else
        w.(runs := w.runs + [Active(floor.value, now, max, 0)],
           base := if w.watermark.Some? then w.base
                   else Some(if w.base.Some? then Max(w.base.value, floor.value) else floor.value))
    case Process(i, id) =>
      if i < |w.runs| && w.runs[i].Active? && w.runs[i].done < |Plan(rows, w.runs[i])|
         && Minted(w.tables, id, AdjustmentKey(Plan(rows, w.runs[i])[w.runs[i].done].id))
      then
        var d := Decide(Plan(rows, w.runs[i])[w.runs[i].done], w.tables.events);
        w.(tables := Written(w.tables, d, id), decided := w.decided + [d],
           runs := w.runs[i := w.runs[i].(done := w.runs[i].done + 1)])
      else w
    case Die(i) => if i < |w.runs| then w.(runs := w.runs[i := Ended]) else w
    case Finish(i) =>
      if i < |w.runs| && w.runs[i].Active? && w.runs[i].done == |Plan(rows, w.runs[i])| then
        var advance := NextWatermark(w.runs[i].floor, NewestOf(Plan(rows, w.runs[i])), w.runs[i].now);
        w.(watermark := if advance.Some? then advance else w.watermark, runs := w.runs[i := Ended])
      else w
    case Elsewhere(t) => if w.tables.adjustments <= t.adjustments then w.(tables := t) else w
  }

  function History(rows: seq<GatewayLog>, w: World, events: seq<Event>): World
    decreases |events|
  {
    if events == [] then w else History(rows, Next(rows, w, events[0]), events[1..])
  }

  /** The event finishes a run that has worked through its whole plan. */
  predicate Finishes(rows: seq<GatewayLog>, w: World, e: Event) {
    && e.Finish? && e.run < |w.runs| && w.runs[e.run].Active?
    && w.runs[e.run].done == |Plan(rows, w.runs[e.run])|
  }

  /** No run that finished had its cap between two rows of one instant; killed runs may. */
  ghost predicate FinishedRunsKeepTies(rows: seq<GatewayLog>, w: World, events: seq<Event>)
    decreases |events|
  {
    events != [] ==>
      && (Finishes(rows, w, events[0]) ==>
            var r := w.runs[events[0].run]; KeepsTies(rows, r.floor, r.now, r.max))
      && FinishedRunsKeepTies(rows, Next(rows, w, events[0]), events[1..])
  }

  ghost predicate WasDecided(decided: seq<DecidedRow>, l: GatewayLog) {
    exists d :: d in decided && d.log == l
  }

  /** Every row in (lo, hi] has been decided by some run. */
  ghost predicate DecidedBetween(rows: seq<GatewayLog>, decided: seq<DecidedRow>, lo: int, hi: int) {
    forall l :: l in rows && lo < l.at <= hi ==> WasDecided(decided, l)
  }

  ghost predicate RunIsSound(rows: seq<GatewayLog>, w: World, r: RunState) {
    r.Active? ==>
      && r.max >= 1 && r.done <= |Plan(rows, r)|
      && w.base.Some? && DecidedBetween(rows, w.decided, w.base.value, r.floor)
      && forall j :: 0 <= j < r.done ==> WasDecided(w.decided, Plan(rows, r)[j])
  }

  ghost predicate Audited(t: Tables, l: GatewayLog) {
    exists r :: r in t.adjustments && r.key == AdjustmentKey(l.id)
  }

  ghost predicate Covered(rows: seq<GatewayLog>, w: World) {
    && (w.watermark.Some? ==> w.base.Some? && DecidedBetween(rows, w.decided, w.base.value, w.watermark.value))
    && (forall i :: 0 <= i < |w.runs| ==> RunIsSound(rows, w, w.runs[i]))
    && (forall d :: d in w.decided && d.outcome.Adjust? ==> Audited(w.tables, d.log))
  }

  // ---- each event keeps it ----

  lemma {:induction false} InComplete(rows: seq<GatewayLog>, l: GatewayLog, lo: int, hi: int)
    requires l in rows && lo < l.at <= hi
    ensures l in In(rows, lo, hi)
  {
    if rows[0] != l { InComplete(rows[1..], l, lo, hi); }
  }

  lemma WritesAreAudited(t: Tables, d: DecidedRow, id: string)
    requires Minted(t, id, AdjustmentKey(d.log.id))
    ensures t.adjustments <= Written(t, d, id).adjustments
    ensures d.outcome.Adjust? ==> Audited(Written(t, d, id), d.log)
  {
    if d.outcome.Adjust? {
      var r := ToAdjustment(d.log, d.outcome, id);
      CompletedAdjust(t, r);
      if HasAdjustment(t.adjustments, r) {
        var x :| x in t.adjustments && AdjustmentsClash(x, r);
        assert x.key == r.key;
        assert Written(t, d, id) == t;
      } else {
        assert Written(t, d, id).adjustments == t.adjustments + [r];
        assert (t.adjustments + [r])[|t.adjustments|] == r;
      }
    }
  }

  lemma BeginKeeps(rows: seq<GatewayLog>, w: World, e: Event)
    requires Covered(rows, w) && e.Begin?
    ensures Covered(rows, Next(rows, w, e))
  {
    hide Visit;
    var w' := Next(rows, w, e);
    if w' != w {
      assert w'.decided == w.decided && w'.tables == w.tables;
      forall i | 0 <= i < |w'.runs| ensures RunIsSound(rows, w', w'.runs[i]) {
        if i < |w.runs| { assert RunIsSound(rows, w, w.runs[i]); }
      }
    }
  }

  lemma ProcessKeeps(rows: seq<GatewayLog>, w: World, i: nat, id: string)
    requires Covered(rows, w)
    ensures Covered(rows, Next(rows, w, Process(i, id)))
  {
    hide Visit, Written, Decide;
    var w' := Next(rows, w, Process(i, id));
    if w' != w {
      var d := Decide(Plan(rows, w.runs[i])[w.runs[i].done], w.tables.events);
      DecideKeepsLog(Plan(rows, w.runs[i])[w.runs[i].done], w.tables.events);
      WritesAreAudited(w.tables, d, id);
      assert w'.decided[|w.decided|] == d;
      assert forall l :: WasDecided(w.decided, l) ==> WasDecided(w'.decided, l);
      forall j | 0 <= j < |w'.runs| ensures RunIsSound(rows, w', w'.runs[j]) {
        assert RunIsSound(rows, w, w.runs[j]);
      }
    }
  }

  lemma DecideKeepsLog(l: GatewayLog, events: seq<UsageEvent>)
    ensures Decide(l, events).log == l
  {
  }

  lemma FinishKeeps(rows: seq<GatewayLog>, w: World, i: nat)
    requires Covered(rows, w) && Ascending(rows)
    requires Finishes(rows, w, Finish(i)) ==> KeepsTies(rows, w.runs[i].floor, w.runs[i].now, w.runs[i].max)
    ensures Covered(rows, Next(rows, w, Finish(i)))
  {
    hide Visit, In, NextWatermark, KeepsTies;
    var w' := Next(rows, w, Finish(i));
    if w' != w {
      var r := w.runs[i];
      assert RunIsSound(rows, w, r);
      var advance := NextWatermark(r.floor, NewestOf(Plan(rows, r)), r.now);
      if advance.Some? {
        OneRunCovers(rows, r.floor, r.now, r.max);
        assert NextFloor(rows, r.floor, r.now, r.max) == advance.value;
        forall l | l in rows && w.base.value < l.at <= advance.value ensures WasDecided(w.decided, l) {
          if l.at > r.floor {
            InComplete(rows, l, r.floor, advance.value);
            var j :| 0 <= j < |Plan(rows, r)| && Plan(rows, r)[j] == l;
          }
        }
      }
      forall j | 0 <= j < |w'.runs| ensures RunIsSound(rows, w', w'.runs[j]) {
        assert RunIsSound(rows, w, w.runs[j]);
      }
    }
  }

  lemma OthersKeep(rows: seq<GatewayLog>, w: World, e: Event)
    requires Covered(rows, w) && (e.Die? || e.Elsewhere?)
    ensures Covered(rows, Next(rows, w, e))
  {
    hide Visit;
    var w' := Next(rows, w, e);
    forall j | 0 <= j < |w'.runs| ensures RunIsSound(rows, w', w'.runs[j]) {
      assert RunIsSound(rows, w, w.runs[j]);
    }
  }

  /**
   After any history of runs - truncated, killed, failed while paging, or overlapping - whose finished runs
   kept their ties together, every readable row between the first floor and the stored watermark was
   decided by some run, and every one of those decisions that adjusts has its audit row.
   */
  lemma {:induction false} WatermarkIsCovered(rows: seq<GatewayLog>, w: World, events: seq<Event>)
    requires Ascending(rows) && Covered(rows, w) && FinishedRunsKeepTies(rows, w, events)
    ensures Covered(rows, History(rows, w, events))
    decreases |events|
  {
    hide Covered, KeepsTies, Visit;
    if events != [] {
      match events[0] {
        case Begin(_, _, _) => BeginKeeps(rows, w, events[0]);
        case Process(i, id) => ProcessKeeps(rows, w, i, id);
        case Finish(i) => FinishKeeps(rows, w, i);
        case _ => OthersKeep(rows, w, events[0]);
      }
      WatermarkIsCovered(rows, Next(rows, w, events[0]), events[1..]);
    }
  }

  lemma NothingIsLost(rows: seq<GatewayLog>, events: seq<Event>, l: GatewayLog)
    requires Ascending(rows) && FinishedRunsKeepTies(rows, NEW_WORLD, events)
    requires var w := History(rows, NEW_WORLD, events);
      w.watermark.Some? && w.base.Some? && l in rows && w.base.value < l.at <= w.watermark.value
    ensures var w := History(rows, NEW_WORLD, events);
      exists d :: d in w.decided && d.log == l && (d.outcome.Adjust? ==> Audited(w.tables, l))
  {
    WatermarkIsCovered(rows, NEW_WORLD, events);
    var w := History(rows, NEW_WORLD, events);
    assert WasDecided(w.decided, l);
  }

  // ---- the watermark itself ----

  /** Where a run that worked through its plan stops looking. */
  function StopsAt(rows: seq<GatewayLog>, r: RunState): int
    requires r.Active? && r.max >= 1
  {
    var all := In(rows, r.floor, Ceiling(r.now));
    if all == [] then Ceiling(r.now) else all[Min(r.max, |all|) - 1].at
  }

  /**
   A finishing run moves the stored watermark back exactly when it has anything to move it by and stopped
   short of where another run has put it since.
   */
  lemma MovesBackExactlyWhen(rows: seq<GatewayLog>, w: World, i: nat)
    requires Finishes(rows, w, Finish(i)) && w.runs[i].max >= 1 && w.watermark.Some?
    ensures var r := w.runs[i]; var w' := Next(rows, w, Finish(i));
      && w'.watermark.Some?
      && (w'.watermark.value < w.watermark.value
          <==> r.floor < Ceiling(r.now) && StopsAt(rows, r) < w.watermark.value)
  {
    hide In;
    var r := w.runs[i];
    if In(rows, r.floor, Ceiling(r.now)) == [] {
      IdleRun(rows, r.floor, r.now, r.max);
    } else {
      BusyRun(rows, r.floor, r.now, r.max);
    }
  }

  /** So a run that read the watermark as it still stands never does. */
  lemma UndisturbedRunsOnlyAdvance(rows: seq<GatewayLog>, w: World, i: nat)
    requires i < |w.runs| && w.runs[i].Active? && w.runs[i].max >= 1
    requires w.watermark.Some? && w.runs[i].floor == w.watermark.value
    ensures var w' := Next(rows, w, Finish(i));
      w'.watermark.Some? && w'.watermark.value >= w.watermark.value
  {
    hide In;
    var r := w.runs[i];
    if Finishes(rows, w, Finish(i)) { MovesBackExactlyWhen(rows, w, i); }
    InWithin(rows, r.floor, Ceiling(r.now));
  }

  /** Overlapping runs can: the later writer wins even when it looked less far. */
  lemma OverlapMovesWatermarkBack()
    ensures var early := [Begin(2000000, Some(0), 1), Begin(3000000, Some(0), 1), Finish(1)];
      History([], NEW_WORLD, early).watermark == Some(2100000) &&
      History([], NEW_WORLD, early + [Finish(0)]).watermark == Some(1100000)
  {
    var a, b := Begin(2000000, Some(0), 1), Begin(3000000, Some(0), 1);
    var w1 := Next([], NEW_WORLD, a);
    var w2 := Next([], w1, b);
    var w3 := Next([], w2, Finish(1));
    assert w3.runs == [Active(0, 2000000, 1, 0), Ended];
    var early := [a, b, Finish(1)];
    assert early[1..] == [b, Finish(1)] && early[1..][1..] == [Finish(1)];
    assert (early + [Finish(0)])[1..] == [b, Finish(1), Finish(0)];
    assert [b, Finish(1), Finish(0)][1..] == [Finish(1), Finish(0)] && [Finish(1), Finish(0)][1..] == [Finish(0)];
    assert History([], w2, [Finish(1)]) == w3;
    assert History([], w2, [Finish(1), Finish(0)]) == Next([], w3, Finish(0));
  }
}
