/**
 The metered relay (src/stream.ts:178-232) and the ledger row it leads to (src/routes/chat.ts:410-480),
 for every interleaving of chunks, source end, source error and client cancel.
 */
module Relay {
  import opened Wrappers
  import opened Text
  import opened Json
  import opened Scanner
  import opened Meter
  import opened Balance
  import Ledger

  /** A chunk of the source and the text the streaming decoder yields for it. */
  datatype Chunk = Chunk(bytes: seq<bv8>, text: string)

  /** What resumes the relay; `flush` is what the decoder holds back when it is told to finish. */
  datatype Event =
    | Received(chunk: Chunk)
    | Ended(flush: string)
    | Broke(flush: string)
    | HungUp(flush: string)

  datatype Phase = Live | Closed | Errored | Abandoned

  datatype State = State(reader: Reader, settlements: seq<Settlement>, relayed: seq<Chunk>, phase: Phase)

  const FRESH := State(START, [], [], Live)

  function Settled(seen: Seen, t: Termination): Settlement { Settlement(seen.usage, seen.frames, t, seen.bytes) }

  predicate Terminates(e: Event) { !e.Received? }

  function Kind(e: Event): Termination
    requires Terminates(e)
  {
    match e case Ended(_) => Complete case Broke(_) => Failed case HungUp(_) => Cancelled
  }

  function PhaseAfter(t: Termination): Phase {
    match t case Complete => Closed case Failed => Errored case Cancelled => Abandoned
  }

  /** One event: a chunk is scanned always and relayed only while the client's stream is live. */
  function Step(parse: string -> Option<Json>, s: State, e: Event): State {
    if e.Received? then
      s.(reader := Pushed(parse, s.reader, e.chunk.text),
         relayed := if s.phase.Live? then s.relayed + [e.chunk] else s.relayed)
    else if s.phase.Live? then
      var seen := Scanner.Ended(parse, s.reader, e.flush);
      State(Reader("", seen), s.settlements + [Settled(seen, Kind(e))], s.relayed, PhaseAfter(Kind(e)))
    else s
  }

  class MeteredRelay {
    const scanner: SseUsageScanner
    var settled: bool
    var settlements: seq<Settlement>
    var relayed: seq<Chunk>
    var phase: Phase

    ghost predicate Valid()
      reads this
    {
      settled <==> !phase.Live?
    }

    function View(): State
      reads this, scanner
    {
      State(scanner.State(), settlements, relayed, phase)
    }

    constructor (parse: string -> Option<Json>)
      ensures Valid() && fresh(scanner) && scanner.parse == parse && View() == FRESH
    {
      scanner := new SseUsageScanner(parse);
      settled, settlements, relayed, phase := false, [], [], Live;
    }

    method SettleOnce(t: Termination, flush: string)
      modifies this`settled, this`settlements, scanner
      ensures settled
      ensures old(settled) ==> settlements == old(settlements) && scanner.State() == old(scanner.State())
      ensures !old(settled) ==>
        var seen := Scanner.Ended(scanner.parse, old(scanner.State()), flush);
        settlements == old(settlements) + [Settled(seen, t)] && scanner.State() == Reader("", seen)
    {
      if settled { return; }
      settled := true;
      scanner.End(flush);
      settlements := settlements + [Settlement(scanner.lastUsage, scanner.sawAnyFrame, t, scanner.outputBytes)];
    }

    /** One resolved read. Enqueueing or closing a stream that is not live throws into the catch. */
    method Pull(e: Event)
      requires Valid() && !e.HungUp?
      modifies this, scanner
      ensures Valid() && View() == Step(scanner.parse, old(View()), e)
    {
      match e
      case Ended(flush) =>
        SettleOnce(Complete, flush);
        if phase.Live? { phase := Closed; } else { Catch(flush); }
      case Received(chunk) =>
        scanner.Push(chunk.text);
        if phase.Live? { relayed := relayed + [chunk]; } else { Catch(""); }
      case Broke(flush) =>
        Catch(flush);
    }

    method Catch(flush: string)
      modifies this, scanner
      ensures relayed == old(relayed) && settled && phase == (if old(phase).Live? then Errored else old(phase))
      ensures old(settled) ==> settlements == old(settlements) && scanner.State() == old(scanner.State())
      ensures !old(settled) ==>
        var seen := Scanner.Ended(scanner.parse, old(scanner.State()), flush);
        settlements == old(settlements) + [Settled(seen, Failed)] && scanner.State() == Reader("", seen)
    {
      SettleOnce(Failed, flush);
      if phase.Live? { phase := Errored; }
    }

    /** The runtime cancels only a stream that is still live. */
    method Cancel(flush: string)
      requires Valid()
      modifies this, scanner
      ensures Valid() && View() == Step(scanner.parse, old(View()), HungUp(flush))
    {
      if !phase.Live? { return; }
      SettleOnce(Cancelled, flush);
      phase := Abandoned;
    }
  }

  function After(parse: string -> Option<Json>, events: seq<Event>): State {
    if |events| == 0 then FRESH else Step(parse, After(parse, events[..|events| - 1]), events[|events| - 1])
  }

  function Chunks(events: seq<Event>): seq<Chunk> {
    if |events| == 0 then []
    else if events[|events| - 1].Received? then Chunks(events[..|events| - 1]) + [events[|events| - 1].chunk]
    else Chunks(events[..|events| - 1])
  }

  function Decoded(chunks: seq<Chunk>): seq<string> {
    if |chunks| == 0 then [] else Decoded(chunks[..|chunks| - 1]) + [chunks[|chunks| - 1].text]
  }

  /** The events before the first termination. */
  function Alive(events: seq<Event>): (r: seq<Event>)
    ensures IsPrefix(r, events)
    ensures forall i :: 0 <= i < |r| ==> r[i].Received?
    ensures |r| < |events| ==> Terminates(events[|r|])
  {
    if |events| == 0 || Terminates(events[0]) then [] else [events[0]] + Alive(events[1..])
  }

  lemma AliveSnoc(events: seq<Event>, e: Event)
    ensures Alive(events + [e])
         == if |Alive(events)| < |events| || Terminates(e) then Alive(events) else events + [e]
  {
    if |events| > 0 && !Terminates(events[0]) {
      AliveSnoc(events[1..], e);
      assert (events + [e])[1..] == events[1..] + [e];
    } else if |events| == 0 {
      assert [e][1..] == [];
    }
  }

  lemma OneMoreChunk(parse: string -> Option<Json>, chunks: seq<Chunk>, c: Chunk)
    ensures Decoded(chunks + [c]) == Decoded(chunks) + [c.text]
    ensures PushedAll(parse, START, Decoded(chunks) + [c.text]) == Pushed(parse, PushedAll(parse, START, Decoded(chunks)), c.text)
  {
    assert (chunks + [c])[..|chunks|] == chunks;
    assert (Decoded(chunks) + [c.text])[..|Decoded(chunks)|] == Decoded(chunks);
  }

  /** While nothing has ended: everything is relayed and scanned, and nothing is settled. */
  lemma {:induction false} LiveRun(parse: string -> Option<Json>, events: seq<Event>)
    requires forall i :: 0 <= i < |events| ==> events[i].Received?
    ensures After(parse, events)
         == State(PushedAll(parse, START, Decoded(Chunks(events))), [], Chunks(events), Live)
  {
    if |events| > 0 {
      hide Pushed;
      LiveRun(parse, events[..|events| - 1]);
      OneMoreChunk(parse, Chunks(events[..|events| - 1]), events[|events| - 1].chunk);
    }
  }

  /** What an ended stream is settled as: one scan of everything before the first termination. */
  function Verdict(parse: string -> Option<Json>, events: seq<Event>): Settlement
    requires |Alive(events)| < |events|
  {
    var e := events[|Alive(events)|];
    var seen := Scan(parse, Concat(Decoded(Chunks(Alive(events)))) + e.flush);
    Settlement(seen.usage, seen.frames, if e.HungUp? then Cancelled else if e.Broke? then Failed else Complete, seen.bytes)
  }

  predicate FlushesAreShort(events: seq<Event>) {
    forall i :: 0 <= i < |events| && Terminates(events[i]) ==> OneLine(events[i].flush)
  }

  lemma FirstTermination(parse: string -> Option<Json>, before: seq<Event>, e: Event)
    requires Terminates(e) && OneLine(e.flush) && forall i :: 0 <= i < |before| ==> before[i].Received?
    ensures var s := Step(parse, After(parse, before), e);
      && s.relayed == Chunks(before) && s.phase == PhaseAfter(Kind(e))
      && s.settlements == [Settled(Scan(parse, Concat(Decoded(Chunks(before))) + e.flush), Kind(e))]
  {
    hide After, Scan, Concat, Decoded, PushedAll, Scanner.Ended, Chunks;
    LiveRun(parse, before);
    ChunkingIsInvisible(parse, Decoded(Chunks(before)), e.flush);
  }

  /**
   Every interleaving settles exactly once, with the first termination and one scan of what came before
   it, and relays exactly those chunks; nothing later changes either.
   */
  lemma {:induction false} SettlesExactlyOnce(parse: string -> Option<Json>, events: seq<Event>)
    requires FlushesAreShort(events)
    ensures var s := After(parse, events);
      && s.relayed == Chunks(Alive(events))
      && s.settlements == (if |Alive(events)| < |events| then [Verdict(parse, events)] else [])
      && s.phase == (if |Alive(events)| == |events| then Live
                     else match events[|Alive(events)|] case HungUp(_) => Abandoned case Broke(_) => Errored case _ => Closed)
  {
    hide Pushed, Scan, Concat, Decoded, Scanner.Ended, OneLine;
    if |events| > 0 {
      var before, e := events[..|events| - 1], events[|events| - 1];
      assert events == before + [e];
      SettlesExactlyOnce(parse, before);
      AliveSnoc(before, e);
      if |Alive(before)| == |before| {
        assert Alive(before) == before;
        if Terminates(e) { FirstTermination(parse, before, e); }
      } else {
        assert Alive(events) == Alive(before) && events[|Alive(before)|] == before[|Alive(before)|];
      }
    }
  }

  /** A source that yields nothing after its end is relayed whole when the stream completes. */
  lemma CompleteMeansEverything(parse: string -> Option<Json>, events: seq<Event>)
    requires FlushesAreShort(events) && |Alive(events)| < |events|
    requires forall i :: |Alive(events)| < i < |events| ==> !events[i].Received?
    ensures After(parse, events).relayed == Chunks(events)
  {
    hide After, Chunks, Verdict;
    SettlesExactlyOnce(parse, events);
    QuietTail(events, |Alive(events)|);
    assert events[..|Alive(events)|] == Alive(events);
  }

  lemma {:induction false} QuietTail(events: seq<Event>, k: nat)
    requires k <= |events| && forall i :: k <= i < |events| ==> !events[i].Received?
    ensures Chunks(events) == Chunks(events[..k])
    decreases |events|
  {
    if k < |events| {
      QuietTail(events[..|events| - 1], k);
      assert events[..|events| - 1][..k] == events[..k];
    } else {
      assert events[..k] == events;
    }
  }

  // ---- the ledger row ----

  /** The rows the settlements lead to: price, split on a fresh period read, record. */
  function Rows(settlements: seq<Settlement>, base: Ledger.UsageEvent, price: Rate, promptBytes: nat,
                included: Number, allowanceSpent: Number): seq<Ledger.UsageEvent>
  {
    if |settlements| == 0 then []
    else Rows(settlements[..|settlements| - 1], base, price, promptBytes, included, allowanceSpent)
         + [BuildEvent(base, StreamPartial(settlements[|settlements| - 1], price, promptBytes), included, allowanceSpent)]
  }

  /** What one stream's row must be, on what the scanner saw and how the stream ended. */
  ghost predicate Owed(seen: Seen, hungUp: bool, base: Ledger.UsageEvent, price: Rate, promptBytes: nat,
                       included: Number, allowanceSpent: Number, row: Ledger.UsageEvent)
  {
    var rated := Known(price.input) && Known(price.output);
    var estimated := rated && seen.usage == Null && hungUp;
    && (row.basis.Measured? <==> rated && Reported(seen.usage))
    && (row.basis.EstimatedOutput? <==> estimated)
    && (row.metered <==> !row.basis.Unpriced?)
    && (forall i, o :: rated && Reports(seen.usage, i, o) ==>
          Covers(row.microUsd, i * price.input.n + o * price.output.n))
    && (estimated ==> CoveredBy(row.microUsd, (promptBytes / 4) * price.input.n + (seen.bytes / 4) * price.output.n))
    && (row.basis.Unpriced? ==> row.microUsd == 0)
    && SplitOnRead(row.microUsd, included, allowanceSpent, row)
    && (row.id, row.requestId, row.accountId, row.clientId, row.periodKey)
       == (base.id, base.requestId, base.accountId, base.clientId, base.periodKey)
  }

  /**
   One stream, one row: none while it runs, one once it ends. It charges what the usage object reported, an
   estimate when the client hung up before any came, and nothing otherwise.
   */
  lemma OneStreamOneRow(parse: string -> Option<Json>, events: seq<Event>, base: Ledger.UsageEvent, price: Rate,
                        promptBytes: nat, included: Number, allowanceSpent: Number)
    requires FlushesAreShort(events)
    ensures var rows := Rows(After(parse, events).settlements, base, price, promptBytes, included, allowanceSpent);
      var ended := |Alive(events)| < |events|;
      && |rows| == (if ended then 1 else 0)
      && (ended ==>
            var seen := Scan(parse, Concat(Decoded(Chunks(Alive(events)))) + events[|Alive(events)|].flush);
            Owed(seen, events[|Alive(events)|].HungUp?, base, price, promptBytes, included, allowanceSpent, rows[0]))
  {
    hide After, Scan, Owed, BuildEvent, StreamPartial;
    SettlesExactlyOnce(parse, events);
    if |Alive(events)| < |events| {
      var s := Verdict(parse, events);
      assert [s][..0] == [];
      var e := events[|Alive(events)|];
      RowIsOwed(Scan(parse, Concat(Decoded(Chunks(Alive(events)))) + e.flush), Kind(e), base, price, promptBytes, included, allowanceSpent);
    }
  }

  lemma RowIsOwed(seen: Seen, t: Termination, base: Ledger.UsageEvent, price: Rate, promptBytes: nat,
                  included: Number, allowanceSpent: Number)
    ensures Owed(seen, t.Cancelled?, base, price, promptBytes, included, allowanceSpent,
                 BuildEvent(base, StreamPartial(Settled(seen, t), price, promptBytes), included, allowanceSpent))
  {
    hide StreamPartial, Reports, Covers, CoveredBy, SplitOnRead;
    var s := Settled(seen, t);
    var p := StreamPartial(s, price, promptBytes);
    StreamIsCharged(s, price, promptBytes);
    StreamRowIsClassified(s, price, promptBytes);
    BuiltRowsArePaid(base, p, included, allowanceSpent);
    if seen.usage == Null { NothingReported(); }
  }
}
