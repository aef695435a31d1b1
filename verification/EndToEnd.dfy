/**
 From an Anthropic event to the ledger (src/anthropic-sse-to-openai.ts:85-246, src/stream.ts:178-232,
 src/routes/chat.ts:410-480): what a streamed Anthropic answer costs, on the counts its events carried.
 */
module EndToEnd {
  import opened Wrappers
  import opened Text
  import opened Json
  import opened Scanner
  import opened Pipeline
  import opened Meter
  import opened Balance
  import Anthropic
  import Relay
  import Ledger

  /** Upstream events, however chunked, through the transformer, however chunked, relayed to `ending`. */
  predicate Streamed(parse: string -> Option<Json>, render: Json -> string, h: Anthropic.Head, id: seq<CodeUnit>,
                     us: seq<Upstream>, crlf: bool, inPieces: seq<string>, inFlush: string, events: seq<Relay.Event>)
  {
    && (forall i :: 0 <= i < |us| ==> Sendable(us[i]))
    && OneLine(inFlush) && Concat(inPieces) + inFlush == UpstreamWire(render, crlf, us)
    && Relay.FlushesAreShort(events) && |Relay.Alive(events)| < |events|
    && Concat(Relay.Decoded(Relay.Chunks(Relay.Alive(events)))) + events[|Relay.Alive(events)|].flush
       == Output(parse, render, h, id, inPieces, inFlush)
  }

  lemma SaidIsReported(u: Json, input: int, output: int)
    requires UsageSays(u, input, output) && input >= 0 && output >= 0
    ensures Reports(u, input, output)
  {
  }

  /**
   A streamed Anthropic answer leads to one row. Under usable rates it charges the input tokens the events
   last carried before the first message_stop at the input rate and the output tokens at the output rate,
   rounded up, out of the allowance first; an answer that carried no count is not charged when it completes.
   */
  lemma AnthropicAnswerIsCharged(parse: string -> Option<Json>, render: Json -> string, h: Anthropic.Head, id: seq<CodeUnit>,
                                 us: seq<Upstream>, crlf: bool, inPieces: seq<string>, inFlush: string,
                                 events: seq<Relay.Event>, base: Ledger.UsageEvent, price: Rate, promptBytes: nat,
                                 included: Number, allowanceSpent: Number)
    requires Codec(parse, render, SentBy(h, id, us)) && Streamed(parse, render, h, id, us, crlf, inPieces, inFlush, events)
    ensures var rows := Relay.Rows(Relay.After(parse, events).settlements, base, price, promptBytes, included, allowanceSpent);
      var input, output := LastCount(UntilStop(us), "input_tokens"), LastCount(UntilStop(us), "output_tokens");
      var i, o := if input.Some? then input.value else 0, if output.Some? then output.value else 0;
      var counted := (input.Some? || output.Some?) && i >= 0 && o >= 0;
      var rated := Known(price.input) && Known(price.output);
      && |rows| == 1 && SplitOnRead(rows[0].microUsd, included, allowanceSpent, rows[0])
      && (rated && counted ==> rows[0].basis.Measured? && Covers(rows[0].microUsd, i * price.input.n + o * price.output.n))
      && (input.None? && output.None? && !events[|Relay.Alive(events)|].HungUp? ==> !rows[0].metered && rows[0].microUsd == 0)
  {
    hide Codec, SentBy, UpstreamWire, Output, Ended, PushedAll, Scan, Reports, UsageSays, Covers, CoveredBy, SplitOnRead,
      Relay.After, Relay.Rows, LastCount, UntilStop;
    var pieces, flush := Relay.Decoded(Relay.Chunks(Relay.Alive(events))), events[|Relay.Alive(events)|].flush;
    Relay.OneStreamOneRow(parse, events, base, price, promptBytes, included, allowanceSpent);
    PipelineIsExact(parse, render, h, id, us, crlf, inPieces, inFlush, pieces, flush);
    ChunkingIsInvisible(parse, pieces, flush);
    var input, output := LastCount(UntilStop(us), "input_tokens"), LastCount(UntilStop(us), "output_tokens");
    var i, o := if input.Some? then input.value else 0, if output.Some? then output.value else 0;
    var seen := Scan(parse, Concat(pieces) + flush);
    if input.None? && output.None? {
      NothingReported();
    } else if i >= 0 && o >= 0 {
      SaidIsReported(seen.usage, i, o);
    }
  }
}
