/**
 The passive reader of a relayed stream (src/stream.ts:31-152). Chunks arrive already decoded: the
 streaming text decoder hands over pieces whose concatenation is the decoded stream.
 */
module Scanner {
  import opened Wrappers
  import opened Text
  import opened Json
  import opened Sums

  /** What the scanner has learnt: the last usage object, whether any frame came, text bytes. */
  datatype Seen = Seen(usage: Json, frames: bool, bytes: nat)

  const NOTHING := Seen(Null, false, 0)

  const DATA := "data:"

  /** The payload of a `data:` line; None for any other line, an empty payload and the sentinels. */
  function Payload(line: string): Option<string> {
    if DATA <= line then
      var p := Trim(line[|DATA|..]);
      if p == "" || p in SENTINELS then None else Some(p)
    else None
  }

  /** Chat-completions text: choices[].delta.content. */
  function ChoiceBytes(choice: Json): nat {
    var content := Prop(Prop(choice, "delta"), "content");
    if content.Str? then Utf8Length(content.units) else 0
  }

  function ChoicesBytes(choices: seq<Json>): nat {
    if |choices| == 0 then 0
    else ChoicesBytes(choices[..|choices| - 1]) + ChoiceBytes(choices[|choices| - 1])
  }

  /** Responses-API text: the delta of a response.output_text.delta event. */
  function DeltaBytes(frame: Json): nat {
    var delta := Prop(frame, "delta");
    if IsText(Prop(frame, "type"), "response.output_text.delta") && delta.Str? then Utf8Length(delta.units) else 0
  }

  function FrameBytes(frame: Json): nat {
    var choices := Prop(frame, "choices");
    (if choices.Arr? then ChoicesBytes(choices.items) else 0) + DeltaBytes(frame)
  }

  function FrameUsage(frame: Json): Json {
    Coalesce(Prop(frame, "usage"), Prop(Prop(frame, "response"), "usage"))
  }

  function ReadFrame(seen: Seen, parsed: Option<Json>): Seen {
    if parsed.Some? && IsObject(parsed.value) then
      Seen(Coalesce(FrameUsage(parsed.value), seen.usage), true, seen.bytes + FrameBytes(parsed.value))
    else seen.(frames := true)
  }

  function ReadLine(parse: string -> Option<Json>, seen: Seen, line: string): Seen {
    var p := Payload(Trim(line));
    if p.Some? then ReadFrame(seen, parse(p.value)) else seen
  }

  function ReadLines(parse: string -> Option<Json>, seen: Seen, lines: seq<string>): Seen {
    if |lines| == 0 then seen
    else ReadLine(parse, ReadLines(parse, seen, lines[..|lines| - 1]), lines[|lines| - 1])
  }

  /** A whole stream read at once: every line, the unfinished last one included. */
  function Scan(parse: string -> Option<Json>, text: string): Seen {
    ReadLine(parse, ReadLines(parse, NOTHING, Split(text).full), Split(text).open)
  }

  /** The scanner between two chunks. */
  datatype Reader = Reader(buffer: string, seen: Seen)

  const START := Reader("", NOTHING)

  function Pushed(parse: string -> Option<Json>, r: Reader, text: string): Reader {
    var l := Split(r.buffer + text);
    Reader(l.open, ReadLines(parse, r.seen, l.full))
  }

  function PushedAll(parse: string -> Option<Json>, r: Reader, pieces: seq<string>): Reader {
    if |pieces| == 0 then r
    else Pushed(parse, PushedAll(parse, r, pieces[..|pieces| - 1]), pieces[|pieces| - 1])
  }

  function Ended(parse: string -> Option<Json>, r: Reader, flush: string): Seen {
    ReadLine(parse, r.seen, r.buffer + flush)
  }

  class SseUsageScanner {
    const parse: string -> Option<Json>
    var buffer: string
    var lastUsage: Json
    var sawAnyFrame: bool
    var outputBytes: nat

    function Learnt(): Seen
      reads this
    {
      Seen(lastUsage, sawAnyFrame, outputBytes)
    }

    function State(): Reader
      reads this
    {
      Reader(buffer, Learnt())
    }

    constructor (parse: string -> Option<Json>)
      ensures this.parse == parse && State() == START
    {
      this.parse := parse;
      buffer, lastUsage, sawAnyFrame, outputBytes := "", Null, false, 0;
    }

    method Push(text: string)
      modifies this
      ensures State() == Pushed(parse, old(State()), text)
    {
      buffer := buffer + text;
      var lines := Split(buffer).full;
      buffer := Split(buffer).open;
      for i := 0 to |lines|
        invariant buffer == Split(old(buffer) + text).open
        invariant Learnt() == ReadLines(parse, old(Learnt()), lines[..i])
      {
        ConsumeLine(lines[i]);
        assert lines[..i + 1][..i] == lines[..i];
      }
      assert lines[..|lines|] == lines;
    }

    /** `flush` is what the decoder still held. */
    method End(flush: string)
      modifies this
      ensures buffer == "" && Learnt() == old(ReadLine(parse, Learnt(), buffer + flush))
    {
      buffer := buffer + flush;
      if |buffer| > 0 {
        ConsumeLine(buffer);
        buffer := "";
      } else {
        EmptyLineIsIgnored(parse, Learnt());
      }
    }

    method ConsumeLine(rawLine: string)
      modifies this
      ensures buffer == old(buffer) && Learnt() == ReadLine(parse, old(Learnt()), rawLine)
    {
      var line := Trim(rawLine);
      if !(DATA <= line) { return; }
      var payload := Trim(line[|DATA|..]);
      if payload == "" || payload in SENTINELS { return; }
      sawAnyFrame := true;
      var parsed := parse(payload);
      if parsed.None? || !IsObject(parsed.value) { return; }
      var usage := FrameUsage(parsed.value);
      if usage != Null { lastUsage := usage; }
      CountOutputText(parsed.value);
    }

    method CountOutputText(frame: Json)
      modifies this`outputBytes
      ensures outputBytes == old(outputBytes) + FrameBytes(frame)
    {
      var choices := Prop(frame, "choices");
      if choices.Arr? {
        for i := 0 to |choices.items|
          invariant outputBytes == old(outputBytes) + ChoicesBytes(choices.items[..i])
        {
          assert choices.items[..i + 1][..i] == choices.items[..i];
          var delta := Prop(choices.items[i], "delta");
          if !IsObject(delta) { continue; }
          var content := Prop(delta, "content");
          if content.Str? { outputBytes := outputBytes + Utf8Length(content.units); }
        }
        assert choices.items[..|choices.items|] == choices.items;
      }
      var delta := Prop(frame, "delta");
      if IsText(Prop(frame, "type"), "response.output_text.delta") && delta.Str? {
        outputBytes := outputBytes + Utf8Length(delta.units);
      }
    }
  }

  lemma EmptyLineIsIgnored(parse: string -> Option<Json>, seen: Seen)
    ensures ReadLine(parse, seen, "") == seen
  {
    assert Trim("") == "";
    assert !(DATA <= "");
  }

  lemma {:induction false} ReadLinesConcat(parse: string -> Option<Json>, seen: Seen, a: seq<string>, b: seq<string>)
    ensures ReadLines(parse, seen, a + b) == ReadLines(parse, ReadLines(parse, seen, a), b)
    decreases |b|
  {
    if |b| == 0 {
      assert a + b == a;
    } else {
      ReadLinesConcat(parse, seen, a, b[..|b| - 1]);
      assert (a + b)[..|a + b| - 1] == a + b[..|b| - 1];
    }
  }

  /** Only the text counts, never where the chunks were cut: the reader is where one read leaves it. */
  lemma {:induction false} PushesReadTheText(parse: string -> Option<Json>, pieces: seq<string>)
    ensures PushedAll(parse, START, pieces)
         == Reader(Split(Concat(pieces)).open, ReadLines(parse, NOTHING, Split(Concat(pieces)).full))
  {
    if |pieces| > 0 {
      var before, p := pieces[..|pieces| - 1], pieces[|pieces| - 1];
      PushesReadTheText(parse, before);
      SplitResumes(Concat(before), p);
      var open := Split(Concat(before)).open;
      ReadLinesConcat(parse, NOTHING, Split(Concat(before)).full, Split(open + p).full);
    }
  }

  /** However the stream is chunked, the result is one scan. A decoder flushes at most a replacement character. */
  lemma ChunkingIsInvisible(parse: string -> Option<Json>, pieces: seq<string>, flush: string)
    requires OneLine(flush)
    ensures Ended(parse, PushedAll(parse, START, pieces), flush) == Scan(parse, Concat(pieces) + flush)
  {
    PushesReadTheText(parse, pieces);
    SplitResumes(Concat(pieces), flush);
    var open := Split(Concat(pieces)).open;
    SplitsAreLines(Concat(pieces));
    SplitOneLine(open + flush);
    assert Split(Concat(pieces) + flush).full == Split(Concat(pieces)).full;
  }

  // ---- any stream at all, read off its lines ----

  /** What a `data:` line carries: its payload without the white space around it; nothing for the two sentinels. */
  function Carried(line: string): Option<string> {
    var l := Trim(line);
    if |l| >= 5 && l[..5] == "data:" then
      var p := Trim(l[5..]);
      if p == "" || p == "[DONE]" || p == "[done]" then None else Some(p)
    else None
  }

  /** The JSON object on a line. */
  function ObjectOn(parse: string -> Option<Json>, line: string): Option<Json> {
    if Carried(line).None? then None
    else
      var j := parse(Carried(line).value);
      if j.Some? && (j.value.Obj? || j.value.Arr?) then j else None
  }

  /** Its usage: at the top level for chat completions, inside the response for the Responses API. */
  function UsageOn(parse: string -> Option<Json>, line: string): Option<Json> {
    var j := ObjectOn(parse, line);
    if j.None? then None
    else if Prop(j.value, "usage") != Null then Some(Prop(j.value, "usage"))
    else if Prop(Prop(j.value, "response"), "usage") != Null then Some(Prop(Prop(j.value, "response"), "usage"))
    else None
  }

  /** The UTF-8 size of a text, and of anything else nothing. */
  function SizeOf(text: Json): int { if text.Str? then Utf8Length(text.units) else 0 }

  function ContentSize(choice: Json): int { SizeOf(Prop(Prop(choice, "delta"), "content")) }

  /** The assistant text on a line, in either wire shape. */
  function TextOn(parse: string -> Option<Json>): string -> int {
    (line: string) =>
      var j := ObjectOn(parse, line);
      if j.None? then 0
      else
        (if Prop(j.value, "choices").Arr? then Sum(Prop(j.value, "choices").items, ContentSize) else 0)
        + (if Prop(j.value, "type") == Str(Ascii("response.output_text.delta")) then SizeOf(Prop(j.value, "delta")) else 0)
  }

  /** The last usage object on any line; Null when there is none. */
  function LastUsageOn(parse: string -> Option<Json>, lines: seq<string>): Json {
    if |lines| == 0 then Null
    else if UsageOn(parse, lines[|lines| - 1]).Some? then UsageOn(parse, lines[|lines| - 1]).value
    else LastUsageOn(parse, lines[..|lines| - 1])
  }

  predicate AnyCarried(lines: seq<string>) { exists l :: l in lines && Carried(l).Some? }

  /** What is to be learnt from lines. */
  predicate Learns(parse: string -> Option<Json>, lines: seq<string>, seen: Seen) {
    && seen.usage == LastUsageOn(parse, lines) && seen.frames == AnyCarried(lines)
    && seen.bytes == Sum(lines, TextOn(parse))
  }

  function LinesOf(text: string): seq<string> { Split(text).full + [Split(text).open] }

  lemma {:induction false} ChoicesAreSized(choices: seq<Json>)
    ensures ChoicesBytes(choices) == Sum(choices, ContentSize)
  {
    if |choices| > 0 { ChoicesAreSized(choices[..|choices| - 1]); }
  }

  lemma OneLineTeaches(parse: string -> Option<Json>, seen: Seen, line: string)
    ensures var now := ReadLine(parse, seen, line);
      && now.usage == (if UsageOn(parse, line).Some? then UsageOn(parse, line).value else seen.usage)
      && now.frames == (seen.frames || Carried(line).Some?)
      && now.bytes == seen.bytes + TextOn(parse)(line)
  {
    assert Payload(Trim(line)) == Carried(line);
    var j := ObjectOn(parse, line);
    if j.Some? && Prop(j.value, "choices").Arr? { ChoicesAreSized(Prop(j.value, "choices").items); }
  }

  lemma {:induction false} LinesTeach(parse: string -> Option<Json>, lines: seq<string>)
    ensures Learns(parse, lines, ReadLines(parse, NOTHING, lines))
  {
    if |lines| > 0 {
      hide ReadLine, UsageOn, Carried, TextOn;
      var before, l := lines[..|lines| - 1], lines[|lines| - 1];
      LinesTeach(parse, before);
      OneLineTeaches(parse, ReadLines(parse, NOTHING, before), l);
      assert lines == before + [l];
      assert AnyCarried(lines) <==> AnyCarried(before) || Carried(l).Some?;
    }
  }

  /**
   Whatever a source sends, however it is chunked: the scanner ends with the last usage object on any
   line in either shape, and the size of all assistant text in either shape.
   */
  lemma AnyStreamIsRead(parse: string -> Option<Json>, pieces: seq<string>, flush: string)
    requires OneLine(flush)
    ensures var lines := LinesOf(Concat(pieces) + flush);
      Learns(parse, lines, Ended(parse, PushedAll(parse, START, pieces), flush))
  {
    hide ReadLine, UsageOn, Carried, TextOn, Split;
    var l := Split(Concat(pieces) + flush);
    ChunkingIsInvisible(parse, pieces, flush);
    LinesTeach(parse, l.full + [l.open]);
    assert (l.full + [l.open])[..|l.full|] == l.full;
  }
}
