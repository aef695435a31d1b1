/**
 Anthropic Messages events to OpenAI chat chunks (src/anthropic-sse-to-openai.ts:85-246): the frames
 written to the wire, the state record the payloads update in place, and the two byte-stream buffers.
 */
module Anthropic {
  import opened Wrappers
  import opened Text
  import opened Json
  import Scanner

  /** One frame of the output stream; `Failure` is only written by a deferred completion. */
  datatype Frame =
    | Open(id: seq<CodeUnit>)
    | Delta(id: seq<CodeUnit>, text: seq<CodeUnit>)
    | Finish(id: seq<CodeUnit>)
    | Usage(id: seq<CodeUnit>, input: int, output: int)
    | Failure(message: seq<CodeUnit>)
    | DoneMark
    | KeepAlive

  /** What stays fixed for a stream: the model name and the creation time. */
  datatype Head = Head(model: seq<CodeUnit>, created: int)

  function Chunk(h: Head, id: seq<CodeUnit>, choices: seq<Json>): map<string, Json> {
    map["id" := Str(id), "object" := Str(Ascii("chat.completion.chunk")), "created" := Int(h.created),
        "model" := Str(h.model), "choices" := Arr(choices)]
  }

  function Choice(delta: map<string, Json>, finish: Json): Json {
    Obj(map["index" := Int(0), "delta" := Obj(delta), "finish_reason" := finish])
  }

  function UsageObject(input: int, output: int): Json {
    Obj(map["prompt_tokens" := Int(input), "completion_tokens" := Int(output), "total_tokens" := Int(input + output)])
  }

  predicate IsMark(f: Frame) { f.DoneMark? || f.KeepAlive? }

  function Payload(h: Head, f: Frame): (j: Json)
    requires !IsMark(f)
    ensures j.Obj?
  {
    match f
    case Open(id) =>
      Obj(Chunk(h, id, [Choice(map["role" := Str(Ascii("assistant")), "content" := Str([])], Null)]))
    case Delta(id, text) => Obj(Chunk(h, id, [Choice(map["content" := Str(text)], Null)]))
    case Finish(id) => Obj(Chunk(h, id, [Choice(map[], Str(Ascii("stop")))]))
    case Usage(id, i, o) => Obj(Chunk(h, id, [])["usage" := UsageObject(i, o)])
    case Failure(m) =>
      Obj(map["error" := Obj(map["message" := Str(m), "type" := Str(Ascii("upstream_error"))])])
  }

  /** The one choice of a chunk: its delta, and why the answer finished. */
  predicate OneChoice(j: Json, role: Json, content: Json, finish: Json) {
    && Prop(j, "choices").Arr? && |Prop(j, "choices").items| == 1
    && var c := Prop(j, "choices").items[0];
       && Prop(c, "index") == Int(0) && Prop(c, "finish_reason") == finish
       && Prop(Prop(c, "delta"), "role") == role && Prop(Prop(c, "delta"), "content") == content
  }

  /** What every chunk says of its stream. */
  predicate ChunkOf(h: Head, id: seq<CodeUnit>, j: Json) {
    && Prop(j, "id") == Str(id) && Prop(j, "object") == Str(Ascii("chat.completion.chunk"))
    && Prop(j, "created") == Int(h.created) && Prop(j, "model") == Str(h.model)
  }

  /** A frame as a client reads it, property by property. */
  predicate FrameSays(h: Head, f: Frame, j: Json)
    requires !IsMark(f)
  {
    match f
    case Open(id) => ChunkOf(h, id, j) && OneChoice(j, Str(Ascii("assistant")), Str([]), Null) && Prop(j, "usage") == Null
    case Delta(id, text) => ChunkOf(h, id, j) && OneChoice(j, Null, Str(text), Null) && Prop(j, "usage") == Null
    case Finish(id) => ChunkOf(h, id, j) && OneChoice(j, Null, Null, Str(Ascii("stop"))) && Prop(j, "usage") == Null
    case Usage(id, input, output) =>
      && ChunkOf(h, id, j) && Prop(j, "choices") == Arr([])
      && var u := Prop(j, "usage");
         Prop(u, "prompt_tokens") == Int(input) && Prop(u, "completion_tokens") == Int(output)
         && Prop(u, "total_tokens") == Int(input + output)
    case Failure(message) =>
      && Prop(Prop(j, "error"), "message") == Str(message)
      && Prop(Prop(j, "error"), "type") == Str(Ascii("upstream_error")) && Prop(j, "usage") == Null
  }

  lemma FramesOnTheWire(h: Head, f: Frame)
    requires !IsMark(f)
    ensures FrameSays(h, f, Payload(h, f))
  {
    hide Ascii, Chunk, Choice, ChunkOf, OneChoice, Prop, UsageObject;
    match f
    case Open(id) =>
      RoleProps();
      ChunkIsOf(h, id, map["role" := Str(Ascii("assistant")), "content" := Str([])], Null);
    case Delta(id, text) =>
      ContentProps(text);
      ChunkIsOf(h, id, map["content" := Str(text)], Null);
    case Finish(id) =>
      NoProps();
      ChunkIsOf(h, id, map[], Str(Ascii("stop")));
    case Usage(id, input, output) => UsageIsOf(h, id, input, output);
    case Failure(message) => FailureSays(message);
  }

  lemma RoleProps()
    ensures var d := Obj(map["role" := Str(Ascii("assistant")), "content" := Str([])]);
      Prop(d, "role") == Str(Ascii("assistant")) && Prop(d, "content") == Str([])
  {
  }

  lemma ContentProps(text: seq<CodeUnit>)
    ensures Prop(Obj(map["content" := Str(text)]), "role") == Null && Prop(Obj(map["content" := Str(text)]), "content") == Str(text)
  {
  }

  lemma NoProps()
    ensures Prop(Obj(map[]), "role") == Null && Prop(Obj(map[]), "content") == Null
  {
  }

  lemma UsageIsOf(h: Head, id: seq<CodeUnit>, input: int, output: int)
    ensures FrameSays(h, Usage(id, input, output), Payload(h, Usage(id, input, output)))
  {
    hide Ascii;
  }

  lemma FailureSays(message: seq<CodeUnit>)
    ensures forall h: Head :: FrameSays(h, Failure(message), Payload(h, Failure(message)))
  {
    hide Ascii;
  }

  lemma ChunkIsOf(h: Head, id: seq<CodeUnit>, delta: map<string, Json>, finish: Json)
    ensures var j := Obj(Chunk(h, id, [Choice(delta, finish)]));
      && ChunkOf(h, id, j) && OneChoice(j, Prop(Obj(delta), "role"), Prop(Obj(delta), "content"), finish)
      && Prop(j, "usage") == Null
  {
    hide Ascii;
  }

  /** The line of a frame; a blank line follows it. */
  function Line(render: Json -> string, h: Head, f: Frame): string {
    match f
    case DoneMark => "data: [DONE]"
    case KeepAlive => ": prism-keepalive"
    case _ => "data: " + render(Payload(h, f))
  }

  function Wire(render: Json -> string, h: Head, f: Frame): string { Line(render, h, f) + "\n" + "\n" }

  function WireAll(render: Json -> string, h: Head, fs: seq<Frame>): string {
    if |fs| == 0 then "" else WireAll(render, h, fs[..|fs| - 1]) + Wire(render, h, fs[|fs| - 1])
  }

  lemma WireAllSnoc(render: Json -> string, h: Head, fs: seq<Frame>, f: Frame)
    ensures WireAll(render, h, fs + [f]) == WireAll(render, h, fs) + Wire(render, h, f)
  {
    assert (fs + [f])[..|fs|] == fs;
  }

  lemma {:induction false} WireAllConcat(render: Json -> string, h: Head, a: seq<Frame>, b: seq<Frame>)
    ensures WireAll(render, h, a + b) == WireAll(render, h, a) + WireAll(render, h, b)
    decreases |b|
  {
    hide Wire;
    if |b| == 0 {
      assert a + b == a;
    } else {
      var b', f := b[..|b| - 1], b[|b| - 1];
      WireAllConcat(render, h, a, b');
      assert a + b == (a + b') + [f];
      WireAllSnoc(render, h, a + b', f);
    }
  }

  // ---- one payload ----

  /** What an Anthropic payload says. `Warm` is every event answered only by a keepalive. */
  datatype Event =
    | Started(id: Option<seq<CodeUnit>>, input: Option<int>, output: Option<int>)
    | TextDelta(text: seq<CodeUnit>)
    | Counted(input: Option<int>, output: Option<int>)
    | Stopped
    | Warm
    | Unknown

  function Count(j: Json): Option<int> { if j.Int? then Some(j.n) else None }

  const MSG_PREFIX := Ascii("msg_")
  const CHAT_PREFIX := Ascii("chatcmpl-")

  function ChatId(id: seq<CodeUnit>): seq<CodeUnit> {
    CHAT_PREFIX + if MSG_PREFIX <= id then id[|MSG_PREFIX|..] else id
  }

  function Classify(d: Json): Event {
    var kind := Prop(d, "type");
    if IsText(kind, "message_start") then
      var msg := Prop(d, "message");
      var id, usage := Prop(msg, "id"), Prop(msg, "usage");
      Started(if id.Str? && |id.units| > 0 then Some(ChatId(id.units)) else None,
              Count(Prop(usage, "input_tokens")), Count(Prop(usage, "output_tokens")))
    else if IsText(kind, "content_block_delta") then
      var delta := Prop(d, "delta");
      var text := Prop(delta, "text");
      if IsText(Prop(delta, "type"), "text_delta") && text.Str? && |text.units| > 0
      then TextDelta(text.units) else Warm
    else if IsText(kind, "message_delta") then
      var usage := Prop(d, "usage");
      Counted(Count(Prop(usage, "input_tokens")), Count(Prop(usage, "output_tokens")))
    else if IsText(kind, "message_stop") then Stopped
    else if IsText(kind, "content_block_start") || IsText(kind, "content_block_stop") || IsText(kind, "ping") then Warm
    else Unknown
  }

  /** A message's own identifier, its provider prefix exchanged, names the chunks after it. */
  lemma StartNamesTheStream(d: Json, own: seq<CodeUnit>)
    requires Prop(d, "type") == Str(Ascii("message_start"))
    requires |own| > 0 && !(Ascii("msg_") <= own)
    ensures Prop(Prop(d, "message"), "id") == Str(Ascii("msg_") + own) ==>
      Classify(d).Started? && Classify(d).id == Some(Ascii("chatcmpl-") + own)
    ensures Prop(Prop(d, "message"), "id") == Str(own) ==>
      Classify(d).Started? && Classify(d).id == Some(Ascii("chatcmpl-") + own)
    ensures !Prop(Prop(d, "message"), "id").Str? ==> Classify(d).Started? && Classify(d).id == None
  {
    assert (Ascii("msg_") + own)[|Ascii("msg_")|..] == own;
  }

  // ---- the state record ----

  datatype State = State(id: seq<CodeUnit>, input: Option<int>, output: Option<int>, roleSent: bool, finished: bool)

  function Fresh(id: seq<CodeUnit>): State { State(id, None, None, false, false) }

  function Replace<T>(current: Option<T>, next: Option<T>): Option<T> { if next.Some? then next else current }

  function Counting(s: State, input: Option<int>, output: Option<int>): State {
    s.(input := Replace(s.input, input), output := Replace(s.output, output))
  }

  function Next(s: State, e: Event): State {
    match e
    case Started(id, i, o) => Counting(s, i, o).(id := id.GetOr(s.id), roleSent := true)
    case TextDelta(_) => s.(roleSent := true)
    case Counted(i, o) => Counting(s, i, o)
    case Stopped => if s.finished then s else s.(roleSent := true, finished := true)
    case _ => s
  }

  function Opening(s: State): seq<Frame> { if s.roleSent then [] else [Open(s.id)] }

  /** The finish chunk, the usage chunk when either side was ever counted, and the sentinel. */
  function Closing(s: State): seq<Frame> {
    [Finish(s.id)]
    + (if s.input.Some? || s.output.Some? then [Usage(s.id, s.input.GetOr(0), s.output.GetOr(0))] else [])
    + [DoneMark]
  }

  function Emit(s: State, e: Event): seq<Frame> {
    match e
    case Started(_, _, _) => Opening(Next(s, e).(roleSent := s.roleSent))
    case TextDelta(text) => Opening(s) + [Delta(s.id, text)]
    case Counted(_, _) => [KeepAlive]
    case Stopped => if s.finished then [] else Opening(s) + Closing(s)
    case Warm => [KeepAlive]
    case Unknown => []
  }

  function After(s: State, events: seq<Event>): State {
    if |events| == 0 then s else Next(After(s, events[..|events| - 1]), events[|events| - 1])
  }

  function Emitted(s: State, events: seq<Event>): seq<Frame> {
    if |events| == 0 then []
    else Emitted(s, events[..|events| - 1]) + Emit(After(s, events[..|events| - 1]), events[|events| - 1])
  }

  /** What end() adds when no message_stop came. */
  function EndFrames(s: State): seq<Frame> { if s.finished then [] else Opening(s) + Closing(s) }

  lemma RunsSnoc(s: State, events: seq<Event>, e: Event)
    ensures After(s, events + [e]) == Next(After(s, events), e)
    ensures Emitted(s, events + [e]) == Emitted(s, events) + Emit(After(s, events), e)
  {
    assert (events + [e])[..|events|] == events;
  }

  lemma {:induction false} RunsConcat(s: State, a: seq<Event>, b: seq<Event>)
    ensures After(s, a + b) == After(After(s, a), b)
    ensures Emitted(s, a + b) == Emitted(s, a) + Emitted(After(s, a), b)
    decreases |b|
  {
    hide Next, Emit;
    if |b| == 0 {
      assert a + b == a;
    } else {
      var b', e := b[..|b| - 1], b[|b| - 1];
      RunsConcat(s, a, b');
      assert a + b == (a + b') + [e];
      RunsSnoc(s, a + b', e);
    }
  }

  // ---- lines to events ----

  function StripReturn(line: string): string {
    if |line| > 0 && line[|line| - 1] == '\r' then line[..|line| - 1] else line
  }

  function LineEvents(parse: string -> Option<Json>, line: string): seq<Event> {
    var p := Scanner.Payload(StripReturn(line));
    if p.Some? && parse(p.value).Some? then [Classify(parse(p.value).value)] else []
  }

  function Events(parse: string -> Option<Json>, lines: seq<string>): seq<Event> {
    if |lines| == 0 then []
    else Events(parse, lines[..|lines| - 1]) + LineEvents(parse, lines[|lines| - 1])
  }

  lemma {:induction false} EventsConcat(parse: string -> Option<Json>, a: seq<string>, b: seq<string>)
    ensures Events(parse, a + b) == Events(parse, a) + Events(parse, b)
    decreases |b|
  {
    if |b| == 0 {
      assert a + b == a;
    } else {
      EventsConcat(parse, a, b[..|b| - 1]);
      assert (a + b)[..|a + b| - 1] == a + b[..|b| - 1];
    }
  }

  class AnthropicSseToOpenAI {
    const parse: string -> Option<Json>
    const render: Json -> string
    const head: Head
    var buffer: string
    var id: seq<CodeUnit>
    var inputTokens: Option<int>
    var outputTokens: Option<int>
    var roleSent: bool
    var finished: bool

    function Record(): State
      reads this
    {
      State(id, inputTokens, outputTokens, roleSent, finished)
    }

    constructor (parse: string -> Option<Json>, render: Json -> string, head: Head, id: seq<CodeUnit>)
      ensures this.parse == parse && this.render == render && this.head == head
      ensures buffer == "" && Record() == Fresh(id)
    {
      this.parse, this.render, this.head, this.id := parse, render, head, id;
      buffer, inputTokens, outputTokens, roleSent, finished := "", None, None, false, false;
    }

    method Push(text: string) returns (out: string)
      modifies this
      ensures buffer == Split(old(buffer) + text).open
      ensures var events := Events(parse, Split(old(buffer) + text).full);
        Record() == After(old(Record()), events) && out == WireAll(render, head, Emitted(old(Record()), events))
    {
      hide Wire, Next, Emit, LineEvents;
      buffer := buffer + text;
      var lines := Split(buffer).full;
      buffer := Split(buffer).open;
      out := "";
      for i := 0 to |lines|
        invariant buffer == Split(old(buffer) + text).open
        invariant Record() == After(old(Record()), Events(parse, lines[..i]))
        invariant out == WireAll(render, head, Emitted(old(Record()), Events(parse, lines[..i])))
      {
        ghost var before := Events(parse, lines[..i]);
        ghost var added := LineEvents(parse, lines[i]);
        var more := ConsumeLine(lines[i]);
        out := out + more;
        assert lines[..i + 1][..i] == lines[..i];
        assert Events(parse, lines[..i + 1]) == before + added;
        RunsConcat(old(Record()), before, added);
        WireAllConcat(render, head, Emitted(old(Record()), before), Emitted(After(old(Record()), before), added));
      }
      assert lines[..|lines|] == lines;
    }

    method End(flush: string) returns (out: string)
      modifies this
      ensures buffer == ""
      ensures var events := LineEvents(parse, old(buffer) + flush);
        var s := After(old(Record()), events);
        out == WireAll(render, head, Emitted(old(Record()), events) + EndFrames(s)) && finished
    {
      hide Wire, Next, Emit, Events;
      buffer := buffer + flush;
      ghost var events := LineEvents(parse, buffer);
      out := "";
      if |buffer| > 0 {
        out := ConsumeLine(buffer);
        buffer := "";
      } else {
        assert events == [];
      }
      WireAllConcat(render, head, Emitted(old(Record()), events), EndFrames(Record()));
      if !finished {
        var ending := Close();
        out := out + ending;
      }
    }

    method Close() returns (out: string)
      requires !finished
      modifies this`roleSent, this`finished
      ensures finished && roleSent && out == old(WireAll(render, head, EndFrames(Record())))
    {
      ghost var s := Record();
      var opening := OpenOnce();
      var closing := FinishAndUsage();
      WireAllConcat(render, head, Opening(s), Closing(s));
      out := opening + closing;
    }

    method ConsumeLine(rawLine: string) returns (out: string)
      modifies this
      ensures buffer == old(buffer)
      ensures Record() == After(old(Record()), LineEvents(parse, rawLine))
      ensures out == WireAll(render, head, Emitted(old(Record()), LineEvents(parse, rawLine)))
    {
      out := "";
      var line := StripReturn(rawLine);
      if !(Scanner.DATA <= line) { return; }
      var payload := Trim(line[|Scanner.DATA|..]);
      if payload == "" || payload in SENTINELS { return; }
      var parsed := parse(payload);
      if parsed.None? { return; }
      OneEvent(old(Record()), Classify(parsed.value));
      out := PayloadFrames(parsed.value);
    }

    method PayloadFrames(d: Json) returns (out: string)
      modifies this
      ensures buffer == old(buffer)
      ensures Record() == Next(old(Record()), Classify(d))
      ensures out == WireAll(render, head, Emit(old(Record()), Classify(d)))
    {
      hide Wire, WireAll, Payload, Chunk, ChatId;
      WireNothing(render, head);
      out := "";
      var kind := Prop(d, "type");
      ghost var s := Record();
      if IsText(kind, "message_start") {
        var msg := Prop(d, "message");
        var msgId := Prop(msg, "id");
        if msgId.Str? && |msgId.units| > 0 { id := ChatId(msgId.units); }
        TakeCounts(Prop(msg, "usage"));
        if !roleSent { out := OpenOnce(); }
      } else if IsText(kind, "content_block_delta") {
        var delta := Prop(d, "delta");
        var text := Prop(delta, "text");
        if IsText(Prop(delta, "type"), "text_delta") && text.Str? && |text.units| > 0 {
          if !roleSent { out := OpenOnce(); }
          out := out + Wire(render, head, Delta(id, text.units));
          OneFrame(render, head, Delta(s.id, text.units));
          WireAllConcat(render, head, Opening(s), [Delta(s.id, text.units)]);
        } else {
          out := Wire(render, head, KeepAlive);
          OneFrame(render, head, KeepAlive);
        }
      } else if IsText(kind, "message_delta") {
        TakeCounts(Prop(d, "usage"));
        out := Wire(render, head, KeepAlive);
        OneFrame(render, head, KeepAlive);
      } else if IsText(kind, "message_stop") {
        if !finished {
          out := Close();
        }
      } else if IsText(kind, "content_block_start") || IsText(kind, "content_block_stop") || IsText(kind, "ping") {
        out := Wire(render, head, KeepAlive);
        OneFrame(render, head, KeepAlive);
      }
    }

    method TakeCounts(usage: Json)
      modifies this`inputTokens, this`outputTokens
      ensures Record()
           == Counting(old(Record()), Count(Prop(usage, "input_tokens")), Count(Prop(usage, "output_tokens")))
    {
      var i, o := Prop(usage, "input_tokens"), Prop(usage, "output_tokens");
      if i.Int? { inputTokens := Some(i.n); }
      if o.Int? { outputTokens := Some(o.n); }
    }

    method OpenOnce() returns (out: string)
      modifies this`roleSent
      ensures roleSent && out == old(WireAll(render, head, Opening(Record())))
    {
      out := "";
      if !roleSent {
        OneFrame(render, head, Open(id));
        roleSent := true;
        out := Wire(render, head, Open(id));
      }
    }

    method FinishAndUsage() returns (out: string)
      modifies this`finished
      ensures finished && out == old(WireAll(render, head, Closing(Record())))
    {
      hide Wire, Payload, Chunk;
      ghost var s := Record();
      finished := true;
      var finish := Wire(render, head, Finish(id));
      var usageFrame := "";
      ghost var usage: seq<Frame> := [];
      if inputTokens.Some? || outputTokens.Some? {
        usage := [Usage(id, inputTokens.GetOr(0), outputTokens.GetOr(0))];
        usageFrame := Wire(render, head, Usage(id, inputTokens.GetOr(0), outputTokens.GetOr(0)));
        OneFrame(render, head, usage[0]);
      }
      out := finish + usageFrame + Wire(render, head, DoneMark);
      OneFrame(render, head, Finish(id));
      OneFrame(render, head, DoneMark);
      WireAllConcat(render, head, [Finish(id)], usage);
      WireAllConcat(render, head, [Finish(id)] + usage, [DoneMark]);
      assert Closing(s) == [Finish(id)] + usage + [DoneMark];
    }
  }

  lemma WireNothing(render: Json -> string, h: Head)
    ensures WireAll(render, h, []) == ""
  {
  }

  lemma OneFrame(render: Json -> string, h: Head, f: Frame)
    ensures WireAll(render, h, [f]) == Wire(render, h, f)
  {
    assert [f][..0] == [];
  }

  lemma OneEvent(s: State, e: Event)
    ensures After(s, [e]) == Next(s, e) && Emitted(s, [e]) == Emit(s, e)
  {
    assert [e][..0] == [];
  }
}
