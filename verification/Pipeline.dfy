/**
 The stream pipeline end to end (src/anthropic-sse-to-openai.ts:85-246, src/stream.ts:40-146): events, the
 transformer, the wire, the scanner, for every event sequence and every chunking on both sides.
 */
module Pipeline {
  import opened Wrappers
  import opened Text
  import opened Json
  import opened Scanner
  import opened Anthropic

  // ---- what a client observes of the frames ----

  datatype Said = Said(id: seq<CodeUnit>, text: seq<CodeUnit>)

  /** `early` is the text before the sentinel; `misplaced` is any frame outside its place. */
  datatype Notes = Notes(
    opens: nat, finishes: nat, marks: nat, usages: seq<(int, int)>,
    texts: seq<Said>, early: seq<Said>, misplaced: bool)

  const SILENT := Notes(0, 0, 0, [], [], [], false)

  function Observe(n: Notes, f: Frame): Notes {
    match f
    case Open(_) => n.(opens := n.opens + 1, misplaced := n.misplaced || n.marks > 0)
    case Delta(id, t) =>
      n.(texts := n.texts + [Said(id, t)],
         early := if n.marks == 0 then n.early + [Said(id, t)] else n.early,
         misplaced := n.misplaced || n.opens == 0)
    case Finish(_) => n.(finishes := n.finishes + 1, misplaced := n.misplaced || n.opens == 0 || n.marks > 0)
    case Usage(_, i, o) =>
      n.(usages := n.usages + [(i, o)], misplaced := n.misplaced || n.finishes == 0 || n.marks > 0)
    case DoneMark => n.(marks := n.marks + 1, misplaced := n.misplaced || n.finishes == 0)
    case _ => n
  }

  function Observed(n: Notes, fs: seq<Frame>): Notes {
    if |fs| == 0 then n else Observe(Observed(n, fs[..|fs| - 1]), fs[|fs| - 1])
  }

  lemma {:induction false} ObservedConcat(n: Notes, a: seq<Frame>, b: seq<Frame>)
    ensures Observed(n, a + b) == Observed(Observed(n, a), b)
    decreases |b|
  {
    if |b| == 0 {
      assert a + b == a;
    } else {
      hide Observe;
      ObservedConcat(n, a, b[..|b| - 1]);
      assert (a + b)[..|a + b| - 1] == a + b[..|b| - 1];
    }
  }

  // ---- what the events alone promise ----

  predicate Begins(e: Event) { e.Started? || e.TextDelta? || e.Stopped? }

  predicate Begun(events: seq<Event>) { exists i :: 0 <= i < |events| && Begins(events[i]) }

  /** The events up to, and without, the first message_stop. */
  function BeforeStop(events: seq<Event>): seq<Event> {
    if |events| == 0 then []
    else if Stopped in events[..|events| - 1] then BeforeStop(events[..|events| - 1])
    else if events[|events| - 1].Stopped? then events[..|events| - 1]
    else events
  }

  function LatestInput(events: seq<Event>): Option<int> {
    if |events| == 0 then None
    else
      var e := events[|events| - 1];
      if (e.Started? || e.Counted?) && e.input.Some? then e.input else LatestInput(events[..|events| - 1])
  }

  function LatestOutput(events: seq<Event>): Option<int> {
    if |events| == 0 then None
    else
      var e := events[|events| - 1];
      if (e.Started? || e.Counted?) && e.output.Some? then e.output else LatestOutput(events[..|events| - 1])
  }

  function LatestId(id: seq<CodeUnit>, events: seq<Event>): seq<CodeUnit> {
    if |events| == 0 then id
    else
      var e := events[|events| - 1];
      if e.Started? && e.id.Some? then e.id.value else LatestId(id, events[..|events| - 1])
  }

  /** Every text delta in order, under the message id current when it came. */
  function Texts(id: seq<CodeUnit>, events: seq<Event>): seq<Said> {
    if |events| == 0 then []
    else
      var before, e := events[..|events| - 1], events[|events| - 1];
      if e.TextDelta? then Texts(id, before) + [Said(LatestId(id, before), e.text)] else Texts(id, before)
  }

  /** Counts seen on either side, the side never seen read as zero. */
  function Reported(events: seq<Event>): seq<(int, int)> {
    if LatestInput(events).Some? || LatestOutput(events).Some?
    then [(LatestInput(events).GetOr(0), LatestOutput(events).GetOr(0))] else []
  }

  function Promised(id: seq<CodeUnit>, events: seq<Event>): Notes {
    var stopped := Stopped in events;
    var once := if stopped then 1 else 0;
    Notes(if Begun(events) then 1 else 0, once, once, if stopped then Reported(BeforeStop(events)) else [],
          Texts(id, events), Texts(id, BeforeStop(events)), false)
  }

  // ---- the transformer keeps that promise ----

  lemma BeforeStopSnoc(events: seq<Event>, e: Event)
    ensures BeforeStop(events + [e]) == if Stopped in events || e.Stopped? then BeforeStop(events) else events + [e]
    ensures Stopped !in events ==> BeforeStop(events) == events
  {
    assert (events + [e])[..|events|] == events;
    if Stopped !in events { BeforeStopWhole(events); }
  }

  lemma {:induction false} BeforeStopWhole(events: seq<Event>)
    requires Stopped !in events
    ensures BeforeStop(events) == events
  {
  }

  lemma {:induction false} StateTracks(id: seq<CodeUnit>, events: seq<Event>)
    ensures var s := After(Fresh(id), events);
      s == State(LatestId(id, events), LatestInput(events), LatestOutput(events), Begun(events), Stopped in events)
  {
    if |events| > 0 {
      var before, e := events[..|events| - 1], events[|events| - 1];
      StateTracks(id, before);
      assert events == before + [e];
      assert Begun(events) <==> Begun(before) || Begins(e) by {
        if Begun(before) {
          var i :| 0 <= i < |before| && Begins(before[i]);
          assert events[i] == before[i];
        }
        if Begins(e) { assert Begins(events[|before|]); }
      }
    }
  }

  function UsageFrames(s: State): seq<Frame> {
    if s.input.Some? || s.output.Some? then [Usage(s.id, s.input.GetOr(0), s.output.GetOr(0))] else []
  }

  lemma ObservedMarks(n: Notes, s: State)
    ensures Observed(n, Closing(s))
         == Observe(if UsageFrames(s) == [] then Observe(n, Finish(s.id))
                    else Observe(Observe(n, Finish(s.id)), UsageFrames(s)[0]), DoneMark)
  {
    hide Observed, Observe;
    var usage := UsageFrames(s);
    var m := Observe(n, Finish(s.id));
    ObservedOne(n, Finish(s.id));
    ObservedConcat(n, [Finish(s.id)], usage);
    ObservedConcat(n, [Finish(s.id)] + usage, [DoneMark]);
    if usage == [] { ObservedNone(m); } else { ObservedOne(m, usage[0]); }
    ObservedOne(Observed(m, usage), DoneMark);
    assert Closing(s) == [Finish(s.id)] + usage + [DoneMark];
  }

  /** Observing the closing frames, from an unfinished state. */
  lemma ObservedClosing(n: Notes, s: State)
    requires n.marks == 0
    ensures Observed(n, Opening(s) + Closing(s))
         == Notes(if s.roleSent then n.opens else n.opens + 1, n.finishes + 1, 1,
                  n.usages + if s.input.Some? || s.output.Some? then [(s.input.GetOr(0), s.output.GetOr(0))] else [],
                  n.texts, n.early, n.misplaced || (s.roleSent && n.opens == 0))
  {
    hide Observed;
    ObservedConcat(n, Opening(s), Closing(s));
    ObservedOne(n, Open(s.id));
    ObservedNone(n);
    ObservedMarks(Observed(n, Opening(s)), s);
  }

  lemma ObservedOne(n: Notes, f: Frame)
    ensures Observed(n, [f]) == Observe(n, f)
  {
    assert [f][..0] == [];
  }

  lemma ObservedText(n: Notes, s: State, text: seq<CodeUnit>)
    ensures Observed(n, Opening(s) + [Delta(s.id, text)])
         == Observe(if s.roleSent then n else Observe(n, Open(s.id)), Delta(s.id, text))
  {
    ObservedConcat(n, Opening(s), [Delta(s.id, text)]);
    ObservedOne(n, Open(s.id));
    ObservedOne(Observed(n, Opening(s)), Delta(s.id, text));
  }

  lemma {:induction false} EmittedAsPromised(id: seq<CodeUnit>, events: seq<Event>)
    ensures Observed(SILENT, Emitted(Fresh(id), events)) == Promised(id, events)
  {
    if |events| > 0 {
      hide Emit, Next, Promised;
      var before, e := events[..|events| - 1], events[|events| - 1];
      var s := After(Fresh(id), before);
      EmittedAsPromised(id, before);
      ObservedConcat(SILENT, Emitted(Fresh(id), before), Emit(s, e));
      assert events == before + [e];
      OneEventAsPromised(id, before, e);
    }
  }

  /** The promise grows with one event. */
  function Grown(n: Notes, s: State, e: Event): Notes {
    match e
    case Started(_, _, _) => n.(opens := 1)
    case TextDelta(t) =>
      n.(opens := 1, texts := n.texts + [Said(s.id, t)],
         early := if s.finished then n.early else n.early + [Said(s.id, t)])
    case Stopped =>
      if s.finished then n
      else Notes(1, 1, 1, if s.input.Some? || s.output.Some? then [(s.input.GetOr(0), s.output.GetOr(0))] else [],
                 n.texts, n.early, n.misplaced)
    case _ => n
  }

  lemma PromiseGrows(id: seq<CodeUnit>, before: seq<Event>, e: Event)
    ensures Promised(id, before + [e]) == Grown(Promised(id, before), After(Fresh(id), before), e)
  {
    StateTracks(id, before);
    StateTracks(id, before + [e]);
    BeforeStopSnoc(before, e);
    assert (before + [e])[..|before|] == before;
    assert After(Fresh(id), before + [e]) == Next(After(Fresh(id), before), e);
    if Stopped in before { StoppedHasBegun(before); }
  }

  lemma EmitGrows(n: Notes, s: State, e: Event)
    requires n.opens == (if s.roleSent then 1 else 0) && n.marks == (if s.finished then 1 else 0)
    requires n.finishes == n.marks && (!s.finished ==> n.usages == []) && (s.finished ==> s.roleSent)
    ensures Observed(n, Emit(s, e)) == Grown(n, s, e)
  {
    hide Observed;
    match e
    case Started(_, _, _) => ObservedOne(n, Open(Next(s, e).id)); ObservedNone(n);
    case TextDelta(text) => ObservedText(n, s, text);
    case Counted(_, _) => ObservedOne(n, KeepAlive);
    case Stopped => if s.finished { ObservedNone(n); } else { ObservedClosing(n, s); }
    case Warm => ObservedOne(n, KeepAlive);
    case Unknown => ObservedNone(n);
  }

  lemma OneEventAsPromised(id: seq<CodeUnit>, before: seq<Event>, e: Event)
    ensures Observed(Promised(id, before), Emit(After(Fresh(id), before), e)) == Promised(id, before + [e])
  {
    hide Emit, Next, Grown, Observed, After;
    StateTracks(id, before);
    if Stopped in before { StoppedHasBegun(before); }
    PromiseGrows(id, before, e);
    EmitGrows(Promised(id, before), After(Fresh(id), before), e);
  }

  lemma ObservedNone(n: Notes)
    ensures Observed(n, []) == n
  {
  }

  /** The whole stream, closed by end() when no message_stop came. */
  function AllFrames(id: seq<CodeUnit>, events: seq<Event>): seq<Frame> {
    Emitted(Fresh(id), events) + EndFrames(After(Fresh(id), events))
  }

  /**
   For every event sequence: one role-open frame, before all text; one finish frame and one sentinel;
   every text delta in order, those after message_stop behind the sentinel; usage as last counted
   before the stop.
   */
  lemma StreamIsWellFormed(id: seq<CodeUnit>, events: seq<Event>)
    ensures Observed(SILENT, AllFrames(id, events))
         == Notes(1, 1, 1, Reported(BeforeStop(events)), Texts(id, events), Texts(id, BeforeStop(events)), false)
  {
    var s := After(Fresh(id), events);
    EmittedAsPromised(id, events);
    StateTracks(id, events);
    ObservedConcat(SILENT, Emitted(Fresh(id), events), EndFrames(s));
    BeforeStopSnoc(events, Warm);
    if !s.finished { ObservedClosing(Promised(id, events), s); } else { StoppedHasBegun(events); }
  }

  predicate SpeaksAgain(e: Event) { e.TextDelta? || e.Counted? || e.Warm? }

  /** Nothing but a repeated start or stop, or an unknown event, comes after the first stop. */
  predicate QuietAfterStop(events: seq<Event>) {
    forall i :: |BeforeStop(events)| <= i < |events| ==> !SpeaksAgain(events[i])
  }

  predicate NoTextAfterStop(events: seq<Event>) {
    forall i :: |BeforeStop(events)| <= i < |events| ==> !events[i].TextDelta?
  }

  lemma {:induction false} BeforeStopIsPrefix(events: seq<Event>)
    ensures |BeforeStop(events)| <= |events| && BeforeStop(events) == events[..|BeforeStop(events)|]
    ensures |BeforeStop(events)| < |events| <==> Stopped in events
    ensures Stopped in events ==> events[|BeforeStop(events)|].Stopped?
  {
    if |events| > 0 {
      var before := events[..|events| - 1];
      BeforeStopIsPrefix(before);
      assert events == before + [events[|before|]];
    }
  }

  lemma {:induction false} TextsGrow(id: seq<CodeUnit>, events: seq<Event>, k: nat)
    requires k <= |events|
    ensures |Texts(id, events)| >= |Texts(id, events[..k])|
    ensures Texts(id, events) == Texts(id, events[..k]) <==> forall i :: k <= i < |events| ==> !events[i].TextDelta?
    decreases |events|
  {
    if k == |events| {
      assert events[..k] == events;
    } else {
      var before := events[..|events| - 1];
      TextsGrow(id, before, k);
      assert before[..k] == events[..k];
      if Texts(id, before) != Texts(id, events[..k]) {
        var i :| k <= i < |before| && before[i].TextDelta?;
        assert events[i].TextDelta?;
        TextsGrewBy(id, before, k);
      }
    }
  }

  lemma {:induction false} TextsGrewBy(id: seq<CodeUnit>, events: seq<Event>, k: nat)
    requires k <= |events| && exists i :: k <= i < |events| && events[i].TextDelta?
    ensures |Texts(id, events)| > |Texts(id, events[..k])|
    decreases |events|
  {
    var before := events[..|events| - 1];
    assert before[..k] == events[..k];
    if exists i :: k <= i < |before| && before[i].TextDelta? {
      TextsGrewBy(id, before, k);
    } else {
      TextsGrow(id, before, k);
    }
  }

  /** All text comes before the sentinel exactly when no text delta follows the first stop. */
  lemma TextPrecedesDoneExactlyWhen(id: seq<CodeUnit>, events: seq<Event>)
    ensures var n := Observed(SILENT, AllFrames(id, events)); n.early == n.texts <==> NoTextAfterStop(events)
  {
    hide Observed, AllFrames, Texts;
    StreamIsWellFormed(id, events);
    BeforeStopIsPrefix(events);
    TextsGrow(id, events, |BeforeStop(events)|);
  }

  lemma QuietSnoc(before: seq<Event>, e: Event)
    requires Stopped in before
    ensures QuietAfterStop(before + [e]) <==> QuietAfterStop(before) && !SpeaksAgain(e)
  {
    hide SpeaksAgain;
    var events := before + [e];
    BeforeStopSnoc(before, e);
    BeforeStopIsPrefix(before);
    if QuietAfterStop(events) {
      forall i | |BeforeStop(before)| <= i < |before| ensures !SpeaksAgain(before[i]) { assert before[i] == events[i]; }
      assert !SpeaksAgain(events[|before|]);
    }
  }

  lemma FinishedEmits(s: State, e: Event)
    requires s.finished && s.roleSent
    ensures Emit(s, e) == [] <==> !SpeaksAgain(e)
    ensures Emit(s, e) != [] ==> Emit(s, e)[|Emit(s, e)| - 1] != DoneMark
  {
  }

  lemma UnfinishedEmitsDone(s: State)
    requires !s.finished
    ensures var fs := Emit(s, Stopped); |fs| > 0 && fs[|fs| - 1] == DoneMark
  {
  }

  lemma {:induction false} EndsWithDone(id: seq<CodeUnit>, events: seq<Event>)
    requires Stopped in events
    ensures var fs := Emitted(Fresh(id), events); |fs| > 0 && (fs[|fs| - 1] == DoneMark <==> QuietAfterStop(events))
  {
    hide Emit, Next, SpeaksAgain, QuietAfterStop;
    var before, e := events[..|events| - 1], events[|events| - 1];
    var s := After(Fresh(id), before);
    StateTracks(id, before);
    assert events == before + [e];
    if Stopped in before {
      EndsWithDone(id, before);
      StoppedHasBegun(before);
      QuietSnoc(before, e);
      FinishedEmits(s, e);
    } else {
      UnfinishedEmitsDone(s);
      JustStopped(before);
    }
  }

  lemma JustStopped(before: seq<Event>)
    requires Stopped !in before
    ensures QuietAfterStop(before + [Stopped])
  {
    BeforeStopSnoc(before, Stopped);
  }

  /** The sentinel is the last frame exactly when nothing that speaks follows the first stop. */
  lemma DoneIsLastExactlyWhen(id: seq<CodeUnit>, events: seq<Event>)
    ensures var fs := AllFrames(id, events); |fs| > 0 && (fs[|fs| - 1] == DoneMark <==> QuietAfterStop(events))
  {
    var s := After(Fresh(id), events);
    StateTracks(id, events);
    BeforeStopIsPrefix(events);
    if Stopped in events {
      EndsWithDone(id, events);
      assert Emitted(Fresh(id), events) + [] == Emitted(Fresh(id), events);
    } else {
      var ending := Opening(s) + Closing(s);
      assert ending[|ending| - 1] == DoneMark;
    }
  }

  /** A stop and then a text delta: the text arrives behind the sentinel. */
  lemma TextBehindTheSentinel(id: seq<CodeUnit>, text: seq<CodeUnit>)
    ensures var events := [Stopped, TextDelta(text)];
      var n := Observed(SILENT, AllFrames(id, events));
      && n.texts == [Said(id, text)] && n.early == []
      && AllFrames(id, events)[|AllFrames(id, events)| - 1] != DoneMark
  {
    var events := [Stopped, TextDelta(text)];
    assert events[..1] == [Stopped] && [Stopped][..0] == [];
    StreamIsWellFormed(id, events);
    assert BeforeStop([Stopped]) == [] && BeforeStop(events) == [];
    assert Texts(id, [Stopped]) == [] && Texts(id, events) == [Said(LatestId(id, [Stopped]), text)];
    assert LatestId(id, [Stopped]) == id;
    assert SpeaksAgain(events[1]);
    DoneIsLastExactlyWhen(id, events);
  }

  lemma StoppedHasBegun(events: seq<Event>)
    requires Stopped in events
    ensures Begun(events)
  {
    var i :| 0 <= i < |events| && events[i] == Stopped;
    assert Begins(events[i]);
  }

  // ---- the scanner reads the wire as the frames ----

  function UsageJson(usages: seq<(int, int)>): Json {
    if |usages| == 0 then Null else UsageObject(usages[|usages| - 1].0, usages[|usages| - 1].1)
  }

  function Bytes(texts: seq<Said>): nat {
    if |texts| == 0 then 0 else Bytes(texts[..|texts| - 1]) + Utf8Length(texts[|texts| - 1].text)
  }

  /** What the scanner should know after one more frame. */
  function SeeFrame(seen: Seen, f: Frame): Seen {
    match f
    case DoneMark => seen
    case KeepAlive => seen
    case Delta(_, t) => Seen(seen.usage, true, seen.bytes + Utf8Length(t))
    case Usage(_, i, o) => Seen(UsageObject(i, o), true, seen.bytes)
    case _ => seen.(frames := true)
  }

  function SeeFrames(seen: Seen, fs: seq<Frame>): Seen {
    if |fs| == 0 then seen else SeeFrame(SeeFrames(seen, fs[..|fs| - 1]), fs[|fs| - 1])
  }

  lemma ChunkIsSeen(h: Head, id: seq<CodeUnit>, delta: map<string, Json>, finish: Json, seen: Seen)
    ensures ReadFrame(seen, Some(Obj(Chunk(h, id, [Choice(delta, finish)]))))
         == Seen(seen.usage, true, seen.bytes + ChoiceBytes(Choice(delta, finish)))
  {
    var c := Choice(delta, finish);
    assert [c][..0] == [] && ChoicesBytes([c]) == ChoiceBytes(c);
    assert Prop(Obj(Chunk(h, id, [c])), "choices") == Arr([c]);
    assert FrameUsage(Obj(Chunk(h, id, [c]))) == Null && DeltaBytes(Obj(Chunk(h, id, [c]))) == 0;
  }

  lemma PayloadIsSeen(h: Head, f: Frame, seen: Seen)
    requires !IsMark(f)
    ensures ReadFrame(seen, Some(Anthropic.Payload(h, f))) == SeeFrame(seen, f)
  {
    match f
    case Open(id) => ChunkIsSeen(h, id, map["role" := Str(Ascii("assistant")), "content" := Str([])], Null, seen);
    case Delta(id, t) => ChunkIsSeen(h, id, map["content" := Str(t)], Null, seen);
    case Finish(id) => ChunkIsSeen(h, id, map[], Str(Ascii("stop")), seen);
    case Usage(_, _, _) =>
    case Failure(_) =>
  }

  lemma DataLineIsRead(parse: string -> Option<Json>, render: Json -> string, j: Json, seen: Seen)
    requires Codec(parse, render, {j})
    ensures ReadLine(parse, seen, "data: " + render(j)) == ReadFrame(seen, Some(j))
    ensures Scanner.Payload("data: " + render(j)) == Some(render(j))
  {
    var r := render(j);
    var line := "data: " + r;
    assert Tight(r) && Tight(line);
    TrimKeepsTight(r);
    TrimKeepsTight(line);
    assert line[|DATA|..] == " " + r;
    assert DATA <= line;
  }

  lemma MarkIsSkipped(parse: string -> Option<Json>, seen: Seen, line: string)
    requires line == "data: [DONE]" || line == ": prism-keepalive"
    ensures ReadLine(parse, seen, line) == seen
  {
    TrimKeepsTight(line);
    if line == "data: [DONE]" {
      assert line[|DATA|..] == " " + "[DONE]";
      TrimKeepsTight("[DONE]");
    }
  }

  /** The objects that frames put on the wire. */
  function PayloadsOf(h: Head, fs: seq<Frame>): set<Json> {
    set i | 0 <= i < |fs| && !IsMark(fs[i]) :: Anthropic.Payload(h, fs[i])
  }

  lemma FrameLineIsRead(parse: string -> Option<Json>, render: Json -> string, h: Head, f: Frame, seen: Seen)
    requires Codec(parse, render, if IsMark(f) then {} else {Anthropic.Payload(h, f)})
    ensures OneLine(Line(render, h, f))
    ensures ReadLine(parse, seen, Line(render, h, f)) == SeeFrame(seen, f)
  {
    if IsMark(f) {
      MarkIsSkipped(parse, seen, Line(render, h, f));
    } else {
      hide Anthropic.Payload, SeeFrame, ReadFrame, ReadLine, Scanner.Payload;
      PayloadIsSeen(h, f, seen);
      DataLineIsRead(parse, render, Anthropic.Payload(h, f), seen);
      assert OneLine("data: ");
    }
  }

  /** A line and the blank line after it, appended to text that ends a line. */
  lemma SplitsOff(text: string, line: string)
    requires OneLine(line) && Split(text).open == ""
    ensures Split(text + (line + "\n" + "\n")) == Lines(Split(text).full + [line, ""], "")
  {
    SplitResumes(text, line + "\n" + "\n");
    assert "" + (line + "\n" + "\n") == line + "\n" + "\n";
    SplitLine(line, "\n");
    SplitLine("", "");
    assert "" + "\n" + "" == "\n";
    assert [line] + [""] == [line, ""];
  }

  lemma ReadsLineAndBlank(parse: string -> Option<Json>, seen: Seen, lines: seq<string>, line: string)
    ensures ReadLines(parse, seen, lines + [line, ""]) == ReadLine(parse, ReadLines(parse, seen, lines), line)
  {
    assert (lines + [line, ""])[..|lines| + 1] == lines + [line];
    assert (lines + [line])[..|lines|] == lines;
    EmptyLineIsIgnored(parse, ReadLines(parse, seen, lines + [line]));
  }

  lemma PayloadsOfParts(h: Head, fs: seq<Frame>)
    requires |fs| > 0
    ensures PayloadsOf(h, fs[..|fs| - 1]) <= PayloadsOf(h, fs)
    ensures !IsMark(fs[|fs| - 1]) ==> Anthropic.Payload(h, fs[|fs| - 1]) in PayloadsOf(h, fs)
  {
    hide Anthropic.Payload;
    var before := fs[..|fs| - 1];
    forall j | j in PayloadsOf(h, before) ensures j in PayloadsOf(h, fs) {
      var i :| 0 <= i < |before| && !IsMark(before[i]) && Anthropic.Payload(h, before[i]) == j;
      assert fs[i] == before[i];
    }
  }

  lemma {:induction false} WireIsRead(parse: string -> Option<Json>, render: Json -> string, h: Head, fs: seq<Frame>)
    requires Codec(parse, render, PayloadsOf(h, fs))
    ensures Split(WireAll(render, h, fs)).open == ""
    ensures ReadLines(parse, NOTHING, Split(WireAll(render, h, fs)).full) == SeeFrames(NOTHING, fs)
  {
    if |fs| > 0 {
      hide Codec, Line, Split, ReadLine;
      var before, f := fs[..|fs| - 1], fs[|fs| - 1];
      PayloadsOfParts(h, fs);
      CodecOfFewer(parse, render, PayloadsOf(h, fs), PayloadsOf(h, before));
      CodecOfFewer(parse, render, PayloadsOf(h, fs), if IsMark(f) then {} else {Anthropic.Payload(h, f)});
      WireIsRead(parse, render, h, before);
      var w := WireAll(render, h, before);
      FrameLineIsRead(parse, render, h, f, SeeFrames(NOTHING, before));
      SplitsOff(w, Line(render, h, f));
      ReadsLineAndBlank(parse, NOTHING, Split(w).full, Line(render, h, f));
    }
  }

  predicate Chatty(fs: seq<Frame>) { exists i :: 0 <= i < |fs| && !IsMark(fs[i]) }

  lemma SeesAsObserved(n: Notes, f: Frame, chatty: bool)
    ensures SeeFrame(Seen(UsageJson(n.usages), chatty, Bytes(n.texts)), f)
         == Seen(UsageJson(Observe(n, f).usages), chatty || !IsMark(f), Bytes(Observe(n, f).texts))
  {
  }

  /** The scanner's sums are the observer's notes. */
  lemma {:induction false} SeenIsObserved(fs: seq<Frame>)
    ensures var n := Observed(SILENT, fs);
      SeeFrames(NOTHING, fs) == Seen(UsageJson(n.usages), Chatty(fs), Bytes(n.texts))
  {
    if |fs| > 0 {
      var before, f := fs[..|fs| - 1], fs[|fs| - 1];
      hide Observe, SeeFrame, UsageJson, Bytes;
      SeenIsObserved(before);
      SeesAsObserved(Observed(SILENT, before), f, Chatty(before));
      assert Chatty(fs) <==> Chatty(before) || !IsMark(f) by {
        if Chatty(before) {
          var i :| 0 <= i < |before| && !IsMark(before[i]);
          assert !IsMark(fs[i]);
        }
        if !IsMark(f) { assert !IsMark(fs[|before|]); }
      }
    }
  }

  lemma {:induction false} AlwaysChatty(fs: seq<Frame>)
    requires Observed(SILENT, fs).finishes > 0
    ensures Chatty(fs)
  {
    var before := fs[..|fs| - 1];
    if IsMark(fs[|before|]) {
      AlwaysChatty(before);
      var i :| 0 <= i < |before| && !IsMark(before[i]);
      assert !IsMark(fs[i]);
    }
  }

  /** One read of the whole output wire. */
  lemma ScanOfWire(parse: string -> Option<Json>, render: Json -> string, h: Head, fs: seq<Frame>)
    requires Codec(parse, render, PayloadsOf(h, fs))
    ensures var n := Observed(SILENT, fs);
      Scan(parse, WireAll(render, h, fs)) == Seen(UsageJson(n.usages), Chatty(fs), Bytes(n.texts))
  {
    WireIsRead(parse, render, h, fs);
    SeenIsObserved(fs);
    EmptyLineIsIgnored(parse, SeeFrames(NOTHING, fs));
  }

  // ---- the transformer does not see chunk boundaries either ----

  /** The transformer between two chunks, with everything it has written. */
  datatype Pump = Pump(buffer: string, state: State, out: string)

  function Pumped(parse: string -> Option<Json>, render: Json -> string, h: Head, p: Pump, text: string): Pump {
    var l := Split(p.buffer + text);
    var events := Events(parse, l.full);
    Pump(l.open, After(p.state, events), p.out + WireAll(render, h, Emitted(p.state, events)))
  }

  function PumpedAll(parse: string -> Option<Json>, render: Json -> string, h: Head, p: Pump, pieces: seq<string>): Pump {
    if |pieces| == 0 then p
    else Pumped(parse, render, h, PumpedAll(parse, render, h, p, pieces[..|pieces| - 1]), pieces[|pieces| - 1])
  }

  /** All the transformer ever writes: its pushes, then end(). */
  function Output(parse: string -> Option<Json>, render: Json -> string, h: Head, id: seq<CodeUnit>,
                  pieces: seq<string>, flush: string): string
  {
    var p := PumpedAll(parse, render, h, Pump("", Fresh(id), ""), pieces);
    var events := LineEvents(parse, p.buffer + flush);
    p.out + WireAll(render, h, Emitted(p.state, events) + EndFrames(After(p.state, events)))
  }

  function StreamEvents(parse: string -> Option<Json>, text: string): seq<Event> {
    Events(parse, Split(text).full) + LineEvents(parse, Split(text).open)
  }

  lemma {:induction false} PumpsTheText(parse: string -> Option<Json>, render: Json -> string, h: Head,
                                        id: seq<CodeUnit>, pieces: seq<string>)
    ensures var p := PumpedAll(parse, render, h, Pump("", Fresh(id), ""), pieces);
      var events := Events(parse, Split(Concat(pieces)).full);
      p == Pump(Split(Concat(pieces)).open, After(Fresh(id), events), WireAll(render, h, Emitted(Fresh(id), events)))
  {
    if |pieces| > 0 {
      hide Wire, Next, Emit, LineEvents;
      var before, text := pieces[..|pieces| - 1], pieces[|pieces| - 1];
      PumpsTheText(parse, render, h, id, before);
      var l := Split(Concat(before));
      var next := Split(l.open + text).full;
      SplitResumes(Concat(before), text);
      EventsConcat(parse, l.full, next);
      RunsConcat(Fresh(id), Events(parse, l.full), Events(parse, next));
      WireAllConcat(render, h, Emitted(Fresh(id), Events(parse, l.full)),
                    Emitted(After(Fresh(id), Events(parse, l.full)), Events(parse, next)));
    }
  }

  lemma TransformIsChunkFree(parse: string -> Option<Json>, render: Json -> string, h: Head, id: seq<CodeUnit>,
                             pieces: seq<string>, flush: string)
    requires OneLine(flush)
    ensures Output(parse, render, h, id, pieces, flush)
         == WireAll(render, h, AllFrames(id, StreamEvents(parse, Concat(pieces) + flush)))
  {
    hide Wire, Next, Emit, LineEvents, EndFrames;
    PumpsTheText(parse, render, h, id, pieces);
    var l := Split(Concat(pieces));
    SplitResumes(Concat(pieces), flush);
    SplitsAreLines(Concat(pieces));
    SplitOneLine(l.open + flush);
    assert l.full + [] == l.full;
    var early, late := Events(parse, l.full), LineEvents(parse, l.open + flush);
    assert StreamEvents(parse, Concat(pieces) + flush) == early + late;
    RunsConcat(Fresh(id), early, late);
    var s := After(Fresh(id), early);
    var tail := EndFrames(After(s, late));
    WireAllConcat(render, h, Emitted(Fresh(id), early), Emitted(s, late) + tail);
    assert Emitted(Fresh(id), early) + (Emitted(s, late) + tail) == Emitted(Fresh(id), early + late) + tail;
  }

  // ---- the Anthropic side of the wire ----

  /** One upstream event: its informational name line, its data line, a blank line. */
  datatype Upstream = Upstream(name: string, data: Json)

  predicate Sendable(u: Upstream) { OneLine(u.name) && u.data.Obj? }

  function DataOf(us: seq<Upstream>): set<Json> { set u | u in us :: u.data }

  /** Every object that crosses either wire of the pipeline. */
  function SentBy(h: Head, id: seq<CodeUnit>, us: seq<Upstream>): set<Json> {
    DataOf(us) + PayloadsOf(h, AllFrames(id, Classified(us)))
  }

  function Ending(crlf: bool): string { if crlf then "\r" else "" }

  function NameLine(crlf: bool, u: Upstream): string { "event: " + u.name + Ending(crlf) }

  function DataLine(render: Json -> string, crlf: bool, u: Upstream): string {
    "data: " + render(u.data) + Ending(crlf)
  }

  function UpstreamWire(render: Json -> string, crlf: bool, us: seq<Upstream>): string {
    if |us| == 0 then ""
    else
      var u := us[|us| - 1];
      UpstreamWire(render, crlf, us[..|us| - 1])
      + (NameLine(crlf, u) + "\n")
      + (DataLine(render, crlf, u) + "\n")
      + (Ending(crlf) + "\n")
  }

  function Classified(us: seq<Upstream>): seq<Event> {
    if |us| == 0 then [] else Classified(us[..|us| - 1]) + [Classify(us[|us| - 1].data)]
  }

  lemma AppendsLine(text: string, line: string)
    requires OneLine(line) && Split(text).open == ""
    ensures Split(text + (line + "\n")) == Lines(Split(text).full + [line], "")
  {
    SplitResumes(text, line + "\n");
    assert "" + (line + "\n") == line + "\n" + "";
    SplitLine(line, "");
  }

  lemma EventsSnoc(parse: string -> Option<Json>, lines: seq<string>, line: string)
    ensures Events(parse, lines + [line]) == Events(parse, lines) + LineEvents(parse, line)
  {
    assert (lines + [line])[..|lines|] == lines;
  }

  lemma NameLineIsSkipped(parse: string -> Option<Json>, crlf: bool, u: Upstream)
    requires OneLine(u.name)
    ensures OneLine(NameLine(crlf, u)) && LineEvents(parse, NameLine(crlf, u)) == []
    ensures OneLine(Ending(crlf)) && LineEvents(parse, Ending(crlf)) == []
  {
    var name := StripReturn(NameLine(crlf, u));
    assert name[0] == 'e' && DATA[0] == 'd';
    assert StripReturn(Ending(crlf)) == "";
  }

  lemma DataLineIsEvent(parse: string -> Option<Json>, render: Json -> string, crlf: bool, u: Upstream)
    requires Codec(parse, render, {u.data}) && Sendable(u)
    ensures OneLine(DataLine(render, crlf, u))
    ensures LineEvents(parse, DataLine(render, crlf, u)) == [Classify(u.data)]
  {
    hide Classify;
    var data := "data: " + render(u.data);
    assert Braced(render(u.data));
    assert data[|data| - 1] == '}';
    assert StripReturn(data + Ending(crlf)) == data;
    DataLineIsRead(parse, render, u.data, NOTHING);
  }

  lemma ThreeLines(parse: string -> Option<Json>, w: string, a: string, b: string, c: string)
    requires OneLine(a) && OneLine(b) && OneLine(c) && Split(w).open == ""
    requires LineEvents(parse, a) == [] && LineEvents(parse, c) == []
    ensures var l := Split(w + (a + "\n") + (b + "\n") + (c + "\n"));
      l.open == "" && Events(parse, l.full) == Events(parse, Split(w).full) + LineEvents(parse, b)
  {
    hide Split, LineEvents, Events;
    AppendsLine(w, a);
    AppendsLine(w + (a + "\n"), b);
    AppendsLine(w + (a + "\n") + (b + "\n"), c);
    var full := Split(w).full;
    EventsSnoc(parse, full, a);
    EventsSnoc(parse, full + [a], b);
    EventsSnoc(parse, full + [a] + [b], c);
  }

  lemma {:induction false} UpstreamIsRead(parse: string -> Option<Json>, render: Json -> string, crlf: bool, us: seq<Upstream>)
    requires Codec(parse, render, DataOf(us)) && (forall i :: 0 <= i < |us| ==> Sendable(us[i]))
    ensures Split(UpstreamWire(render, crlf, us)).open == ""
    ensures Events(parse, Split(UpstreamWire(render, crlf, us)).full) == Classified(us)
  {
    if |us| > 0 {
      hide Codec, Split, LineEvents, Classify, NameLine, DataLine, Ending, OneLine;
      var before, u := us[..|us| - 1], us[|us| - 1];
      CodecOfFewer(parse, render, DataOf(us), DataOf(before));
      CodecOfFewer(parse, render, DataOf(us), {u.data});
      UpstreamIsRead(parse, render, crlf, before);
      NameLineIsSkipped(parse, crlf, u);
      DataLineIsEvent(parse, render, crlf, u);
      var w := UpstreamWire(render, crlf, before);
      ThreeLines(parse, w, NameLine(crlf, u), DataLine(render, crlf, u), Ending(crlf));
      assert UpstreamWire(render, crlf, us)
          == w + (NameLine(crlf, u) + "\n") + (DataLine(render, crlf, u) + "\n") + (Ending(crlf) + "\n");
    }
  }

  // ---- what the payloads themselves say ----

  predicate IsKind(d: Json, kind: string) { Prop(d, "type") == Str(Ascii(kind)) }

  /** The usage object a payload carries: a start inside its message, a later delta on itself. */
  function UsageCarried(d: Json): Json {
    if IsKind(d, "message_start") then Prop(Prop(d, "message"), "usage")
    else if IsKind(d, "message_delta") then Prop(d, "usage")
    else Null
  }

  /** The last count of that name any payload carried. */
  function LastCount(us: seq<Upstream>, name: string): Option<int> {
    if |us| == 0 then None
    else
      var n := Prop(UsageCarried(us[|us| - 1].data), name);
      if n.Int? then Some(n.n) else LastCount(us[..|us| - 1], name)
  }

  predicate HasStop(us: seq<Upstream>) { exists u :: u in us && IsKind(u.data, "message_stop") }

  /** The payloads before the first message_stop. */
  function UntilStop(us: seq<Upstream>): seq<Upstream> {
    if |us| == 0 then []
    else if HasStop(us[..|us| - 1]) then UntilStop(us[..|us| - 1])
    else if IsKind(us[|us| - 1].data, "message_stop") then us[..|us| - 1]
    else us
  }

  /** The UTF-8 size of the text a payload adds. */
  function TextBytes(d: Json): nat {
    var text := Prop(Prop(d, "delta"), "text");
    if IsKind(d, "content_block_delta") && IsKind(Prop(d, "delta"), "text_delta") && text.Str?
    then Utf8Length(text.units) else 0
  }

  function AllTextBytes(us: seq<Upstream>): nat {
    if |us| == 0 then 0 else AllTextBytes(us[..|us| - 1]) + TextBytes(us[|us| - 1].data)
  }

  /** An OpenAI usage object for these counts, saying nothing else. */
  predicate UsageSays(u: Json, input: int, output: int) {
    && u.Obj? && u.fields.Keys == {"prompt_tokens", "completion_tokens", "total_tokens"}
    && Prop(u, "prompt_tokens") == Int(input) && Prop(u, "completion_tokens") == Int(output)
    && Prop(u, "total_tokens") == Int(input + output)
  }

  /** The usage a client learns of: none when neither side was counted, the side never counted as zero otherwise. */
  predicate UsageLearnt(u: Json, input: Option<int>, output: Option<int>) {
    if input.None? && output.None? then u == Null
    else UsageSays(u, if input.Some? then input.value else 0, if output.Some? then output.value else 0)
  }

  lemma OnePayloadSays(d: Json, id: seq<CodeUnit>, before: seq<Event>)
    ensures var e := Classify(d); var events := before + [e];
      && (e.Stopped? <==> IsKind(d, "message_stop"))
      && LatestInput(events) == (var n := Prop(UsageCarried(d), "input_tokens"); if n.Int? then Some(n.n) else LatestInput(before))
      && LatestOutput(events) == (var n := Prop(UsageCarried(d), "output_tokens"); if n.Int? then Some(n.n) else LatestOutput(before))
      && Bytes(Texts(id, events)) == Bytes(Texts(id, before)) + TextBytes(d)
  {
    hide ChatId;
    assert (before + [Classify(d)])[..|before|] == before;
    KindsDiffer(d);
    if IsKind(d, "content_block_delta") && IsKind(Prop(d, "delta"), "text_delta") && Prop(Prop(d, "delta"), "text").Str? {
      var text := Prop(Prop(d, "delta"), "text").units;
      if |text| == 0 { assert Utf8Length(text) == 0; } else {
        var t := Said(LatestId(id, before), text);
        assert (Texts(id, before) + [t])[..|Texts(id, before)|] == Texts(id, before);
      }
    }
  }

  /** No payload is of two kinds. */
  lemma KindsDiffer(d: Json)
    ensures !(IsKind(d, "message_start") && IsKind(d, "message_delta"))
    ensures IsKind(d, "message_start") || IsKind(d, "message_delta") || IsKind(d, "message_stop") ==> !IsKind(d, "content_block_delta")
    ensures IsKind(d, "message_stop") ==> !IsKind(d, "message_start") && !IsKind(d, "message_delta")
  {
    LengthsDiffer("message_start", "message_delta");
    LengthsDiffer("message_stop", "message_start");
    LengthsDiffer("message_stop", "message_delta");
    LengthsDiffer("content_block_delta", "message_start");
    LengthsDiffer("content_block_delta", "message_delta");
    LengthsDiffer("content_block_delta", "message_stop");
  }

  lemma LengthsDiffer(a: string, b: string)
    requires |a| != |b| || (|a| == 13 && a[8] == 's' && b[8] == 'd')
    ensures Ascii(a) != Ascii(b)
  {
    if |a| == |b| { assert Ascii(a)[8] == 's' as int && Ascii(b)[8] == 'd' as int; }
  }

  /** The classified events say what the payloads say. */
  lemma {:induction false} PayloadsSay(id: seq<CodeUnit>, us: seq<Upstream>)
    ensures var events := Classified(us);
      && LatestInput(events) == LastCount(us, "input_tokens") && LatestOutput(events) == LastCount(us, "output_tokens")
      && Bytes(Texts(id, events)) == AllTextBytes(us)
      && (Stopped in events <==> HasStop(us))
      && BeforeStop(events) == Classified(UntilStop(us))
  {
    hide Classify, LatestInput, LatestOutput, Texts, Bytes, TextBytes, UsageCarried, IsKind, HasStop, BeforeStop;
    if |us| > 0 {
      var before, u := us[..|us| - 1], us[|us| - 1];
      assert us == before + [u];
      PayloadsSay(id, before);
      OnePayloadSays(u.data, id, Classified(before));
      BeforeStopSnoc(Classified(before), Classify(u.data));
      StopOneMore(before, u);
    } else {
      NothingSaid(id);
    }
  }

  lemma StopOneMore(before: seq<Upstream>, u: Upstream)
    ensures HasStop(before + [u]) <==> HasStop(before) || IsKind(u.data, "message_stop")
  {
    hide IsKind;
    assert forall v :: v in before + [u] <==> v in before || v == u;
  }

  lemma NothingSaid(id: seq<CodeUnit>)
    ensures LatestInput([]) == None && LatestOutput([]) == None && Bytes(Texts(id, [])) == 0
    ensures BeforeStop([]) == [] && !HasStop([])
  {
  }

  lemma LearntAsReported(events: seq<Event>)
    ensures UsageLearnt(UsageJson(Reported(events)), LatestInput(events), LatestOutput(events))
  {
  }

  /**
   The pipeline, for every Anthropic event sequence and every chunking on both sides: the scanner learns
   exactly the bytes of the text deltas, and the counts the payloads last carried before the first
   message_stop, under their OpenAI names.
   */
  lemma PipelineIsExact(parse: string -> Option<Json>, render: Json -> string, h: Head, id: seq<CodeUnit>,
                        us: seq<Upstream>, crlf: bool,
                        inPieces: seq<string>, inFlush: string, outPieces: seq<string>, outFlush: string)
    requires Codec(parse, render, SentBy(h, id, us)) && (forall i :: 0 <= i < |us| ==> Sendable(us[i]))
    requires OneLine(inFlush) && OneLine(outFlush)
    requires Concat(inPieces) + inFlush == UpstreamWire(render, crlf, us)
    requires Concat(outPieces) + outFlush == Output(parse, render, h, id, inPieces, inFlush)
    ensures var seen := Ended(parse, PushedAll(parse, START, outPieces), outFlush);
      && seen.frames && seen.bytes == AllTextBytes(us)
      && UsageLearnt(seen.usage, LastCount(UntilStop(us), "input_tokens"), LastCount(UntilStop(us), "output_tokens"))
  {
    hide Codec, Output, Ended, PushedAll, UpstreamWire, SentBy, UsageLearnt, UsageJson, Reported;
    PipelineAsObserved(parse, render, h, id, us, crlf, inPieces, inFlush, outPieces, outFlush);
    PayloadsSay(id, us);
    PayloadsSay(id, UntilStop(us));
    LearntAsReported(BeforeStop(Classified(us)));
  }

  lemma PipelineAsObserved(parse: string -> Option<Json>, render: Json -> string, h: Head, id: seq<CodeUnit>,
                        us: seq<Upstream>, crlf: bool,
                        inPieces: seq<string>, inFlush: string, outPieces: seq<string>, outFlush: string)
    requires Codec(parse, render, SentBy(h, id, us)) && (forall i :: 0 <= i < |us| ==> Sendable(us[i]))
    requires OneLine(inFlush) && OneLine(outFlush)
    requires Concat(inPieces) + inFlush == UpstreamWire(render, crlf, us)
    requires Concat(outPieces) + outFlush == Output(parse, render, h, id, inPieces, inFlush)
    ensures var events := Classified(us);
      Ended(parse, PushedAll(parse, START, outPieces), outFlush)
      == Seen(UsageJson(Reported(BeforeStop(events))), true, Bytes(Texts(id, events)))
  {
    hide Codec, Output, Ended, PushedAll, UpstreamWire, AllFrames, Scan;
    var events := Classified(us);
    CodecOfFewer(parse, render, SentBy(h, id, us), DataOf(us));
    CodecOfFewer(parse, render, SentBy(h, id, us), PayloadsOf(h, AllFrames(id, events)));
    UpstreamIsRead(parse, render, crlf, us);
    assert LineEvents(parse, "") == [];
    assert StreamEvents(parse, UpstreamWire(render, crlf, us)) == events;
    TransformIsChunkFree(parse, render, h, id, inPieces, inFlush);
    StreamIsWellFormed(id, events);
    AlwaysChatty(AllFrames(id, events));
    ChunkingIsInvisible(parse, outPieces, outFlush);
    ScanOfWire(parse, render, h, AllFrames(id, events));
  }
}
