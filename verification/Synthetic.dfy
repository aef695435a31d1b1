/**
 The stream synthesized from a finished completion (src/anthropic-sse-to-openai.ts:257-378): the text
 is cut every 48 UTF-16 code units, so a cut can fall inside a surrogate pair.
 */
module Synthetic {
  import opened Wrappers
  import opened Text
  import opened Json
  import opened Scanner
  import opened Anthropic
  import opened Pipeline

  const CHUNK_SIZE := 48
  const ERROR_LIMIT := 200

  /** What the deferred call came back with; a count that is not an integer is None. */
  datatype Completion =
    | Answer(text: seq<CodeUnit>, input: Option<int>, output: Option<int>)
    | Thrown(message: seq<CodeUnit>)

  function Sliced(text: seq<CodeUnit>): seq<seq<CodeUnit>> {
    if |text| == 0 then []
    else if |text| <= CHUNK_SIZE then [text]
    else [text[..CHUNK_SIZE]] + Sliced(text[CHUNK_SIZE..])
  }

  function Deltas(id: seq<CodeUnit>, chunks: seq<seq<CodeUnit>>): seq<Frame> {
    if |chunks| == 0 then [] else [Delta(id, chunks[0])] + Deltas(id, chunks[1..])
  }

  function Warming(n: nat): seq<Frame> { seq(n, _ => KeepAlive) }

  /** The frames of the deferred stream; `waited` keepalives pass while the call runs. */
  function Frames(id: seq<CodeUnit>, waited: nat, c: Completion): seq<Frame> {
    [Open(id)] + Warming(waited) +
    match c
    case Answer(text, i, o) => Deltas(id, Sliced(text)) + Closing(State(id, i, o, true, false))
    case Thrown(m) =>
      [Failure(if |m| <= ERROR_LIMIT then m else m[..ERROR_LIMIT])] + Closing(State(id, None, None, true, false))
  }

  /** How many of the 48-unit boundaries fall inside a surrogate pair. */
  function CutPairs(text: seq<CodeUnit>): nat {
    if |text| <= CHUNK_SIZE then 0
    else (if CutsPair(text[..CHUNK_SIZE], text[CHUNK_SIZE..]) then 1 else 0) + CutPairs(text[CHUNK_SIZE..])
  }

  /** The loop that cuts the text, writing one delta frame per slice. */
  method WriteText(render: Json -> string, h: Head, id: seq<CodeUnit>, text: seq<CodeUnit>) returns (body: string)
    ensures body == WireAll(render, h, Deltas(id, Sliced(text)))
  {
    hide Wire, Sliced, Deltas;
    FirstSliceOfNothing(id);
    body := "";
    var i := 0;
    while i < |text|
      invariant 0 <= i
      invariant WireAll(render, h, Deltas(id, Sliced(text)))
             == body + WireAll(render, h, Deltas(id, Sliced(if i < |text| then text[i..] else [])))
      decreases |text| - i
    {
      var end := if i + CHUNK_SIZE < |text| then i + CHUNK_SIZE else |text|;
      ghost var rest := if end < |text| then text[end..] else [];
      ghost var later := Sliced(rest);
      FirstSlice(text[i..end], rest);
      assert text[i..] == text[i..end] + rest;
      DeltasOfMore(id, text[i..end], later);
      WireAllConcat(render, h, [Delta(id, text[i..end])], Deltas(id, later));
      OneFrame(render, h, Delta(id, text[i..end]));
      body := body + Wire(render, h, Delta(id, text[i..end]));
      i := i + CHUNK_SIZE;
    }
  }

  lemma FirstSlice(first: seq<CodeUnit>, rest: seq<CodeUnit>)
    requires 0 < |first| <= CHUNK_SIZE && (|rest| > 0 ==> |first| == CHUNK_SIZE)
    ensures Sliced(first + rest) == [first] + Sliced(rest)
    ensures CutPairs(first + rest) == (if CutsPair(first, rest) then 1 else 0) + CutPairs(rest)
  {
    if |rest| == 0 {
      assert first + rest == first;
    } else {
      assert (first + rest)[..CHUNK_SIZE] == first && (first + rest)[CHUNK_SIZE..] == rest;
    }
  }

  lemma FirstSliceOfNothing(id: seq<CodeUnit>)
    ensures Deltas(id, Sliced([])) == []
  {
  }

  /** Every slice but the last is 48 units, and none is empty. */
  predicate Full(cs: seq<seq<CodeUnit>>) {
    forall i :: 0 <= i < |cs| ==> 0 < |cs[i]| <= 48 && (i < |cs| - 1 ==> |cs[i]| == 48)
  }

  lemma {:induction false} SlicesAreFull(text: seq<CodeUnit>)
    ensures Full(Sliced(text)) && (|Sliced(text)| == 0 <==> |text| == 0)
    decreases |text|
  {
    if |text| > CHUNK_SIZE {
      SlicesAreFull(text[CHUNK_SIZE..]);
      OneMoreSlice(text[..CHUNK_SIZE], Sliced(text[CHUNK_SIZE..]));
    }
  }

  lemma OneMoreSlice(c: seq<CodeUnit>, cs: seq<seq<CodeUnit>>)
    requires |c| == 48 && Full(cs)
    ensures Full([c] + cs)
  {
  }

  lemma DeltasOfMore(id: seq<CodeUnit>, c: seq<CodeUnit>, cs: seq<seq<CodeUnit>>)
    ensures Deltas(id, [c] + cs) == [Delta(id, c)] + Deltas(id, cs)
  {
    assert ([c] + cs)[1..] == cs;
  }

  function Joined(texts: seq<Said>): seq<CodeUnit> {
    if |texts| == 0 then [] else Joined(texts[..|texts| - 1]) + texts[|texts| - 1].text
  }

  /** Observing the slices: the text arrives whole, its measure two bytes long per pair cut. */
  lemma {:induction false} ObservedSlices(n: Notes, id: seq<CodeUnit>, text: seq<CodeUnit>)
    requires n.opens == 1 && n.marks == 0
    ensures var m := Observed(n, Deltas(id, Sliced(text)));
      && m == n.(texts := m.texts, early := m.early)
      && Joined(m.texts) == Joined(n.texts) + text
      && Bytes(m.texts) == Bytes(n.texts) + Utf8Length(text) + 2 * CutPairs(text)
      && (n.early == n.texts ==> m.early == m.texts)
    decreases |text|
  {
    if |text| > 0 {
      hide CutsPair, CutPairs, Sliced, Utf8Length, Joined, Bytes, Observed;
      var first := if |text| <= CHUNK_SIZE then text else text[..CHUNK_SIZE];
      var rest := if |text| <= CHUNK_SIZE then [] else text[CHUNK_SIZE..];
      FirstSlice(first, rest);
      assert text == first + rest;
      var n1 := Observe(n, Delta(id, first));
      DeltasOfMore(id, first, Sliced(rest));
      ObservedConcat(n, [Delta(id, first)], Deltas(id, Sliced(rest)));
      ObservedOne(n, Delta(id, first));
      OneMoreText(n.texts, Said(id, first));
      ObservedSlices(n1, id, rest);
      Utf8LengthOfParts(first, rest);
      assert Joined(n.texts) + first + rest == Joined(n.texts) + text;
    }
  }

  lemma OneMoreText(texts: seq<Said>, t: Said)
    ensures Bytes(texts + [t]) == Bytes(texts) + Utf8Length(t.text)
    ensures Joined(texts + [t]) == Joined(texts) + t.text
  {
    assert (texts + [t])[..|texts|] == texts;
  }

  lemma {:induction false} ObservedWarming(n: Notes, waited: nat)
    ensures Observed(n, Warming(waited)) == n
  {
    if waited > 0 {
      ObservedWarming(n, waited - 1);
      assert Warming(waited)[..waited - 1] == Warming(waited - 1);
    }
  }

  lemma ObservedStart(id: seq<CodeUnit>, waited: nat)
    ensures Observed(SILENT, [Open(id)] + Warming(waited)) == SILENT.(opens := 1)
  {
    ObservedConcat(SILENT, [Open(id)], Warming(waited));
    ObservedOne(SILENT, Open(id));
    ObservedWarming(SILENT.(opens := 1), waited);
  }

  function Counts(i: Option<int>, o: Option<int>): seq<(int, int)> {
    if i.Some? || o.Some? then [(i.GetOr(0), o.GetOr(0))] else []
  }

  /** The client gets the answer whole, between one role-open frame and one sentinel, with its counts. */
  lemma AnswerIsWhole(id: seq<CodeUnit>, waited: nat, text: seq<CodeUnit>, i: Option<int>, o: Option<int>)
    ensures var n := Observed(SILENT, Frames(id, waited, Answer(text, i, o)));
      && n == Notes(1, 1, 1, Counts(i, o), n.texts, n.texts, false)
      && Joined(n.texts) == text
      && Bytes(n.texts) == Utf8Length(text) + 2 * CutPairs(text)
  {
    hide Observed, Observe, Sliced, CutPairs, Utf8Length;
    var start := [Open(id)] + Warming(waited);
    var closing := Closing(State(id, i, o, true, false));
    var n0 := SILENT.(opens := 1);
    ObservedStart(id, waited);
    ObservedSlices(n0, id, text);
    var n1 := Observed(n0, Deltas(id, Sliced(text)));
    ObservedConcat(SILENT, start, Deltas(id, Sliced(text)) + closing);
    ObservedConcat(n0, Deltas(id, Sliced(text)), closing);
    ObservedClosing(n1, State(id, i, o, true, false));
    assert Opening(State(id, i, o, true, false)) + closing == closing;
  }

  /** A failed call: an error frame and a clean end, no text and no usage. */
  lemma FailureIsUnmetered(id: seq<CodeUnit>, waited: nat, message: seq<CodeUnit>)
    ensures Observed(SILENT, Frames(id, waited, Thrown(message))) == Notes(1, 1, 1, [], [], [], false)
    ensures Frames(id, waited, Thrown(message))[1 + waited] == Failure(if |message| <= 200 then message else message[..200])
  {
    hide Observed;
    var s := State(id, None, None, true, false);
    var f := Failure(if |message| <= ERROR_LIMIT then message else message[..ERROR_LIMIT]);
    var n0 := SILENT.(opens := 1);
    ObservedStart(id, waited);
    ObservedConcat(SILENT, [Open(id)] + Warming(waited), [f] + Closing(s));
    ObservedConcat(n0, [f], Closing(s));
    ObservedOne(n0, f);
    ObservedClosing(n0, s);
    assert Opening(s) + Closing(s) == Closing(s);
  }

  /** The scanner's byte count of a synthesized stream is the answer's own exactly when no pair is cut. */
  lemma CountedExactlyWhenNoPairIsCut(parse: string -> Option<Json>, render: Json -> string, h: Head,
                                      id: seq<CodeUnit>, waited: nat, text: seq<CodeUnit>, i: Option<int>, o: Option<int>,
                                      pieces: seq<string>, flush: string)
    requires Codec(parse, render, PayloadsOf(h, Frames(id, waited, Answer(text, i, o)))) && OneLine(flush)
    requires Concat(pieces) + flush == WireAll(render, h, Frames(id, waited, Answer(text, i, o)))
    ensures var seen := Ended(parse, PushedAll(parse, START, pieces), flush);
      && UsageLearnt(seen.usage, i, o) && seen.frames
      && seen.bytes == Utf8Length(text) + 2 * CutPairs(text)
      && (seen.bytes == Utf8Length(text) <==> CutPairs(text) == 0)
  {
    hide Codec, Frames, WireAll, Ended, PushedAll, Scan, CutPairs, Utf8Length, Observed, PayloadsOf, Joined, Bytes, UsageJson, UsageLearnt;
    var fs := Frames(id, waited, Answer(text, i, o));
    AnswerIsWhole(id, waited, text, i, o);
    AlwaysChatty(fs);
    ChunkingIsInvisible(parse, pieces, flush);
    ScanOfWire(parse, render, h, fs);
    CountsAreLearnt(i, o);
  }

  lemma CountsAreLearnt(i: Option<int>, o: Option<int>)
    ensures UsageLearnt(UsageJson(Counts(i, o)), i, o)
  {
  }

  /** 47 letters and one emoji: 51 bytes of text, measured as 53. */
  lemma AnEmojiOnTheBoundary()
    ensures var text := seq(47, _ => 0x61 as CodeUnit) + [0xD83D, 0xDE00];
      CutPairs(text) == 1
  {
    var text := seq(47, _ => 0x61 as CodeUnit) + [0xD83D, 0xDE00];
    assert text[..CHUNK_SIZE][47] == 0xD83D && text[CHUNK_SIZE..][0] == 0xDE00;
    assert |text[CHUNK_SIZE..]| == 1;
  }
}
