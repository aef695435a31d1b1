/**
 Chat turns for providers that demand alternation (src/upstream.ts:176-228, 249-308). The Anthropic and
 the Gemini body run the same loop; Gemini only calls the assistant `model`.
 */
module Turns {
  import opened Wrappers
  import opened Sums
  import Text

  datatype Role = System | User | Assistant | Other

  datatype Message = Message(role: Role, content: string, images: seq<string>)

  /** One content block; an image is what the provider-specific reader made of its URL. */
  datatype Block = Written(text: string) | Picture(data: string)

  datatype Turn = Turn(role: Role, content: seq<Block>)

  const BLANK_LINE := "\n\n"

  predicate Blank(s: string) { Text.Trim(s) == "" }

  predicate Spoken(m: Message) { m.role.User? || m.role.Assistant? }

  /** The images a provider can read, in order; unreadable ones are dropped. */
  function Pictures(image: string -> Option<string>, urls: seq<string>): seq<Block> {
    if |urls| == 0 then []
    else
      var before := Pictures(image, urls[..|urls| - 1]);
      var last := image(urls[|urls| - 1]);
      if last.Some? then before + [Picture(last.value)] else before
  }

  /** A message's own text, when it contributes one. */
  function OwnText(image: string -> Option<string>, m: Message): Option<string> {
    if !Blank(m.content) || |Pictures(image, m.images)| == 0
    then Some(if m.content == "" then " " else m.content) else None
  }

  function Listed(t: Option<string>): seq<Block> { if t.Some? then [Written(t.value)] else [] }

  function BlocksOf(image: string -> Option<string>, m: Message): seq<Block> {
    Pictures(image, m.images) + Listed(OwnText(image, m))
  }

  /** The last text block of a turn. */
  function LastWritten(content: seq<Block>): (i: Option<nat>)
    ensures i.Some? ==> i.value < |content| && content[i.value].Written?
    ensures i.None? ==> forall k :: 0 <= k < |content| ==> content[k].Picture?
  {
    if |content| == 0 then None
    else if content[|content| - 1].Written? then Some(|content| - 1)
    else LastWritten(content[..|content| - 1])
  }

  /** Text joins the turn's text after a blank line; anything else is appended. */
  function Merge(content: seq<Block>, b: Block): seq<Block> {
    if b.Written? && LastWritten(content).Some? then
      var i := LastWritten(content).value;
      var t := content[i].text;
      content[i := Written(if t == "" then b.text else t + BLANK_LINE + b.text)]
    else content + [b]
  }

  function MergeAll(content: seq<Block>, blocks: seq<Block>): seq<Block> {
    if |blocks| == 0 then content
    else Merge(MergeAll(content, blocks[..|blocks| - 1]), blocks[|blocks| - 1])
  }

  function AddMessage(image: string -> Option<string>, turns: seq<Turn>, m: Message): seq<Turn> {
    if !Spoken(m) then turns
    else if |turns| > 0 && turns[|turns| - 1].role == m.role then
      turns[|turns| - 1 := Turn(m.role, MergeAll(turns[|turns| - 1].content, BlocksOf(image, m)))]
    else turns + [Turn(m.role, BlocksOf(image, m))]
  }

  function Merged(image: string -> Option<string>, ms: seq<Message>): seq<Turn> {
    if |ms| == 0 then [] else AddMessage(image, Merged(image, ms[..|ms| - 1]), ms[|ms| - 1])
  }

  function DropLeading(turns: seq<Turn>): seq<Turn> {
    if |turns| > 0 && turns[0].role.Assistant? then DropLeading(turns[1..]) else turns
  }

  function Systems(ms: seq<Message>): seq<string> {
    if |ms| == 0 then []
    else
      var before, m := Systems(ms[..|ms| - 1]), ms[|ms| - 1];
      if m.role.System? && !Blank(m.content) then before + [m.content] else before
  }

  /** The loop of the source: push, merge into the last turn in place, then shift leading assistants. */
  method Normalise(image: string -> Option<string>, messages: seq<Message>) returns (turns: seq<Turn>, systemParts: seq<string>)
    ensures turns == DropLeading(Merged(image, messages))
    ensures systemParts == Systems(messages)
  {
    hide MergeAll, BlocksOf, Blank;
    turns, systemParts := [], [];
    for i := 0 to |messages|
      invariant turns == Merged(image, messages[..i]) && systemParts == Systems(messages[..i])
    {
      var m := messages[i];
      assert messages[..i + 1][..i] == messages[..i];
      if m.role.System? {
        if !Blank(m.content) { systemParts := systemParts + [m.content]; }
        continue;
      }
      if !Spoken(m) { continue; }
      var blocks := ReadBlocks(image, m);
      if |turns| > 0 && turns[|turns| - 1].role == m.role {
        var content := MergeInto(turns[|turns| - 1].content, blocks);
        turns := turns[|turns| - 1 := Turn(m.role, content)];
      } else {
        turns := turns + [Turn(m.role, blocks)];
      }
    }
    assert messages[..|messages|] == messages;
    while |turns| > 0 && turns[0].role.Assistant?
      invariant DropLeading(turns) == DropLeading(Merged(image, messages))
    {
      turns := turns[1..];
    }
  }

  method MergeInto(start: seq<Block>, blocks: seq<Block>) returns (content: seq<Block>)
    ensures content == MergeAll(start, blocks)
  {
    content := start;
    for k := 0 to |blocks|
      invariant content == MergeAll(start, blocks[..k])
    {
      assert blocks[..k + 1][..k] == blocks[..k];
      var last := LastWritten(content);
      if blocks[k].Written? && last.Some? {
        var t := content[last.value].text;
        content := content[last.value := Written(if t == "" then blocks[k].text else t + BLANK_LINE + blocks[k].text)];
      } else {
        content := content + [blocks[k]];
      }
    }
    assert blocks[..|blocks|] == blocks;
  }

  method ReadBlocks(image: string -> Option<string>, m: Message) returns (blocks: seq<Block>)
    ensures blocks == BlocksOf(image, m)
  {
    blocks := [];
    for k := 0 to |m.images|
      invariant blocks == Pictures(image, m.images[..k])
    {
      assert m.images[..k + 1][..k] == m.images[..k];
      var img := image(m.images[k]);
      if img.Some? { blocks := blocks + [Picture(img.value)]; }
    }
    assert m.images[..|m.images|] == m.images;
    if !Blank(m.content) || |blocks| == 0 {
      blocks := blocks + [Written(if m.content == "" then " " else m.content)];
    }
  }

  // ---- what the turns should be ----

  /** The user and assistant messages, in order. */
  function Conversation(ms: seq<Message>): seq<Message> {
    if |ms| == 0 then []
    else if ms[|ms| - 1].role.User? || ms[|ms| - 1].role.Assistant? then Conversation(ms[..|ms| - 1]) + [ms[|ms| - 1]]
    else Conversation(ms[..|ms| - 1])
  }

  function Flat(groups: seq<seq<Message>>): seq<Message> {
    if |groups| == 0 then [] else groups[0] + Flat(groups[1..])
  }

  predicate Uniform(g: seq<Message>) {
    |g| > 0 && Spoken(g[0]) && forall i :: 0 <= i < |g| ==> g[i].role == g[0].role
  }

  /** Maximal runs: uniform, and neighbours speak differently. */
  predicate Runs(groups: seq<seq<Message>>) {
    && (forall i :: 0 <= i < |groups| ==> Uniform(groups[i]))
    && (forall i :: 0 < i < |groups| ==> groups[i][0].role != groups[i - 1][0].role)
  }

  function PicturesOf(content: seq<Block>): seq<string> {
    if |content| == 0 then []
    else
      var before, b := PicturesOf(content[..|content| - 1]), content[|content| - 1];
      if b.Picture? then before + [b.data] else before
  }

  function WrittenOf(content: seq<Block>): seq<string> {
    if |content| == 0 then []
    else
      var before, b := WrittenOf(content[..|content| - 1]), content[|content| - 1];
      if b.Written? then before + [b.text] else before
  }

  /** Texts with a blank line between each two. */
  function Join(texts: seq<string>): string
    requires |texts| > 0
  {
    if |texts| == 1 then texts[0] else Join(texts[..|texts| - 1]) + "\n\n" + texts[|texts| - 1]
  }

  function AllPictures(image: string -> Option<string>, g: seq<Message>): seq<string> {
    if |g| == 0 then []
    else AllPictures(image, g[..|g| - 1]) + Pick(g[|g| - 1].images, image)
  }

  /** A message is heard whenever it is not blank, and a blank one when no picture speaks for it. */
  function Heard(image: string -> Option<string>): Message -> Option<string> {
    (m: Message) =>
      if Text.Trim(m.content) != "" then Some(m.content)
      else if exists url :: url in m.images && image(url).Some? then None
      else Some(if m.content == "" then " " else m.content)
  }

  function AllTexts(image: string -> Option<string>, g: seq<Message>): seq<string> { Pick(g, Heard(image)) }

  lemma {:induction false} PicturesAreRead(image: string -> Option<string>, urls: seq<string>)
    ensures PicturesOf(Pictures(image, urls)) == Pick(urls, image)
    ensures |Pictures(image, urls)| == |Pick(urls, image)|
  {
    if |urls| > 0 {
      PicturesAreRead(image, urls[..|urls| - 1]);
      var last := image(urls[|urls| - 1]);
      if last.Some? { SnocOf(Pictures(image, urls[..|urls| - 1]), Picture(last.value)); }
    }
  }

  lemma {:induction false} NothingPicked(image: string -> Option<string>, urls: seq<string>)
    ensures |Pick(urls, image)| > 0 <==> exists url :: url in urls && image(url).Some?
  {
    if |urls| > 0 {
      var before, last := urls[..|urls| - 1], urls[|urls| - 1];
      NothingPicked(image, before);
      assert urls == before + [last];
    }
  }

  lemma OwnTextIsHeard(image: string -> Option<string>, m: Message)
    ensures OwnText(image, m) == Heard(image)(m)
  {
    PicturesAreRead(image, m.images);
    NothingPicked(image, m.images);
  }

  /** A turn says what its run of messages said: every picture in order, and one text, the join of theirs. */
  predicate SaysAll(image: string -> Option<string>, t: Turn, g: seq<Message>) {
    && Uniform(g) && t.role == g[0].role
    && PicturesOf(t.content) == AllPictures(image, g)
    && WrittenOf(t.content) == (if |AllTexts(image, g)| == 0 then [] else [Join(AllTexts(image, g))])
  }

  // ---- merging one message into a turn ----

  lemma SnocOf(content: seq<Block>, b: Block)
    ensures PicturesOf(content + [b]) == PicturesOf(content) + (if b.Picture? then [b.data] else [])
    ensures WrittenOf(content + [b]) == WrittenOf(content) + (if b.Written? then [b.text] else [])
  {
    assert (content + [b])[..|content|] == content;
  }

  lemma {:induction false} PicturesAreNotWritten(image: string -> Option<string>, urls: seq<string>)
    ensures WrittenOf(Pictures(image, urls)) == [] && |PicturesOf(Pictures(image, urls))| == |Pictures(image, urls)|
    ensures forall i :: 0 <= i < |Pictures(image, urls)| ==> Pictures(image, urls)[i].Picture?
  {
    if |urls| > 0 {
      PicturesAreNotWritten(image, urls[..|urls| - 1]);
      var last := image(urls[|urls| - 1]);
      if last.Some? { SnocOf(Pictures(image, urls[..|urls| - 1]), Picture(last.value)); }
    }
  }

  lemma {:induction false} MergePictures(content: seq<Block>, pictures: seq<Block>)
    requires forall i :: 0 <= i < |pictures| ==> pictures[i].Picture?
    ensures MergeAll(content, pictures) == content + pictures
  {
    if |pictures| > 0 {
      MergePictures(content, pictures[..|pictures| - 1]);
      assert pictures == pictures[..|pictures| - 1] + [pictures[|pictures| - 1]];
    } else {
      assert content + [] == content;
    }
  }

  lemma {:induction false} PicturesConcat(a: seq<Block>, b: seq<Block>)
    ensures PicturesOf(a + b) == PicturesOf(a) + PicturesOf(b)
    ensures WrittenOf(a + b) == WrittenOf(a) + WrittenOf(b)
    decreases |b|
  {
    if |b| == 0 {
      assert a + b == a;
    } else {
      PicturesConcat(a, b[..|b| - 1]);
      assert a + b == (a + b[..|b| - 1]) + [b[|b| - 1]];
      SnocOf(a + b[..|b| - 1], b[|b| - 1]);
    }
  }

  /** Replacing the only text leaves the pictures alone. */
  lemma {:induction false} ReplaceText(content: seq<Block>, t: string)
    requires |WrittenOf(content)| == 1 && LastWritten(content).Some?
    ensures var c := content[LastWritten(content).value := Written(t)];
      PicturesOf(c) == PicturesOf(content) && WrittenOf(c) == [t]
    ensures WrittenOf(content) == [content[LastWritten(content).value].text]
  {
    var before, b := content[..|content| - 1], content[|content| - 1];
    var i := LastWritten(content).value;
    var c := content[i := Written(t)];
    if b.Written? {
      assert c[..|c| - 1] == before;
      assert WrittenOf(before) == [];
    } else {
      ReplaceText(before, t);
      assert c[..|c| - 1] == before[i := Written(t)];
    }
  }

  lemma {:induction false} NoTextNoIndex(content: seq<Block>)
    ensures LastWritten(content).Some? <==> |WrittenOf(content)| > 0
  {
    if |content| > 0 { NoTextNoIndex(content[..|content| - 1]); }
  }

  /** One message merged into a turn that holds at most one text, which is never empty. */
  lemma MergeMessage(image: string -> Option<string>, content: seq<Block>, m: Message)
    requires |WrittenOf(content)| <= 1 && (|WrittenOf(content)| == 1 ==> WrittenOf(content)[0] != "")
    ensures var c := MergeAll(content, BlocksOf(image, m));
      && PicturesOf(c) == PicturesOf(content) + PicturesOf(Pictures(image, m.images))
      && WrittenOf(c) == (var t := OwnText(image, m);
           if t.None? then WrittenOf(content)
           else if |WrittenOf(content)| == 0 then [t.value]
           else [WrittenOf(content)[0] + BLANK_LINE + t.value])
  {
    var ps, t := Pictures(image, m.images), OwnText(image, m);
    PicturesAreNotWritten(image, m.images);
    MergePictures(content, ps);
    PicturesConcat(content, ps);
    if t.Some? {
      assert BlocksOf(image, m)[..|ps|] == ps;
      NoTextNoIndex(content + ps);
      if LastWritten(content + ps).Some? {
        ReplaceText(content + ps, WrittenOf(content)[0] + BLANK_LINE + t.value);
      } else {
        SnocOf(content + ps, Written(t.value));
      }
    } else {
      assert BlocksOf(image, m) == ps;
    }
  }

  lemma FirstMessage(image: string -> Option<string>, m: Message)
    ensures PicturesOf(BlocksOf(image, m)) == PicturesOf(Pictures(image, m.images))
    ensures WrittenOf(BlocksOf(image, m)) == (if OwnText(image, m).Some? then [OwnText(image, m).value] else [])
  {
    PicturesAreNotWritten(image, m.images);
    if OwnText(image, m).Some? {
      SnocOf(Pictures(image, m.images), Written(OwnText(image, m).value));
    } else {
      assert BlocksOf(image, m) == Pictures(image, m.images);
    }
  }

  lemma {:induction false} TextsAreNotEmpty(image: string -> Option<string>, g: seq<Message>)
    ensures forall i :: 0 <= i < |AllTexts(image, g)| ==> AllTexts(image, g)[i] != ""
    ensures |AllTexts(image, g)| > 0 ==> Join(AllTexts(image, g)) != ""
  {
    assert Text.Trim("") == "";
    if |g| > 0 { TextsAreNotEmpty(image, g[..|g| - 1]); }
  }

  lemma GroupSnoc(image: string -> Option<string>, g: seq<Message>, m: Message)
    ensures AllPictures(image, g + [m]) == AllPictures(image, g) + PicturesOf(Pictures(image, m.images))
    ensures AllTexts(image, g + [m]) == AllTexts(image, g) + (if OwnText(image, m).Some? then [OwnText(image, m).value] else [])
  {
    assert (g + [m])[..|g|] == g;
    PicturesAreRead(image, m.images);
    OwnTextIsHeard(image, m);
  }

  lemma JoinSnoc(texts: seq<string>, t: string)
    ensures Join(texts + [t]) == if |texts| == 0 then t else Join(texts) + BLANK_LINE + t
  {
    assert (texts + [t])[..|texts|] == texts;
  }

  lemma TurnGrows(image: string -> Option<string>, t: Turn, g: seq<Message>, m: Message)
    requires SaysAll(image, t, g) && m.role == g[0].role
    ensures SaysAll(image, Turn(m.role, MergeAll(t.content, BlocksOf(image, m))), g + [m])
  {
    hide Pictures, OwnText, MergeAll, BlocksOf, Join, AllTexts, AllPictures, PicturesOf, WrittenOf;
    TextsAreNotEmpty(image, g);
    GroupSnoc(image, g, m);
    MergeMessage(image, t.content, m);
    var texts := AllTexts(image, g);
    if OwnText(image, m).Some? {
      JoinSnoc(texts, OwnText(image, m).value);
    } else {
      assert texts + [] == texts;
    }
  }

  // ---- where in the turn the text stands ----

  function Shown(pictures: seq<string>): seq<Block> { seq(|pictures|, i requires 0 <= i < |pictures| => Picture(pictures[i])) }

  /** How many pictures come before the text: those of the messages up to the first one heard. */
  function TextPlace(image: string -> Option<string>, g: seq<Message>): (n: nat)
    ensures n <= |AllPictures(image, g)|
  {
    if |g| == 0 then 0
    else if AllTexts(image, g[..|g| - 1]) != [] then TextPlace(image, g[..|g| - 1])
    else |AllPictures(image, g)|
  }

  /** A turn block by block: pictures in order, and the one text behind the pictures of the first message heard. */
  function Layout(image: string -> Option<string>, g: seq<Message>): seq<Block> {
    var pictures, texts := AllPictures(image, g), AllTexts(image, g);
    if texts == [] then Shown(pictures)
    else
      var n := TextPlace(image, g);
      Shown(pictures[..n]) + [Written(Join(texts))] + Shown(pictures[n..])
  }

  lemma {:induction false} PicturesAreShown(image: string -> Option<string>, urls: seq<string>)
    ensures Pictures(image, urls) == Shown(Pick(urls, image))
  {
    if |urls| > 0 { PicturesAreShown(image, urls[..|urls| - 1]); }
  }

  lemma ShownTogether(a: seq<string>, b: seq<string>)
    ensures Shown(a + b) == Shown(a) + Shown(b)
  {
  }

  lemma TextMerges(a: seq<Block>, t: string, b: seq<Block>, more: string)
    requires t != "" && forall i :: 0 <= i < |b| ==> b[i].Picture?
    ensures Merge(a + [Written(t)] + b, Written(more)) == a + [Written(t + BLANK_LINE + more)] + b
  {
    var content := a + [Written(t)] + b;
    LastIsThere(a, t, b);
    assert content[|a|] == Written(t);
  }

  lemma {:induction false} LastIsThere(a: seq<Block>, t: string, b: seq<Block>)
    requires forall i :: 0 <= i < |b| ==> b[i].Picture?
    ensures LastWritten(a + [Written(t)] + b) == Some(|a|)
    decreases |b|
  {
    var content := a + [Written(t)] + b;
    if |b| > 0 {
      LastIsThere(a, t, b[..|b| - 1]);
      assert content[..|content| - 1] == a + [Written(t)] + b[..|b| - 1];
    } else {
      assert content == a + [Written(t)];
    }
  }

  lemma LayoutOneMore(image: string -> Option<string>, g: seq<Message>, m: Message)
    ensures var more, heard := Pick(m.images, image), Heard(image)(m);
      && (heard.None? ==> Layout(image, g + [m]) == Layout(image, g) + Shown(more))
      && (heard.Some? && AllTexts(image, g) == [] ==>
            Layout(image, g + [m]) == Layout(image, g) + Shown(more) + [Written(heard.value)])
      && (heard.Some? && AllTexts(image, g) != [] ==>
            var pictures, n := AllPictures(image, g), TextPlace(image, g);
            Layout(image, g + [m]) == Shown(pictures[..n]) + [Written(Join(AllTexts(image, g)) + BLANK_LINE + heard.value)]
                                      + (Shown(pictures[n..]) + Shown(more)))
  {
    hide Join, Heard, AllTexts, AllPictures, TextPlace, Pick;
    var pictures, texts, more, heard := AllPictures(image, g), AllTexts(image, g), Pick(m.images, image), Heard(image)(m);
    GroupOneMore(image, g, m);
    ShownTogether(pictures, more);
    if heard.Some? { JoinSnoc(texts, heard.value); } else { assert texts + [] == texts; }
    if texts != [] {
      var n := TextPlace(image, g);
      assert (pictures + more)[..n] == pictures[..n] && (pictures + more)[n..] == pictures[n..] + more;
      ShownTogether(pictures[n..], more);
      Regroup(Shown(pictures[..n]), Written(Join(texts)), Shown(pictures[n..]), Shown(more));
    } else {
      WholeAndNothing(pictures + more);
    }
  }

  lemma Regroup(a: seq<Block>, x: Block, b: seq<Block>, c: seq<Block>)
    ensures a + [x] + b + c == a + [x] + (b + c)
  {
  }

  lemma WholeAndNothing(all: seq<string>)
    ensures Shown(all[..|all|]) == Shown(all) && Shown(all[|all|..]) == []
    ensures forall x: Block :: Shown(all) + [x] + [] == Shown(all) + [x]
  {
    assert all[..|all|] == all;
  }

  lemma GroupOneMore(image: string -> Option<string>, g: seq<Message>, m: Message)
    ensures var more, heard := Pick(m.images, image), Heard(image)(m);
      && AllPictures(image, g + [m]) == AllPictures(image, g) + more
      && AllTexts(image, g + [m]) == AllTexts(image, g) + (if heard.Some? then [heard.value] else [])
      && TextPlace(image, g + [m]) == (if AllTexts(image, g) != [] then TextPlace(image, g) else |AllPictures(image, g) + more|)
  {
    hide Heard;
    assert (g + [m])[..|g|] == g;
  }

  lemma LayoutGrows(image: string -> Option<string>, g: seq<Message>, m: Message)
    ensures MergeAll(Layout(image, g), BlocksOf(image, m)) == Layout(image, g + [m])
  {
    hide Join, Heard, OwnText, AllTexts, AllPictures, TextPlace, Pick;
    var content, ps, more := Layout(image, g), Pictures(image, m.images), Pick(m.images, image);
    PicturesAreShown(image, m.images);
    OwnTextIsHeard(image, m);
    LayoutOneMore(image, g, m);
    MergePictures(content, ps);
    var heard := OwnText(image, m);
    if heard.None? {
      assert BlocksOf(image, m) == ps;
    } else {
      assert BlocksOf(image, m)[..|ps|] == ps && BlocksOf(image, m)[|ps|] == Written(heard.value);
      assert MergeAll(content, BlocksOf(image, m)) == Merge(content + ps, Written(heard.value));
      if AllTexts(image, g) != [] {
        TextsAreNotEmpty(image, g);
        var pictures, n := AllPictures(image, g), TextPlace(image, g);
        var a, b, t := Shown(pictures[..n]), Shown(pictures[n..]), Join(AllTexts(image, g));
        assert content + ps == a + [Written(t)] + (b + Shown(more));
        TextMerges(a, t, b + Shown(more), heard.value);
      }
    }
  }

  lemma LayoutStarts(image: string -> Option<string>, m: Message)
    ensures BlocksOf(image, m) == Layout(image, [m])
  {
    hide Join, Heard, OwnText, Pick;
    PicturesAreShown(image, m.images);
    OwnTextIsHeard(image, m);
    assert AllPictures(image, []) == [] && AllTexts(image, []) == [] by { assert Pick([], Heard(image)) == [] by { NothingToPick(image); } }
    LayoutOneMore(image, [], m);
    assert [] + [m] == [m];
    assert Layout(image, []) == [];
  }

  lemma NothingToPick(image: string -> Option<string>)
    ensures Pick([], Heard(image)) == []
  {
  }

  lemma {:induction false} MergedIsLaidOut(image: string -> Option<string>, ms: seq<Message>)
    ensures var turns, groups := Merged(image, ms), RunsOf(ms);
      |turns| == |groups| && forall i :: 0 <= i < |turns| ==> |groups[i]| > 0 && turns[i] == Turn(groups[i][0].role, Layout(image, groups[i]))
  {
    hide MergeAll, BlocksOf, Layout;
    if |ms| > 0 {
      var turns, groups, m := Merged(image, ms[..|ms| - 1]), RunsOf(ms[..|ms| - 1]), ms[|ms| - 1];
      MergedIsLaidOut(image, ms[..|ms| - 1]);
      if Spoken(m) {
        LayoutStarts(image, m);
        if |turns| > 0 { LayoutGrows(image, groups[|turns| - 1], m); }
      }
    }
  }

  lemma TurnStarts(image: string -> Option<string>, m: Message)
    requires Spoken(m)
    ensures SaysAll(image, Turn(m.role, BlocksOf(image, m)), [m])
  {
    FirstMessage(image, m);
    GroupSnoc(image, [], m);
    assert [] + [m] == [m];
  }

  // ---- the whole list ----

  function AddToRuns(groups: seq<seq<Message>>, m: Message): seq<seq<Message>> {
    if !Spoken(m) then groups
    else if |groups| > 0 && |groups[|groups| - 1]| > 0 && groups[|groups| - 1][0].role == m.role
    then groups[|groups| - 1 := groups[|groups| - 1] + [m]]
    else groups + [[m]]
  }

  function RunsOf(ms: seq<Message>): seq<seq<Message>> {
    if |ms| == 0 then [] else AddToRuns(RunsOf(ms[..|ms| - 1]), ms[|ms| - 1])
  }

  lemma {:induction false} FlatConcat(a: seq<seq<Message>>, b: seq<seq<Message>>)
    ensures Flat(a + b) == Flat(a) + Flat(b)
  {
    if |a| == 0 {
      assert a + b == b;
    } else {
      FlatConcat(a[1..], b);
      assert (a + b)[1..] == a[1..] + b && (a + b)[0] == a[0];
      Associates(a[0], Flat(a[1..]), Flat(b));
    }
  }

  lemma Associates(x: seq<Message>, y: seq<Message>, z: seq<Message>)
    ensures x + (y + z) == (x + y) + z
  {
  }

  lemma FlatSnoc(a: seq<seq<Message>>, g: seq<Message>)
    ensures Flat(a + [g]) == Flat(a) + g
  {
    FlatConcat(a, [g]);
    FlatOne(g);
  }

  lemma FlatOne(g: seq<Message>)
    ensures Flat([g]) == g
  {
    assert [g][1..] == [];
  }

  lemma {:induction false} RunsAreRuns(ms: seq<Message>)
    ensures Runs(RunsOf(ms)) && Flat(RunsOf(ms)) == Conversation(ms)
  {
    if |ms| > 0 {
      var before: seq<seq<Message>>, m := RunsOf(ms[..|ms| - 1]), ms[|ms| - 1];
      RunsAreRuns(ms[..|ms| - 1]);
      if Spoken(m) {
        var n := |before| - 1;
        if n >= 0 && before[n][0].role == m.role {
          assert before == before[..n] + [before[n]];
          assert RunsOf(ms) == before[..n] + [before[n] + [m]];
          FlatSnoc(before[..n], before[n]);
          FlatSnoc(before[..n], before[n] + [m]);
          Associates(Flat(before[..n]), before[n], [m]);
        } else {
          FlatSnoc(before, [m]);
        }
      }
    }
  }

  predicate SayAll(image: string -> Option<string>, turns: seq<Turn>, groups: seq<seq<Message>>) {
    |turns| == |groups| && forall i :: 0 <= i < |turns| ==> SaysAll(image, turns[i], groups[i])
  }

  lemma {:induction false} MergedSaysAll(image: string -> Option<string>, ms: seq<Message>)
    ensures SayAll(image, Merged(image, ms), RunsOf(ms))
  {
    hide SaysAll, MergeAll, BlocksOf;
    if |ms| > 0 {
      var turns, groups, m := Merged(image, ms[..|ms| - 1]), RunsOf(ms[..|ms| - 1]), ms[|ms| - 1];
      MergedSaysAll(image, ms[..|ms| - 1]);
      if Spoken(m) {
        TurnStarts(image, m);
        if |turns| > 0 {
          SameRole(image, turns[|turns| - 1], groups[|turns| - 1]);
          if turns[|turns| - 1].role == m.role { TurnGrows(image, turns[|turns| - 1], groups[|turns| - 1], m); }
        }
      }
    }
  }

  lemma SameRole(image: string -> Option<string>, t: Turn, g: seq<Message>)
    requires SaysAll(image, t, g)
    ensures |g| > 0 && t.role == g[0].role && Spoken(g[0])
  {
  }

  /** What is kept: everything from the first user message on. */
  function FromFirstUser(ms: seq<Message>): seq<Message> {
    if |ms| > 0 && ms[0].role.Assistant? then FromFirstUser(ms[1..]) else ms
  }

  lemma {:induction false} SkipAssistants(g: seq<Message>, rest: seq<Message>)
    requires forall i :: 0 <= i < |g| ==> g[i].role.Assistant?
    ensures FromFirstUser(g + rest) == FromFirstUser(rest)
  {
    if |g| == 0 {
      assert g + rest == rest;
    } else {
      SkipAssistants(g[1..], rest);
      assert (g + rest)[1..] == g[1..] + rest;
    }
  }

  /** Shifting leading assistant turns is dropping the messages before the first user message. */
  lemma {:induction false} ShiftDropsOrphans(image: string -> Option<string>, turns: seq<Turn>, groups: seq<seq<Message>>)
    returns (k: nat)
    requires SayAll(image, turns, groups) && Runs(groups)
    ensures k <= |turns| && DropLeading(turns) == turns[k..]
    ensures Flat(groups[k..]) == FromFirstUser(Flat(groups))
    ensures k < |turns| ==> turns[k].role.User?
    ensures k <= 1
  {
    hide SaysAll;
    if |turns| == 0 || !turns[0].role.Assistant? {
      k := 0;
      if |turns| > 0 {
        SameRole(image, turns[0], groups[0]);
        assert Flat(groups)[0] == groups[0][0];
      }
    } else {
      k := 1;
      SameRole(image, turns[0], groups[0]);
      if |turns| > 1 {
        SameRole(image, turns[1], groups[1]);
        assert Flat(groups[1..])[0] == groups[1][0];
        assert DropLeading(turns[1..]) == turns[1..];
      }
      SkipAssistants(groups[0], Flat(groups[1..]));
    }
  }

  /**
   For every message list: the turns start with the user and strictly alternate; they are, run by run,
   the conversation from its first user message on; and each says all its run said, in one text.
   */
  lemma TurnsAreTheConversation(image: string -> Option<string>, ms: seq<Message>) returns (groups: seq<seq<Message>>)
    ensures var turns := DropLeading(Merged(image, ms));
      && SayAll(image, turns, groups) && Runs(groups)
      && (forall i :: 0 <= i < |turns| ==> turns[i].content == Layout(image, groups[i]))
      && Flat(groups) == FromFirstUser(Conversation(ms))
      && (|turns| > 0 ==> turns[0].role.User?)
      && (forall i :: 0 < i < |turns| ==> turns[i].role != turns[i - 1].role)
      && (forall i :: 0 <= i < |turns| ==> |turns[i].content| > 0)
  {
    hide SaysAll, Merged, RunsOf, Layout;
    MergedSaysAll(image, ms);
    MergedIsLaidOut(image, ms);
    RunsAreRuns(ms);
    var k := ShiftDropsOrphans(image, Merged(image, ms), RunsOf(ms));
    groups := RunsOf(ms)[k..];
    var turns := DropLeading(Merged(image, ms));
    forall i | 0 <= i < |turns| ensures |turns[i].content| > 0 && turns[i].role == groups[i][0].role {
      NeverEmpty(image, turns[i], groups[i]);
    }
  }

  lemma NeverEmpty(image: string -> Option<string>, t: Turn, g: seq<Message>)
    requires SaysAll(image, t, g)
    ensures |t.content| > 0 && t.role == g[0].role
  {
    var m := g[|g| - 1];
    PicturesAreNotWritten(image, m.images);
    NothingPicked(image, m.images);
    assert |AllPictures(image, g)| + |AllTexts(image, g)| > 0;
  }

  lemma SystemsSnoc(ms: seq<Message>, m: Message)
    ensures Systems(ms + [m]) == Systems(ms) + (if m.role.System? && Text.Trim(m.content) != "" then [m.content] else [])
  {
    assert (ms + [m])[..|ms|] == ms;
  }

  /** Wherever a message stands, its system text is hoisted in that place, and nothing else is. */
  lemma {:induction false} SystemsAreHoistedInOrder(a: seq<Message>, m: Message, b: seq<Message>)
    ensures Systems(a + [m] + b)
         == Systems(a) + (if m.role.System? && Text.Trim(m.content) != "" then [m.content] else []) + Systems(b)
    decreases |b|
  {
    if |b| == 0 {
      assert a + [m] + b == a + [m];
      SystemsSnoc(a, m);
    } else {
      var b', last := b[..|b| - 1], b[|b| - 1];
      SystemsAreHoistedInOrder(a, m, b');
      assert a + [m] + b == (a + [m] + b') + [last];
      SystemsSnoc(a + [m] + b', last);
    }
  }
}
