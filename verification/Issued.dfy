/**
 Certificates written field by field, and read back by the reader of module Certificate
 (src/x509.ts:155-290): every extension list gives its identifiers in order and the last CA flag.

 What is written: an optional version, the fields of the reader in its order with two copies of the
 algorithm, and a trailer in which other fields may stand around the extensions. An extension may be
 marked critical or not, and only the contents of basicConstraints matter here. Reading goes part by
 part, each read where the one before it ended, so the lemmas speak of a part inside any longer byte
 string.
 */
module Issued {
  import opened Wrappers
  import opened Der
  import opened Certificate

  predicate Short(s: seq<Byte>) { |s| < 0x1_0000_0000 }

  // ---- TLVs standing one after another ----

  function Cat(parts: seq<seq<Byte>>): seq<Byte> {
    if |parts| == 0 then [] else Cat(parts[..|parts| - 1]) + parts[|parts| - 1]
  }

  /** Where part `i` starts, when the parts stand after `n` bytes. */
  function At(n: nat, parts: seq<seq<Byte>>, i: nat): (r: nat)
    requires i <= |parts|
  {
    n + |Cat(parts[..i])|
  }

  lemma AtNext(n: nat, parts: seq<seq<Byte>>, i: nat)
    requires i < |parts|
    ensures At(n, parts, i + 1) == At(n, parts, i) + |parts[i]|
    ensures Cat(parts[..i + 1]) == Cat(parts[..i]) + parts[i]
  {
    assert parts[..i + 1][..i] == parts[..i];
  }

  lemma {:induction false} CatSplits(parts: seq<seq<Byte>>, i: nat) returns (rest: seq<Byte>)
    requires i <= |parts|
    ensures Cat(parts) == Cat(parts[..i]) + rest
    decreases |parts|
  {
    if i == |parts| {
      rest := [];
      assert parts[..i] == parts && Cat(parts) + [] == Cat(parts);
    } else {
      var init := parts[..|parts| - 1];
      var r := CatSplits(init, i);
      assert init[..i] == parts[..i];
      rest := r + parts[|parts| - 1];
      assert Cat(parts[..i]) + (r + parts[|parts| - 1]) == (Cat(parts[..i]) + r) + parts[|parts| - 1];
    }
  }

  /** Part `i`, found where it stands. */
  lemma PartIsRead(der: seq<Byte>, before: seq<Byte>, parts: seq<seq<Byte>>, after: seq<Byte>, i: nat,
                   tag: Byte, content: seq<Byte>) returns (t: Tlv)
    requires der == before + Cat(parts) + after && i < |parts|
    requires !LongTag(tag) && Short(content) && parts[i] == Write(tag, content)
    ensures Reads(der, At(|before|, parts, i), tag, t)
    ensures t.contentEnd == At(|before|, parts, i + 1) && t.start <= t.contentStart
    ensures t.contentStart <= t.contentEnd <= |der|
    ensures Whole(der, t) == parts[i] && Content(der, t) == content
  {
    hide TlvAt, Write, Cat;
    var rest := CatSplits(parts, i + 1);
    AtNext(|before|, parts, i);
    var head := before + Cat(parts[..i]);
    Standing(before, Cat(parts[..i]), parts[i], rest, after);
    ReadAt(der, head, tag, content, rest + after);
    WholeIs(der, head, parts[i], rest + after);
    InBounds(der, |head|);
    t := TlvAt(der, |head|).value;
  }

  lemma Standing(before: seq<Byte>, a: seq<Byte>, b: seq<Byte>, c: seq<Byte>, after: seq<Byte>)
    ensures before + ((a + b) + c) + after == (before + a) + b + (c + after)
  {
  }

  /** What a TLV holds, as bytes of their own in the same place. */
  lemma ContentStands(der: seq<Byte>, t: Tlv)
    requires t.contentStart <= t.contentEnd <= |der|
    ensures der == der[..t.contentStart] + Content(der, t) + der[t.contentEnd..]
    ensures |der[..t.contentStart]| == t.contentStart
  {
  }

  // ---- extensions ----

  /** What an extension carries; a CA flag is absent or one byte, with anything but a boolean behind it. */
  datatype Value = Plain(bytes: seq<Byte>) | Constraints(flag: Option<Byte>, rest: seq<Byte>)

  datatype Extension = Extension(id: seq<Byte>, critical: Option<Byte>, value: Value)

  function OptionalBoolean(b: Option<Byte>): seq<Byte> { if b.Some? then Write(BOOLEAN, [b.value]) else [] }

  predicate ShortValue(v: Value) { v.Constraints? ==> Short(OptionalBoolean(v.flag) + v.rest) }

  function ValueBytes(v: Value): seq<Byte>
    requires ShortValue(v)
  {
    match v
    case Plain(b) => b
    case Constraints(flag, rest) => Write(SEQUENCE, OptionalBoolean(flag) + rest)
  }

  /** The parts inside an extension. */
  function Inner(x: Extension): seq<seq<Byte>>
    requires Short(x.id) && ShortValue(x.value) && Short(ValueBytes(x.value))
  {
    if x.critical.Some?
    then [Write(OID, x.id), Write(BOOLEAN, [x.critical.value]), Write(OCTET_STRING, ValueBytes(x.value))]
    else [Write(OID, x.id), Write(OCTET_STRING, ValueBytes(x.value))]
  }

  /** Every length fits four bytes, and a basicConstraints extension carries constraints. */
  predicate Sound(x: Extension) {
    && Short(x.id) && ShortValue(x.value) && Short(ValueBytes(x.value)) && Short(Cat(Inner(x)))
    && (Write(OID, x.id) == BASIC_CONSTRAINTS ==> x.value.Constraints?)
    && (x.value.Constraints? && x.value.flag.None? && |x.value.rest| > 0 ==> x.value.rest[0] != BOOLEAN)
  }

  function WriteExtension(x: Extension): seq<Byte>
    requires Sound(x)
  {
    Write(SEQUENCE, Cat(Inner(x)))
  }

  predicate AllSound(xs: seq<Extension>) { forall i :: 0 <= i < |xs| ==> Sound(xs[i]) }

  function Written(xs: seq<Extension>): seq<seq<Byte>>
    requires AllSound(xs)
  {
    seq(|xs|, i requires 0 <= i < |xs| => WriteExtension(xs[i]))
  }

  // ---- what a list of extensions says ----

  function Ids(xs: seq<Extension>): seq<seq<Byte>>
    requires AllSound(xs)
  {
    seq(|xs|, i requires 0 <= i < |xs| => Write(OID, xs[i].id))
  }

  predicate SaysCa(x: Extension)
    requires Short(x.id)
  {
    Write(OID, x.id) == BASIC_CONSTRAINTS && x.value.Constraints? && x.value.flag.Some?
  }

  /** The CA flags present, in order. */
  function Flags(xs: seq<Extension>): seq<bool>
    requires AllSound(xs)
  {
    if |xs| == 0 then []
    else
      var before, x := Flags(xs[..|xs| - 1]), xs[|xs| - 1];
      if SaysCa(x) then before + [x.value.flag.value != 0] else before
  }

  function LastOf(flags: seq<bool>, otherwise: bool): bool {
    if |flags| == 0 then otherwise else flags[|flags| - 1]
  }

  // ---- reading one extension back ----

  lemma FlagIsRead(der: seq<Byte>, value: Tlv, v: Value, current: bool)
    requires value.contentStart <= value.contentEnd <= |der|
    requires v.Constraints? && ShortValue(v) && Content(der, value) == ValueBytes(v)
    requires v.flag.None? && |v.rest| > 0 ==> v.rest[0] != BOOLEAN
    ensures CaFlag(der, value, current) == Some(if v.flag.Some? then v.flag.value != 0 else current)
  {
    hide TlvAt, Write;
    var held := OptionalBoolean(v.flag) + v.rest;
    ContentStands(der, value);
    ReadAt(der, der[..value.contentStart], SEQUENCE, held, der[value.contentEnd..]);
    var bc := TlvAt(der, value.contentStart).value;
    InBounds(der, value.contentStart);
    ContentStands(der, bc);
    if v.flag.Some? {
      PresentFlag(der, bc, v.flag.value, v.rest);
    } else if |v.rest| > 0 {
      assert held == v.rest && der[bc.contentStart] == v.rest[0];
      TagIsFirstByte(der, bc.contentStart);
    }
  }

  lemma PresentFlag(der: seq<Byte>, bc: Tlv, b: Byte, rest: seq<Byte>)
    requires bc.contentStart <= bc.contentEnd <= |der| && Content(der, bc) == Write(BOOLEAN, [b]) + rest
    ensures bc.contentEnd > bc.contentStart
    ensures var ca := TlvAt(der, bc.contentStart);
      && ca.Some? && ca.value.tag == BOOLEAN && ca.value.contentEnd - ca.value.contentStart == 1
      && der[ca.value.contentStart] == b
  {
    hide TlvAt, Write;
    ContentStands(der, bc);
    var before, after := der[..bc.contentStart], der[bc.contentEnd..];
    assert der == before + Write(BOOLEAN, [b]) + (rest + after);
    ReadAt(der, before, BOOLEAN, [b], rest + after);
    WriteIsShort(BOOLEAN, [b]);
    InBounds(der, bc.contentStart);
    var ca := TlvAt(der, bc.contentStart).value;
    assert der[ca.contentStart..ca.contentEnd][0] == b;
  }

  lemma TagIsFirstByte(der: seq<Byte>, off: nat)
    ensures TlvAt(der, off).Some? ==> off < |der| && TlvAt(der, off).value.tag == der[off]
  {
  }

  lemma ExtensionIsRead(der: seq<Byte>, e: nat, x: Extension, before: seq<Byte>, after: seq<Byte>, said: Said)
    requires Sound(x) && der == before + WriteExtension(x) + after && e == |before|
    ensures OneExtension(der, e, said)
         == Some((Said(if SaysCa(x) then x.value.flag.value != 0 else said.isCa, said.oids + [Write(OID, x.id)]),
                  e + |WriteExtension(x)|))
  {
    hide TlvAt, Write, CaFlag, Cat;
    var parts := Inner(x);
    ReadAt(der, before, SEQUENCE, Cat(parts), after);
    InBounds(der, e);
    var ext := TlvAt(der, e).value;
    ContentStands(der, ext);
    var pre, post := der[..ext.contentStart], der[ext.contentEnd..];
    AtStart(|pre|, parts);
    var id := PartIsRead(der, pre, parts, post, 0, OID, x.id);
    var last := |parts| - 1;
    var value := PartIsRead(der, pre, parts, post, last, OCTET_STRING, ValueBytes(x.value));
    if x.critical.Some? {
      var critical := PartIsRead(der, pre, parts, post, 1, BOOLEAN, [x.critical.value]);
    }
    if x.value.Constraints? {
      FlagIsRead(der, value, x.value, said.isCa);
    }
  }

  lemma AtStart(n: nat, parts: seq<seq<Byte>>)
    ensures At(n, parts, 0) == n
  {
  }

  /** From the k-th extension on, having said what the first k say. */
  lemma {:induction false} ListIsRead(der: seq<Byte>, before: seq<Byte>, xs: seq<Extension>, after: seq<Byte>, k: nat, start: bool, ids: seq<seq<Byte>>)
    requires AllSound(xs) && k <= |xs| && der == before + Cat(Written(xs)) + after
    ensures AllSound(xs[..k])
    ensures ExtensionList(der, At(|before|, Written(xs), k), At(|before|, Written(xs), |xs|),
                          Said(LastOf(Flags(xs[..k]), start), ids + Ids(xs[..k])))
         == Some(Said(LastOf(Flags(xs), start), ids + Ids(xs)))
    decreases |xs| - k
  {
    hide OneExtension, WriteExtension, Cat, Write, SaysCa, Sound;
    var parts := Written(xs);
    if k == |xs| {
      assert xs[..k] == xs;
    } else {
      ListIsRead(der, before, xs, after, k + 1, start, ids);
      AtNext(|before|, parts, k);
      AtGrows(|before|, parts, k + 1);
      var rest := CatSplits(parts, k + 1);
      Standing(before, Cat(parts[..k]), parts[k], rest, after);
      var said := Said(LastOf(Flags(xs[..k]), start), ids + Ids(xs[..k]));
      ExtensionIsRead(der, At(|before|, parts, k), xs[k], before + Cat(parts[..k]), rest + after, said);
      ExtensionIsSomething(xs[k]);
      IdsSnoc(xs, k, ids);
      FlagsSnoc(xs, k, start);
    }
  }

  lemma ExtensionIsSomething(x: Extension)
    requires Sound(x)
    ensures |WriteExtension(x)| > 0
  {
    WriteIsShort(SEQUENCE, Cat(Inner(x)));
  }

  lemma IdsSnoc(xs: seq<Extension>, k: nat, ids: seq<seq<Byte>>)
    requires AllSound(xs) && k < |xs|
    ensures AllSound(xs[..k]) && AllSound(xs[..k + 1]) && Short(xs[k].id)
    ensures ids + Ids(xs[..k + 1]) == ids + Ids(xs[..k]) + [Write(OID, xs[k].id)]
  {
    hide Write, ShortValue, ValueBytes, Inner, Cat;
    assert xs[..k + 1] == xs[..k] + [xs[k]];
    IdsConcat(xs[..k], [xs[k]]);
    assert Ids([xs[k]]) == [Write(OID, xs[k].id)];
    assert ids + (Ids(xs[..k]) + Ids([xs[k]])) == ids + Ids(xs[..k]) + Ids([xs[k]]);
  }

  lemma FlagsSnoc(xs: seq<Extension>, k: nat, start: bool)
    requires AllSound(xs) && k < |xs|
    ensures AllSound(xs[..k]) && AllSound(xs[..k + 1])
    ensures LastOf(Flags(xs[..k + 1]), start)
         == if SaysCa(xs[k]) then xs[k].value.flag.value != 0 else LastOf(Flags(xs[..k]), start)
  {
    assert xs[..k + 1][..k] == xs[..k];
  }

  lemma {:induction false} AtGrows(n: nat, parts: seq<seq<Byte>>, i: nat)
    requires i <= |parts|
    ensures At(n, parts, i) <= At(n, parts, |parts|)
  {
    var rest := CatSplits(parts, i);
    assert parts[..|parts|] == parts;
  }

  // ---- the trailing fields ----

  /** An optional trailing field: the extensions, or anything else, which is passed over. */
  datatype Trailing = Other(tag: Byte, content: seq<Byte>) | Extensions(list: seq<Extension>)

  predicate SoundTrailing(t: Trailing) {
    match t
    case Other(tag, content) => tag != EXTENSIONS && !LongTag(tag) && Short(content)
    case Extensions(xs) => AllSound(xs) && Short(Cat(Written(xs))) && Short(Write(SEQUENCE, Cat(Written(xs))))
  }

  function WriteTrailing(t: Trailing): seq<Byte>
    requires SoundTrailing(t)
  {
    match t
    case Other(tag, content) => Write(tag, content)
    case Extensions(xs) => Write(EXTENSIONS, Write(SEQUENCE, Cat(Written(xs))))
  }

  predicate AllTrailing(ts: seq<Trailing>) { forall i :: 0 <= i < |ts| ==> SoundTrailing(ts[i]) }

  function WrittenTrailer(ts: seq<Trailing>): seq<seq<Byte>>
    requires AllTrailing(ts)
  {
    seq(|ts|, i requires 0 <= i < |ts| => WriteTrailing(ts[i]))
  }

  /** Every extension of the trailer, in order. */
  function ExtensionsOf(ts: seq<Trailing>): (xs: seq<Extension>)
    requires AllTrailing(ts)
    ensures AllSound(xs)
  {
    if |ts| == 0 then []
    else
      var before, t := ExtensionsOf(ts[..|ts| - 1]), ts[|ts| - 1];
      if t.Extensions? then before + t.list else before
  }

  lemma FlagsOfOneMore(xs: seq<Extension>, x: Extension)
    requires AllSound(xs) && Sound(x)
    ensures AllSound(xs + [x])
    ensures Flags(xs + [x]) == if SaysCa(x) then Flags(xs) + [x.value.flag.value != 0] else Flags(xs)
  {
    assert (xs + [x])[..|xs|] == xs;
  }

  lemma {:induction false} FlagsConcat(a: seq<Extension>, b: seq<Extension>, start: bool)
    requires AllSound(a) && AllSound(b)
    ensures AllSound(a + b)
    ensures LastOf(Flags(a + b), start) == LastOf(Flags(b), LastOf(Flags(a), start))
    decreases |b|
  {
    hide Sound, SaysCa, Flags;
    if |b| == 0 {
      assert a + b == a;
      NoFlags();
    } else {
      var init, x := b[..|b| - 1], b[|b| - 1];
      FlagsConcat(a, init, start);
      assert a + b == (a + init) + [x] && b == init + [x];
      FlagsOfOneMore(a + init, x);
      FlagsOfOneMore(init, x);
    }
  }

  lemma NoFlags()
    ensures Flags([]) == []
  {
  }

  lemma IdsConcat(a: seq<Extension>, b: seq<Extension>)
    requires AllSound(a) && AllSound(b)
    ensures AllSound(a + b) && Ids(a + b) == Ids(a) + Ids(b)
  {
    hide Write, ShortValue, ValueBytes, Inner, Cat;
  }

  /** From the k-th trailing field on, having said what the first k say. */
  lemma {:induction false} TrailerFrom(der: seq<Byte>, before: seq<Byte>, ts: seq<Trailing>, after: seq<Byte>, k: nat)
    requires AllTrailing(ts) && k <= |ts| && der == before + Cat(WrittenTrailer(ts)) + after
    ensures AllTrailing(ts[..k])
    ensures var done, all := ExtensionsOf(ts[..k]), ExtensionsOf(ts);
      Trailer(der, At(|before|, WrittenTrailer(ts), k), At(|before|, WrittenTrailer(ts), |ts|),
              Said(LastOf(Flags(done), false), Ids(done)))
      == Some(Said(LastOf(Flags(all), false), Ids(all)))
    decreases |ts| - k
  {
    hide SoundTrailing, WriteTrailing, Cat, Sound, Flags, TlvAt, Write, ExtensionList;
    var parts := WrittenTrailer(ts);
    if k == |ts| {
      assert ts[..k] == ts;
    } else {
      TrailerFrom(der, before, ts, after, k + 1);
      AtGrows(|before|, parts, k + 1);
      TrailingIsRead(der, before, ts, after, k);
      assert ts[..k + 1][..k] == ts[..k];
    }
  }

  /** One trailing field. */
  lemma TrailingIsRead(der: seq<Byte>, before: seq<Byte>, ts: seq<Trailing>, after: seq<Byte>, k: nat)
    requires AllTrailing(ts) && k < |ts| && der == before + Cat(WrittenTrailer(ts)) + after
    ensures AllTrailing(ts[..k]) && AllTrailing(ts[..k + 1])
    ensures var parts := WrittenTrailer(ts);
      var done, next := ExtensionsOf(ts[..k]), ExtensionsOf(ts[..k + 1]);
      var said := Said(LastOf(Flags(done), false), Ids(done));
      var t := TlvAt(der, At(|before|, parts, k));
      && t.Some? && t.value.contentEnd == At(|before|, parts, k + 1) > At(|before|, parts, k)
      && (t.value.tag != EXTENSIONS ==> next == done)
      && (t.value.tag == EXTENSIONS ==>
            var list := TlvAt(der, t.value.contentStart);
            && list.Some? && list.value.tag == SEQUENCE
            && ExtensionList(der, list.value.contentStart, list.value.contentEnd, said)
               == Some(Said(LastOf(Flags(next), false), Ids(next))))
  {
    hide Cat, Sound, Flags, TlvAt, Write, ExtensionList;
    var parts := WrittenTrailer(ts);
    assert ts[..k + 1][..k] == ts[..k];
    var done := ExtensionsOf(ts[..k]);
    match ts[k]
    case Other(tag, content) =>
      var t := PartIsRead(der, before, parts, after, k, tag, content);
      InBounds(der, At(|before|, parts, k));
    case Extensions(xs) =>
      var held := Write(SEQUENCE, Cat(Written(xs)));
      var t := PartIsRead(der, before, parts, after, k, EXTENSIONS, held);
      InBounds(der, At(|before|, parts, k));
      ListInside(der, t, xs, LastOf(Flags(done), false), Ids(done));
      FlagsConcat(done, xs, false);
      IdsConcat(done, xs);
  }

  lemma ListInside(der: seq<Byte>, t: Tlv, xs: seq<Extension>, start: bool, ids: seq<seq<Byte>>)
    requires AllSound(xs) && Short(Cat(Written(xs)))
    requires t.contentStart <= t.contentEnd <= |der| && Content(der, t) == Write(SEQUENCE, Cat(Written(xs)))
    ensures var list := TlvAt(der, t.contentStart);
      && list.Some? && list.value.tag == SEQUENCE
      && ExtensionList(der, list.value.contentStart, list.value.contentEnd, Said(start, ids))
         == Some(Said(LastOf(Flags(xs), start), ids + Ids(xs)))
  {
    hide Cat, Sound, Flags, TlvAt, Write, ExtensionList;
    ContentStands(der, t);
    ReadAt(der, der[..t.contentStart], SEQUENCE, Cat(Written(xs)), der[t.contentEnd..]);
    InBounds(der, t.contentStart);
    var list := TlvAt(der, t.contentStart).value;
    ContentStands(der, list);
    ListIsRead(der, der[..list.contentStart], xs, der[list.contentEnd..], 0, start, ids);
    NothingYet(list.contentStart, Written(xs), xs, start, ids);
  }

  lemma NothingYet(n: nat, parts: seq<seq<Byte>>, xs: seq<Extension>, start: bool, ids: seq<seq<Byte>>)
    requires AllSound(xs)
    ensures xs[..0] == [] && LastOf(Flags([]), start) == start && ids + Ids([]) == ids
    ensures At(n, parts, 0) == n && At(n, parts, |parts|) == n + |Cat(parts)|
  {
    assert parts[..|parts|] == parts;
  }

  /**
   A written trailer is read back whole: the identifiers of all its extensions in order, and the last CA
   flag among its basicConstraints, or false when there is none.
   */
  lemma TrailerUndoesWrite(der: seq<Byte>, before: seq<Byte>, ts: seq<Trailing>, after: seq<Byte>)
    requires AllTrailing(ts) && der == before + Cat(WrittenTrailer(ts)) + after
    ensures var xs := ExtensionsOf(ts);
      Trailer(der, |before|, |before| + |Cat(WrittenTrailer(ts))|, Said(false, []))
      == Some(Said(LastOf(Flags(xs), false), Ids(xs)))
  {
    hide Cat, Trailer, Flags, SoundTrailing, WriteTrailing;
    TrailerFrom(der, before, ts, after, 0);
    assert ts[..0] == [];
    NothingYet(|before|, WrittenTrailer(ts), [], false, []);
  }

  // ---- the whole certificate ----

  datatype Time = Time(tag: Byte, text: seq<Byte>)

  datatype Request = Request(
    version: Option<seq<Byte>>, serial: seq<Byte>, issuer: seq<Byte>, notBefore: Time, notAfter: Time,
    subject: seq<Byte>, curve: seq<Byte>, keyBits: seq<Byte>, trailer: seq<Trailing>)

  /** The issuer's algorithm, as it stands in both places. */
  datatype Algorithm = Algorithm(oid: seq<Byte>, parameters: seq<Byte>)

  function Validity(c: Request): seq<seq<Byte>>
    requires Short(c.notBefore.text) && Short(c.notAfter.text)
  {
    [Write(c.notBefore.tag, c.notBefore.text), Write(c.notAfter.tag, c.notAfter.text)]
  }

  function KeyAlgorithm(c: Request): seq<seq<Byte>> { [EC_PUBLIC_KEY, c.curve] }

  function KeyInfo(c: Request): seq<seq<Byte>>
    requires Short(Cat(KeyAlgorithm(c)))
  {
    [Write(SEQUENCE, Cat(KeyAlgorithm(c))), c.keyBits]
  }

  /** Every length fits four bytes, and the tags, curve and algorithm are ones the reader knows. */
  predicate SoundRequest(c: Request, a: Algorithm) {
    && (c.version.Some? ==> Short(c.version.value))
    && Short(c.serial) && Short(a.oid + a.parameters) && Short(c.issuer) && Short(c.subject)
    && Short(c.notBefore.text) && Short(c.notAfter.text) && Short(Cat(Validity(c)))
    && !LongTag(c.notBefore.tag) && !LongTag(c.notAfter.tag)
    && c.curve in {P256, P384} && a.oid in {ECDSA_SHA256, ECDSA_SHA384}
    && Short(Cat(KeyAlgorithm(c))) && Short(Cat(KeyInfo(c)))
    && AllTrailing(c.trailer)
  }

  function Head(c: Request): seq<seq<Byte>>
    requires c.version.Some? ==> Short(c.version.value)
  {
    if c.version.Some? then [Write(VERSION, c.version.value)] else []
  }

  function Body(c: Request, a: Algorithm): seq<seq<Byte>>
    requires SoundRequest(c, a)
  {
    [Write(INTEGER, c.serial), Write(SEQUENCE, a.oid + a.parameters), Write(SEQUENCE, c.issuer),
     Write(SEQUENCE, Cat(Validity(c))), Write(SEQUENCE, c.subject), Write(SEQUENCE, Cat(KeyInfo(c))),
     Cat(WrittenTrailer(c.trailer))]
  }

  /** The signed part. */
  function Signed(c: Request, a: Algorithm): seq<Byte>
    requires SoundRequest(c, a)
  {
    Cat(Head(c) + Body(c, a))
  }

  lemma KnownCurve(curve: seq<Byte>)
    requires curve in {P256, P384}
    ensures |curve| > 2 && Short(curve[2..]) && curve == Write(OID, curve[2..])
    ensures |EC_PUBLIC_KEY| > 2 && Short(EC_PUBLIC_KEY[2..]) && EC_PUBLIC_KEY == Write(OID, EC_PUBLIC_KEY[2..])
  {
  }

  lemma TimesAreRead(der: seq<Byte>, validity: Tlv, c: Request, time: (Byte, seq<Byte>) -> Option<int>) returns (t: Times)
    requires Short(c.notBefore.text) && Short(c.notAfter.text)
    requires !LongTag(c.notBefore.tag) && !LongTag(c.notAfter.tag)
    requires validity.contentStart <= validity.contentEnd <= |der| && Content(der, validity) == Cat(Validity(c))
    requires time(c.notBefore.tag, c.notBefore.text).Some? && time(c.notAfter.tag, c.notAfter.text).Some?
    ensures TimesShape(der, validity, time, t)
  {
    hide TlvAt, Write, Cat;
    var parts := Validity(c);
    var before, after := der[..validity.contentStart], der[validity.contentEnd..];
    ContentStands(der, validity);
    var notBefore := PartIsRead(der, before, parts, after, 0, c.notBefore.tag, c.notBefore.text);
    var notAfter := PartIsRead(der, before, parts, after, 1, c.notAfter.tag, c.notAfter.text);
    Ends(|before|, parts);
    t := Times(notBefore, notAfter, time(c.notBefore.tag, c.notBefore.text).value, time(c.notAfter.tag, c.notAfter.text).value);
  }

  lemma Ends(n: nat, parts: seq<seq<Byte>>)
    ensures At(n, parts, 0) == n && At(n, parts, |parts|) == n + |Cat(parts)|
  {
    assert parts[..|parts|] == parts;
  }

  lemma KeyIsRead(der: seq<Byte>, spki: Tlv, off: int, c: Request) returns (k: Key)
    requires Reads(der, off, SEQUENCE, spki) && c.curve in {P256, P384}
    requires Short(Cat(KeyAlgorithm(c)))
    requires spki.contentStart <= spki.contentEnd <= |der| && Content(der, spki) == Cat(KeyInfo(c))
    ensures KeyShape(der, off, k) && k.spki == spki && Whole(der, k.curve) == c.curve
  {
    hide TlvAt, Write, Cat;
    KnownCurve(c.curve);
    var outer, inner := KeyInfo(c), KeyAlgorithm(c);
    ContentStands(der, spki);
    var algorithm := PartIsRead(der, der[..spki.contentStart], outer, der[spki.contentEnd..], 0, SEQUENCE, Cat(inner));
    Ends(spki.contentStart, outer);
    ContentStands(der, algorithm);
    var before, after := der[..algorithm.contentStart], der[algorithm.contentEnd..];
    var keyType := PartIsRead(der, before, inner, after, 0, OID, EC_PUBLIC_KEY[2..]);
    var curve := PartIsRead(der, before, inner, after, 1, OID, c.curve[2..]);
    Ends(|before|, inner);
    k := Key(spki, algorithm, keyType, curve);
  }

  lemma BodyParts(c: Request, a: Algorithm)
    requires SoundRequest(c, a)
    ensures |Body(c, a)| == 7
    ensures Body(c, a)[0] == Write(INTEGER, c.serial) && Body(c, a)[1] == Write(SEQUENCE, a.oid + a.parameters)
    ensures Body(c, a)[2] == Write(SEQUENCE, c.issuer) && Body(c, a)[3] == Write(SEQUENCE, Cat(Validity(c)))
    ensures Body(c, a)[4] == Write(SEQUENCE, c.subject) && Body(c, a)[5] == Write(SEQUENCE, Cat(KeyInfo(c)))
  {
    hide Write, Cat;
  }

  /** Where the serial number stands, version or not. */
  lemma SerialIsFound(der: seq<Byte>, tbs: Tlv, c: Request, a: Algorithm)
    requires SoundRequest(c, a)
    requires tbs.contentStart <= tbs.contentEnd <= |der| && Content(der, tbs) == Signed(c, a)
    ensures SerialAt(der, tbs) == Some(At(tbs.contentStart, Head(c) + Body(c, a), |Head(c)|))
  {
    hide TlvAt, Write, Cat, Body;
    BodyParts(c, a);
    var parts := Head(c) + Body(c, a);
    ContentStands(der, tbs);
    var before, after := der[..tbs.contentStart], der[tbs.contentEnd..];
    Ends(tbs.contentStart, parts);
    if c.version.Some? {
      var v := PartIsRead(der, before, parts, after, 0, VERSION, c.version.value);
      AtGrows(tbs.contentStart, parts, 1);
      InBounds(der, tbs.contentStart);
      TagIsFirstByte(der, tbs.contentStart);
    } else {
      var serial := PartIsRead(der, before, parts, after, 0, INTEGER, c.serial);
      InBounds(der, tbs.contentStart);
      TagIsFirstByte(der, tbs.contentStart);
    }
  }

  /** The fields of a written signed part, where they stand. */
  lemma FieldsAreRead(der: seq<Byte>, tbs: Tlv, algorithm: Tlv, c: Request, a: Algorithm,
                      time: (Byte, seq<Byte>) -> Option<int>) returns (f: Fields)
    requires SoundRequest(c, a)
    requires tbs.contentStart <= tbs.contentEnd <= |der| && Content(der, tbs) == Signed(c, a)
    requires algorithm.start <= algorithm.contentEnd <= |der|
    requires Whole(der, algorithm) == Write(SEQUENCE, a.oid + a.parameters)
    requires time(c.notBefore.tag, c.notBefore.text).Some? && time(c.notAfter.tag, c.notAfter.text).Some?
    ensures FieldsShape(der, tbs, algorithm, time, f)
    ensures f.key.spki.contentEnd == At(tbs.contentStart, Head(c) + Body(c, a), |Head(c)| + 6)
    ensures Content(der, f.serial) == c.serial && Content(der, f.issuer) == c.issuer && Content(der, f.subject) == c.subject
    ensures Whole(der, f.key.curve) == c.curve
  {
    hide TlvAt, Write, Cat, TimesShape, KeyShape, SerialAt, Body, Head, Validity, KeyInfo, At;
    BodyParts(c, a);
    var parts, h := Head(c) + Body(c, a), |Head(c)|;
    ContentStands(der, tbs);
    var before, after := der[..tbs.contentStart], der[tbs.contentEnd..];
    SerialIsFound(der, tbs, c, a);
    var serial := PartIsRead(der, before, parts, after, h, INTEGER, c.serial);
    var alg := PartIsRead(der, before, parts, after, h + 1, SEQUENCE, a.oid + a.parameters);
    var issuer := PartIsRead(der, before, parts, after, h + 2, SEQUENCE, c.issuer);
    var validity := PartIsRead(der, before, parts, after, h + 3, SEQUENCE, Cat(Validity(c)));
    var subject := PartIsRead(der, before, parts, after, h + 4, SEQUENCE, c.subject);
    var spki := PartIsRead(der, before, parts, after, h + 5, SEQUENCE, Cat(KeyInfo(c)));
    var times := TimesAreRead(der, validity, c, time);
    var key := KeyIsRead(der, spki, subject.contentEnd, c);
    f := Fields(serial, alg, issuer, validity, times, subject, key);
  }

  /** The trailer is the last part of the signed part. */
  lemma TrailerStands(der: seq<Byte>, tbs: Tlv, c: Request, a: Algorithm, from: nat)
    requires SoundRequest(c, a)
    requires tbs.contentStart <= tbs.contentEnd <= |der| && Content(der, tbs) == Signed(c, a)
    requires from == At(tbs.contentStart, Head(c) + Body(c, a), |Head(c)| + 6)
    ensures from + |Cat(WrittenTrailer(c.trailer))| == tbs.contentEnd
    ensures der == der[..from] + Cat(WrittenTrailer(c.trailer)) + der[tbs.contentEnd..]
  {
    hide TlvAt, Write;
    var parts := Head(c) + Body(c, a);
    var last := |Head(c)| + 6;
    ContentStands(der, tbs);
    AtNext(tbs.contentStart, parts, last);
    Ends(tbs.contentStart, parts);
    assert parts[..last + 1] == parts;
  }

  /**
   A certificate written field by field is accepted, whatever it signs: its fields are given back, and its
   extensions say their identifiers in order and the last CA flag among them.
   */
  lemma IssuedCertificateIsRead(c: Request, a: Algorithm, signature: seq<Byte>, time: (Byte, seq<Byte>) -> Option<int>)
    returns (p: Parsed)
    requires SoundRequest(c, a) && |Signed(c, a)| < 0x1000_0000 && |a.oid + a.parameters| < 0x1000_0000
    requires 0 < |signature| < 0x1000_0000
    requires time(c.notBefore.tag, c.notBefore.text).Some? && time(c.notAfter.tag, c.notAfter.text).Some?
    ensures var der := WriteOuter(Signed(c, a), a.oid, a.parameters, signature);
      && Shape(der, time, p)
      && Content(der, p.fields.serial) == c.serial && Content(der, p.fields.subject) == c.subject
      && Content(der, p.fields.issuer) == c.issuer && Whole(der, p.fields.key.curve) == c.curve
      && Content(der, p.outer.signature) == [0] + signature
      && p.said == Said(LastOf(Flags(ExtensionsOf(c.trailer)), false), Ids(ExtensionsOf(c.trailer)))
  {
    hide TlvAt, Write, Cat, Trailer, FieldsShape, OuterShape, Flags, Ids, LastOf, WriteOuter, SoundRequest, Signed, Body;
    SoundParts(c, a);
    var der := WriteOuter(Signed(c, a), a.oid, a.parameters, signature);
    var outer := OuterUndoesWrite(Signed(c, a), a.oid, a.parameters, signature);
    OuterBounds(der, outer);
    var fields := FieldsAreRead(der, outer.tbs, outer.algorithm, c, a, time);
    var from := fields.key.spki.contentEnd;
    TrailerStands(der, outer.tbs, c, a, from);
    TrailerUndoesWrite(der, der[..from], c.trailer, der[outer.tbs.contentEnd..]);
    var xs := ExtensionsOf(c.trailer);
    p := Parsed(outer, fields, Said(LastOf(Flags(xs), false), Ids(xs)));
  }

  lemma OuterBounds(der: seq<Byte>, o: Outer)
    requires OuterShape(der, o)
    ensures o.tbs.contentStart <= o.tbs.contentEnd <= |der| && o.algorithm.start <= o.algorithm.contentEnd <= |der|
  {
    InBounds(der, o.cert.contentStart);
    InBounds(der, o.tbs.contentEnd);
    hide TlvAt;
  }

  lemma SoundParts(c: Request, a: Algorithm)
    requires SoundRequest(c, a)
    ensures a.oid == ECDSA_SHA256 || a.oid == ECDSA_SHA384
    ensures AllTrailing(c.trailer)
  {
  }
}
