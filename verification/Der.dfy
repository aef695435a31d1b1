/**
 Reading DER (src/x509.ts:30-52, ITU-T X.690 sections 8.1.3 and 8.3) and converting an ECDSA signature
 to the fixed-width form (src/x509.ts:305-325, RFC 7518 section 3.4).

 The reader is a loop over a moving offset; the declarative reading it computes is TlvAt. Writing is the
 encoder with the fewest octets, so reading what was written is a round trip in one direction only: the
 reader also accepts longer lengths than the encoder writes.
 */
module Der {
  import opened Wrappers
  import opened Arith

  type Byte = b: int | 0 <= b < 0x100

  /** Offsets are absolute; `contentEnd` is also the start of whatever comes next. */
  datatype Tlv = Tlv(tag: Byte, start: nat, contentStart: nat, contentEnd: nat)

  /** The unsigned value of bytes, most significant first. */
  function BigEndian(s: seq<Byte>): nat {
    if |s| == 0 then 0 else 0x100 * BigEndian(s[..|s| - 1]) + s[|s| - 1]
  }

  /** Multi-byte tags have all five low bits set. */
  predicate LongTag(tag: Byte) { tag % 0x20 == 0x1f }

  /** The length octets at the front of `s`: how many there are, and the length they say. */
  function Length(s: seq<Byte>): Option<(nat, nat)> {
    if |s| == 0 then None
    else if s[0] < 0x80 then Some((1, s[0]))
    else
      var n := s[0] - 0x80;
      if n == 0 || n > 4 || 1 + n > |s| then None else Some((1 + n, BigEndian(s[1..1 + n])))
  }

  function TlvAt(buf: seq<Byte>, off: int): (r: Option<Tlv>)
    ensures r.Some? ==> 0 <= off == r.value.start < r.value.contentStart <= r.value.contentEnd <= |buf|
  {
    if off < 0 || off + 2 > |buf| || LongTag(buf[off]) then None
    else
      var l := Length(buf[off + 1..]);
      if l.None? || off + 1 + l.value.0 + l.value.1 > |buf| then None
      else
        var contentStart := off + 1 + l.value.0;
        Some(Tlv(buf[off], off, contentStart, contentStart + l.value.1))
  }

  lemma BigEndianSnoc(s: seq<Byte>, b: Byte)
    ensures BigEndian(s + [b]) == 0x100 * BigEndian(s) + b
  {
    assert (s + [b])[..|s|] == s;
  }

  /** The reader as written: a moving offset and an accumulated length. */
  method ReadTlv(buf: seq<Byte>, off: int) returns (r: Option<Tlv>)
    ensures r == TlvAt(buf, off)
  {
    if off < 0 || off + 2 > |buf| { return None; }
    var tag := buf[off];
    if tag % 0x20 == 0x1f { return None; }
    var p := off + 1;
    var first := buf[p];
    p := p + 1;
    var len: nat;
    if first < 0x80 {
      len := first;
    } else {
      var n := first - 0x80;
      if n == 0 || n > 4 || p + n > |buf| { return None; }
      len := 0;
      ghost var digits := buf[off + 1..][1..1 + n];
      for i := 0 to n
        invariant p == off + 2 + i
        invariant len == BigEndian(digits[..i])
      {
        BigEndianSnoc(digits[..i], digits[i]);
        assert digits[..i + 1] == digits[..i] + [digits[i]];
        len := len * 0x100 + buf[p];
        p := p + 1;
      }
      assert digits[..n] == digits;
      if len > |buf| { return None; }
    }
    var contentEnd := p + len;
    if contentEnd > |buf| { return None; }
    r := Some(Tlv(tag, off, p, contentEnd));
  }

  /** So many octets at `at` say this length: one below 128, or a count of one to four and that many digits. */
  predicate LengthSays(buf: seq<Byte>, at: int, octets: int, len: int) {
    && 0 <= at < |buf|
    && (buf[at] < 128 ==> octets == 1 && len == buf[at])
    && (buf[at] >= 128 ==>
          && 129 <= buf[at] <= 132 && octets == buf[at] as int - 127 && at + octets <= |buf|
          && len == (if octets == 2 then buf[at + 1]
                     else if octets == 3 then 256 * (buf[at + 1] as int) + buf[at + 2]
                     else if octets == 4 then 65536 * (buf[at + 1] as int) + 256 * (buf[at + 2] as int) + buf[at + 3]
                     else 16777216 * (buf[at + 1] as int) + 65536 * (buf[at + 2] as int) + 256 * (buf[at + 3] as int) + buf[at + 4]))
  }

  /** A TLV is read exactly where a single-byte tag, a length of at most four digits and that much content stand. */
  lemma ReadsExactlyWhen(buf: seq<Byte>, off: int, t: Tlv)
    ensures TlvAt(buf, off) == Some(t) <==>
      && 0 <= off == t.start && off + 2 <= |buf| && t.tag == buf[off] && buf[off] % 32 != 31
      && t.contentStart <= t.contentEnd <= |buf|
      && LengthSays(buf, off + 1, t.contentStart - off - 1, t.contentEnd - t.contentStart)
  {
    if 0 <= off && off + 2 <= |buf| {
      var s := buf[off + 1..];
      var n := s[0] as int - 0x80;
      if 1 <= n <= 4 && 1 + n <= |s| { FewDigits(s[1..1 + n]); }
    }
  }

  lemma FewDigits(s: seq<Byte>)
    ensures |s| == 1 ==> BigEndian(s) == s[0]
    ensures |s| == 2 ==> BigEndian(s) == 256 * (s[0] as int) + s[1]
    ensures |s| == 3 ==> BigEndian(s) == 65536 * (s[0] as int) + 256 * (s[1] as int) + s[2]
    ensures |s| == 4 ==> BigEndian(s) == 16777216 * (s[0] as int) + 65536 * (s[1] as int) + 256 * (s[2] as int) + s[3]
  {
    if 1 <= |s| <= 4 {
      BigEndianOf(s, 1);
      if |s| >= 2 { BigEndianOf(s, 2); }
      if |s| >= 3 { BigEndianOf(s, 3); }
      if |s| >= 4 { BigEndianOf(s, 4); }
      assert s[..|s|] == s;
      assert s[..0] == [];
    }
  }

  lemma BigEndianOf(s: seq<Byte>, k: nat)
    requires 1 <= k <= |s|
    ensures BigEndian(s[..k]) == 256 * BigEndian(s[..k - 1]) + s[k - 1]
  {
    assert s[..k] == s[..k - 1] + [s[k - 1]];
    BigEndianSnoc(s[..k - 1], s[k - 1]);
  }

  // ---- writing ----

  function Pow256(n: nat): (r: nat)
    ensures r >= 1
  {
    if n == 0 then 1 else 0x100 * Pow256(n - 1)
  }

  /** `n` in exactly `width` bytes. */
  function Fixed(n: nat, width: nat): (s: seq<Byte>)
    ensures |s| == width
  {
    if width == 0 then [] else Fixed(n / 0x100, width - 1) + [n % 0x100]
  }

  lemma {:induction false} FixedReads(n: nat, width: nat)
    requires n < Pow256(width)
    ensures BigEndian(Fixed(n, width)) == n
  {
    if width > 0 {
      FixedReads(n / 0x100, width - 1);
      BigEndianSnoc(Fixed(n / 0x100, width - 1), n % 0x100);
    }
  }

  /** The fewest length octets, as DER demands. */
  function LengthOctets(n: nat): seq<Byte>
    requires n < 0x1_0000_0000
  {
    if n < 0x80 then [n]
    else if n < 0x100 then [0x81] + Fixed(n, 1)
    else if n < 0x1_0000 then [0x82] + Fixed(n, 2)
    else if n < 0x100_0000 then [0x83] + Fixed(n, 3)
    else [0x84] + Fixed(n, 4)
  }

  function Write(tag: Byte, content: seq<Byte>): seq<Byte>
    requires |content| < 0x1_0000_0000
  {
    [tag] + LengthOctets(|content|) + content
  }

  lemma LengthReads(n: nat, rest: seq<Byte>)
    requires n < 0x1_0000_0000
    ensures Length(LengthOctets(n) + rest) == Some((|LengthOctets(n)|, n))
  {
    var l := LengthOctets(n);
    if n >= 0x80 {
      var w := |l| - 1;
      assert Pow256(1) == 0x100 && Pow256(2) == 0x1_0000 && Pow256(3) == 0x100_0000 && Pow256(4) == 0x1_0000_0000;
      FixedReads(n, w);
      assert (l + rest)[1..1 + w] == Fixed(n, w);
    }
  }

  /** Reading undoes writing, wherever the bytes stand. */
  lemma ReadUndoesWrite(before: seq<Byte>, tag: Byte, content: seq<Byte>, after: seq<Byte>)
    requires !LongTag(tag) && |content| < 0x1_0000_0000
    ensures var buf := before + Write(tag, content) + after;
      var start := |before| + 1 + |LengthOctets(|content|)|;
      && TlvAt(buf, |before|) == Some(Tlv(tag, |before|, start, start + |content|))
      && start + |content| == |before| + |Write(tag, content)|
      && buf[start..start + |content|] == content
  {
    hide LengthOctets, Length;
    var buf := before + Write(tag, content) + after;
    LengthReads(|content|, content + after);
    LengthOctetsSome(|content|);
    Slices(before, tag, LengthOctets(|content|), content, after);
    assert buf == before + ([tag] + LengthOctets(|content|) + content) + after;
  }

  lemma LengthOctetsSome(n: nat)
    requires n < 0x1_0000_0000
    ensures |LengthOctets(n)| >= 1
  {
  }

  lemma Slices(before: seq<Byte>, tag: Byte, l: seq<Byte>, content: seq<Byte>, after: seq<Byte>)
    ensures var buf := before + ([tag] + l + content) + after;
      var start := |before| + 1 + |l|;
      && |buf| == start + |content| + |after|
      && buf[|before|] == tag
      && buf[|before| + 1..] == l + (content + after)
      && buf[start..start + |content|] == content
  {
  }

  // ---- signatures ----

  const SEQUENCE: Byte := 0x30
  const INTEGER: Byte := 0x02

  /** An integer's bytes without leading zeros; one byte is always kept. */
  function Strip(s: seq<Byte>): seq<Byte> {
    if |s| > 1 && s[0] == 0 then Strip(s[1..]) else s
  }

  function Zeros(n: nat): seq<Byte> { seq(n, _ => 0) }

  function Padded(s: seq<Byte>, size: nat): seq<Byte>
    requires |s| <= size
  {
    Zeros(size - |s|) + s
  }

  /** The two integers of the signature, when its structure is exactly SEQUENCE { r, s }. */
  function Integers(sig: seq<Byte>): Option<(seq<Byte>, seq<Byte>)> {
    var q := TlvAt(sig, 0);
    if q.None? || q.value.tag != SEQUENCE || q.value.contentEnd != |sig| then None
    else
      var r := TlvAt(sig, q.value.contentStart);
      if r.None? || r.value.tag != INTEGER then None
      else
        var s := TlvAt(sig, r.value.contentEnd);
        if s.None? || s.value.tag != INTEGER || s.value.contentEnd != q.value.contentEnd then None
        else Some((sig[r.value.contentStart..r.value.contentEnd], sig[s.value.contentStart..s.value.contentEnd]))
  }

  predicate Fits(s: seq<Byte>, size: nat) { 0 < |Strip(s)| <= size }

  function P1363(sig: seq<Byte>, size: nat): Option<seq<Byte>> {
    var i := Integers(sig);
    if i.None? || !Fits(i.value.0, size) || !Fits(i.value.1, size) then None
    else Some(Padded(Strip(i.value.0), size) + Padded(Strip(i.value.1), size))
  }

  /** Strip from `from`, then copy into the output buffer so that the value ends at `at + size`. */
  method Place(sig: seq<Byte>, t: Tlv, out: array<Byte>, at: nat, size: nat) returns (ok: bool)
    requires t.contentStart <= t.contentEnd <= |sig| && at + size <= out.Length
    requires forall i :: at <= i < at + size ==> out[i] == 0
    modifies out
    ensures var content := sig[t.contentStart..t.contentEnd];
      && ok == Fits(content, size)
      && (ok ==> out[at..at + size] == Padded(Strip(content), size))
      && (forall i :: 0 <= i < out.Length && !(at <= i < at + size) ==> out[i] == old(out[i]))
  {
    var from := t.contentStart;
    ghost var content := sig[t.contentStart..t.contentEnd];
    while from < t.contentEnd - 1 && sig[from] == 0
      invariant t.contentStart <= from <= t.contentEnd
      invariant Strip(sig[from..t.contentEnd]) == Strip(content)
    {
      assert sig[from..t.contentEnd][1..] == sig[from + 1..t.contentEnd];
      from := from + 1;
    }
    var len := t.contentEnd - from;
    assert Strip(content) == sig[from..t.contentEnd];
    if len > size || len == 0 { return false; }
    var shift := at + size - len - from;
    forall i | from <= i < t.contentEnd {
      out[i + shift] := sig[i];
    }
    assert out[at..at + size] == Padded(sig[from..t.contentEnd], size);
    ok := true;
  }

  method DerEcdsaToP1363(sig: seq<Byte>, size: nat) returns (r: Option<seq<Byte>>)
    ensures r == P1363(sig, size)
  {
    var q := ReadTlv(sig, 0);
    if q.None? || q.value.tag != SEQUENCE || q.value.contentEnd != |sig| { return None; }
    var ri := ReadTlv(sig, q.value.contentStart);
    if ri.None? || ri.value.tag != INTEGER { return None; }
    var si := ReadTlv(sig, ri.value.contentEnd);
    if si.None? || si.value.tag != INTEGER || si.value.contentEnd != q.value.contentEnd { return None; }
    var out := new Byte[size * 2](_ => 0);
    var first := Place(sig, ri.value, out, 0, size);
    if !first { return None; }
    ghost var half := out[0..size];
    var second := Place(sig, si.value, out, size, size);
    if !second { return None; }
    assert out[0..size] == half;
    assert out[..] == out[0..size] + out[size..size + size];
    r := Some(out[..]);
  }

  // ---- the values survive ----

  lemma {:induction false} BigEndianConcat(a: seq<Byte>, b: seq<Byte>)
    ensures BigEndian(a + b) == BigEndian(a) * Pow256(|b|) + BigEndian(b)
    decreases |b|
  {
    if |b| == 0 {
      assert a + b == a;
    } else {
      var b', x := b[..|b| - 1], b[|b| - 1];
      BigEndianConcat(a, b');
      assert a + b == (a + b') + [x];
      BigEndianSnoc(a + b', x);
      Swap(BigEndian(a), Pow256(|b'|), 0x100);
    }
  }

  lemma {:induction false} ZerosAreZero(n: nat)
    ensures BigEndian(Zeros(n)) == 0
  {
    if n > 0 {
      ZerosAreZero(n - 1);
      assert Zeros(n) == Zeros(n - 1) + [0];
      BigEndianSnoc(Zeros(n - 1), 0);
    }
  }

  lemma PadKeepsValue(s: seq<Byte>, size: nat)
    requires |s| <= size
    ensures |Padded(s, size)| == size && BigEndian(Padded(s, size)) == BigEndian(s)
  {
    ZerosAreZero(size - |s|);
    BigEndianConcat(Zeros(size - |s|), s);
  }

  lemma {:induction false} StripKeepsValue(s: seq<Byte>)
    ensures BigEndian(Strip(s)) == BigEndian(s)
    ensures |s| > 0 ==> |Strip(s)| > 0 && (|Strip(s)| == 1 || Strip(s)[0] > 0)
  {
    if |s| > 1 && s[0] == 0 {
      StripKeepsValue(s[1..]);
      assert s == Zeros(1) + s[1..];
      ZerosAreZero(1);
      BigEndianConcat(Zeros(1), s[1..]);
    }
  }

  lemma {:induction false} ValueBounds(s: seq<Byte>)
    ensures BigEndian(s) < Pow256(|s|)
    ensures |s| > 0 && s[0] > 0 ==> BigEndian(s) >= Pow256(|s| - 1)
  {
    if |s| == 1 {
      assert s[..0] == [];
    } else if |s| > 1 {
      ValueBounds(s[..|s| - 1]);
    }
  }

  lemma {:induction false} PowGrows(a: nat, b: nat)
    requires a <= b
    ensures Pow256(a) <= Pow256(b)
  {
    if a < b { PowGrows(a, b - 1); }
  }

  /** An integer fits the coordinate exactly when its value does. */
  lemma FitsExactlyWhen(s: seq<Byte>, size: nat)
    requires size > 0
    ensures Fits(s, size) <==> |s| > 0 && BigEndian(s) < Pow256(size)
  {
    if |s| > 0 {
      StripKeepsValue(s);
      var t := Strip(s);
      ValueBounds(t);
      if |t| <= size {
        PowGrows(|t|, size);
      } else if t[0] > 0 {
        PowGrows(size, |t| - 1);
      }
    }
  }

  /**
   A signature converts exactly when it is one SEQUENCE of two non-empty INTEGERs whose unsigned values
   fit the coordinate; the two halves of the output then hold exactly those values.
   */
  lemma ConversionKeepsValues(sig: seq<Byte>, size: nat)
    requires size > 0
    ensures var i := Integers(sig);
      var r := P1363(sig, size);
      && (r.Some? <==> i.Some? && 0 < |i.value.0| && 0 < |i.value.1|
                       && BigEndian(i.value.0) < Pow256(size) && BigEndian(i.value.1) < Pow256(size))
      && (r.Some? ==> |r.value| == 2 * size
                      && BigEndian(r.value[..size]) == BigEndian(i.value.0)
                      && BigEndian(r.value[size..]) == BigEndian(i.value.1))
  {
    var i := Integers(sig);
    if i.Some? {
      var (a, b) := i.value;
      FitsExactlyWhen(a, size);
      FitsExactlyWhen(b, size);
      if P1363(sig, size).Some? {
        StripKeepsValue(a);
        StripKeepsValue(b);
        PadKeepsValue(Strip(a), size);
        PadKeepsValue(Strip(b), size);
        var r := P1363(sig, size).value;
        assert r[..size] == Padded(Strip(a), size) && r[size..] == Padded(Strip(b), size);
      }
    }
  }

  /** The minimal encoding of an unsigned value: no spare zeros, but one to keep it positive. */
  function Minimal(s: seq<Byte>): seq<Byte>
    requires |s| > 0
  {
    var t := Strip(s);
    if |t| > 0 && t[0] >= 0x80 then [0] + t else t
  }

  lemma WriteIsShort(tag: Byte, content: seq<Byte>)
    requires |content| < 0x1_0000_0000
    ensures |content| + 2 <= |Write(tag, content)| <= |content| + 6
  {
  }

  lemma MinimalIsShort(s: seq<Byte>)
    requires |s| > 0
    ensures |Minimal(s)| <= |s| + 1
  {
    StripShrinks(s);
  }

  /** The signature r || s as DER. */
  function WriteSignature(raw: seq<Byte>, size: nat): seq<Byte>
    requires 0 < size < 0x1000_0000 && |raw| == 2 * size
  {
    MinimalIsShort(raw[..size]);
    MinimalIsShort(raw[size..]);
    WriteIsShort(INTEGER, Minimal(raw[..size]));
    WriteIsShort(INTEGER, Minimal(raw[size..]));
    Write(SEQUENCE, Write(INTEGER, Minimal(raw[..size])) + Write(INTEGER, Minimal(raw[size..])))
  }

  lemma {:induction false} StripShrinks(s: seq<Byte>)
    ensures |Strip(s)| <= |s|
    ensures |s| > 0 ==> Padded(Strip(s), |s|) == s && |Strip(s)| > 0
  {
    if |s| > 1 && s[0] == 0 {
      StripShrinks(s[1..]);
      assert s == [0] + s[1..];
      assert Zeros(|s| - |Strip(s)|) == [0] + Zeros(|s| - 1 - |Strip(s)|);
    }
  }

  lemma {:induction false} StripStrips(s: seq<Byte>)
    requires |s| > 0
    ensures Strip(Strip(s)) == Strip(s) && Strip(Minimal(s)) == Strip(s)
  {
    StripKeepsValue(s);
    assert ([0] + Strip(s))[1..] == Strip(s);
  }

  lemma ReadAt(sig: seq<Byte>, before: seq<Byte>, tag: Byte, content: seq<Byte>, after: seq<Byte>)
    requires !LongTag(tag) && |content| < 0x1_0000_0000
    requires sig == before + Write(tag, content) + after
    ensures var t := TlvAt(sig, |before|);
      t.Some? && t.value.tag == tag && t.value.contentEnd == |before| + |Write(tag, content)|
      && t.value.contentStart == t.value.contentEnd - |content|
      && sig[t.value.contentStart..t.value.contentEnd] == content
  {
    hide TlvAt, Write, LengthOctets;
    ReadUndoesWrite(before, tag, content, after);
  }

  /** The two integers, read back out of what was written. */
  lemma IntegersAreRead(a: seq<Byte>, b: seq<Byte>)
    requires |a| < 0x4000_0000 && |b| < 0x4000_0000
    ensures |Write(INTEGER, a) + Write(INTEGER, b)| < 0x1_0000_0000
    ensures Integers(Write(SEQUENCE, Write(INTEGER, a) + Write(INTEGER, b))) == Some((a, b))
  {
    WriteIsShort(INTEGER, a);
    WriteIsShort(INTEGER, b);
    var wa, wb := Write(INTEGER, a), Write(INTEGER, b);
    WriteSplits(SEQUENCE, wa + wb);
    hide TlvAt, Write, LengthOctets;
    var head := [SEQUENCE] + LengthOctets(|wa + wb|);
    var sig := Write(SEQUENCE, wa + wb);
    assert sig == [] + sig + [];
    ReadAt(sig, [], SEQUENCE, wa + wb, []);
    ReadTwo(sig, head, a, b);
  }

  lemma ReadTwo(sig: seq<Byte>, head: seq<Byte>, a: seq<Byte>, b: seq<Byte>)
    requires |a| < 0x4000_0000 && |b| < 0x4000_0000
    requires sig == head + (Write(INTEGER, a) + Write(INTEGER, b))
    ensures var r := TlvAt(sig, |head|);
      && r.Some? && r.value.tag == INTEGER && sig[r.value.contentStart..r.value.contentEnd] == a
      && var s := TlvAt(sig, r.value.contentEnd);
         s.Some? && s.value.tag == INTEGER && s.value.contentEnd == |sig|
         && sig[s.value.contentStart..s.value.contentEnd] == b
  {
    hide TlvAt, Write;
    var wa, wb := Write(INTEGER, a), Write(INTEGER, b);
    assert sig == head + wa + wb;
    ReadAt(sig, head, INTEGER, a, wb);
    assert sig == head + wa + wb + [];
    ReadAt(sig, head + wa, INTEGER, b, []);
  }

  lemma WriteSplits(tag: Byte, content: seq<Byte>)
    requires |content| < 0x1_0000_0000
    ensures Write(tag, content) == [tag] + LengthOctets(|content|) + content
  {
  }

  lemma MinimalRestores(s: seq<Byte>)
    requires |s| > 0
    ensures |Minimal(s)| <= |s| + 1
    ensures Fits(Minimal(s), |s|) && Padded(Strip(Minimal(s)), |s|) == s
  {
    StripShrinks(s);
    StripStrips(s);
  }

  /** Converting undoes the minimal encoder, for every r || s. */
  lemma ConversionUndoesEncoding(raw: seq<Byte>, size: nat)
    requires 0 < size < 0x1000_0000 && |raw| == 2 * size
    ensures P1363(WriteSignature(raw, size), size) == Some(raw)
  {
    var a, b := raw[..size], raw[size..];
    MinimalRestores(a);
    MinimalRestores(b);
    IntegersAreRead(Minimal(a), Minimal(b));
    hide Integers, Write, Strip, Padded, Minimal, Fits;
    assert a + b == raw;
  }
}
