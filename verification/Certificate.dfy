/**
 The structure of an accepted certificate (src/x509.ts:155-297): one SEQUENCE holding exactly the signed
 part, the signature algorithm and the signature, nothing left over. Times are read by a parameter.

 Each part is described by a predicate on the bytes at its offset, and each method is proved to find the
 part exactly when some part satisfies the predicate. The trailer is described a second time as a row of
 fields, each standing where the one before it ended.
 */
module Certificate {
  import opened Wrappers
  import opened Der

  const BOOLEAN: Byte := 0x01
  const BIT_STRING: Byte := 0x03
  const OCTET_STRING: Byte := 0x04
  const OID: Byte := 0x06
  const VERSION: Byte := 0xa0
  const EXTENSIONS: Byte := 0xa3

  const EC_PUBLIC_KEY: seq<Byte> := [0x06, 0x07, 0x2a, 0x86, 0x48, 0xce, 0x3d, 0x02, 0x01]
  const P256: seq<Byte> := [0x06, 0x08, 0x2a, 0x86, 0x48, 0xce, 0x3d, 0x03, 0x01, 0x07]
  const P384: seq<Byte> := [0x06, 0x05, 0x2b, 0x81, 0x04, 0x00, 0x22]
  const ECDSA_SHA256: seq<Byte> := [0x06, 0x08, 0x2a, 0x86, 0x48, 0xce, 0x3d, 0x04, 0x03, 0x02]
  const ECDSA_SHA384: seq<Byte> := [0x06, 0x08, 0x2a, 0x86, 0x48, 0xce, 0x3d, 0x04, 0x03, 0x03]
  const BASIC_CONSTRAINTS: seq<Byte> := [0x06, 0x03, 0x55, 0x1d, 0x13]

  /** The bytes of a TLV, header included. */
  function Whole(der: seq<Byte>, t: Tlv): seq<Byte>
    requires t.start <= t.contentEnd <= |der|
  {
    der[t.start..t.contentEnd]
  }

  function Content(der: seq<Byte>, t: Tlv): seq<Byte>
    requires t.contentStart <= t.contentEnd <= |der|
  {
    der[t.contentStart..t.contentEnd]
  }

  /** A TLV of the given tag at an offset. */
  predicate Reads(der: seq<Byte>, off: int, tag: Byte, t: Tlv) { TlvAt(der, off) == Some(t) && t.tag == tag }

  predicate Starts(der: seq<Byte>, off: int, oid: Tlv, accepted: set<seq<Byte>>) {
    Reads(der, off, OID, oid) && Whole(der, oid) in accepted
  }

  lemma InBounds(der: seq<Byte>, off: int)
    ensures var r := TlvAt(der, off);
      r.Some? ==> r.value.start == off < r.value.contentStart <= r.value.contentEnd <= |der|
  {
  }

  /** A TLV that must carry the given tag. */
  method Expect(der: seq<Byte>, off: int, tag: Byte) returns (r: Option<Tlv>)
    ensures r.Some? ==> Reads(der, off, tag, r.value) && r.value.start <= r.value.contentStart <= r.value.contentEnd <= |der|
    ensures r.None? ==> forall t :: !Reads(der, off, tag, t)
  {
    r := ReadTlv(der, off);
    if r.Some? && r.value.tag != tag { r := None; }
  }

  // ---- the outer shape ----

  datatype Outer = Outer(cert: Tlv, tbs: Tlv, algorithm: Tlv, algorithmOid: Tlv, signature: Tlv)

  predicate OuterShape(der: seq<Byte>, o: Outer) {
    && Reads(der, 0, SEQUENCE, o.cert) && o.cert.contentEnd == |der|
    && Reads(der, o.cert.contentStart, SEQUENCE, o.tbs)
    && Reads(der, o.tbs.contentEnd, SEQUENCE, o.algorithm)
    && Starts(der, o.algorithm.contentStart, o.algorithmOid, {ECDSA_SHA256, ECDSA_SHA384})
    && Reads(der, o.algorithm.contentEnd, BIT_STRING, o.signature)
    && o.signature.contentEnd == o.cert.contentEnd
    && |Content(der, o.signature)| >= 2 && Content(der, o.signature)[0] == 0
  }

  method ParseOuter(der: seq<Byte>) returns (r: Option<Outer>)
    ensures r.Some? ==> OuterShape(der, r.value)
    ensures r.None? ==> forall o :: !OuterShape(der, o)
  {
    hide TlvAt;
    var cert := Expect(der, 0, SEQUENCE);
    if cert.None? || cert.value.contentEnd != |der| { return None; }
    var tbs := Expect(der, cert.value.contentStart, SEQUENCE);
    if tbs.None? { return None; }
    var alg := Expect(der, tbs.value.contentEnd, SEQUENCE);
    if alg.None? { return None; }
    var oid := Expect(der, alg.value.contentStart, OID);
    if oid.None? { return None; }
    var algorithm := Whole(der, oid.value);
    if algorithm != ECDSA_SHA256 && algorithm != ECDSA_SHA384 { return None; }
    var sig := Expect(der, alg.value.contentEnd, BIT_STRING);
    if sig.None? || sig.value.contentEnd != cert.value.contentEnd { return None; }
    if sig.value.contentEnd - sig.value.contentStart < 2 { return None; }
    if der[sig.value.contentStart] != 0 { return None; }
    r := Some(Outer(cert.value, tbs.value, alg.value, oid.value, sig.value));
  }

  /** An accepted certificate is its header, then exactly these three parts, to the last byte. */
  lemma NothingIsLeftOver(der: seq<Byte>, o: Outer)
    requires OuterShape(der, o)
    ensures der == der[..o.cert.contentStart] + (Whole(der, o.tbs) + Whole(der, o.algorithm) + Whole(der, o.signature))
  {
    InBounds(der, 0);
    InBounds(der, o.cert.contentStart);
    InBounds(der, o.tbs.contentEnd);
    InBounds(der, o.algorithm.contentEnd);
    hide TlvAt;
  }

  function WriteOuter(tbs: seq<Byte>, oid: seq<Byte>, rest: seq<Byte>, signature: seq<Byte>): seq<Byte>
    requires |tbs| < 0x1000_0000 && |oid + rest| < 0x1000_0000 && |signature| < 0x1000_0000
  {
    WriteIsShort(SEQUENCE, tbs);
    WriteIsShort(SEQUENCE, oid + rest);
    WriteIsShort(BIT_STRING, [0] + signature);
    Write(SEQUENCE, Write(SEQUENCE, tbs) + Write(SEQUENCE, oid + rest) + Write(BIT_STRING, [0] + signature))
  }

  /** Whatever is signed, a certificate written from its parts is accepted and gives them back. */
  lemma OuterUndoesWrite(tbs: seq<Byte>, oid: seq<Byte>, rest: seq<Byte>, signature: seq<Byte>) returns (o: Outer)
    requires |tbs| < 0x1000_0000 && |oid + rest| < 0x1000_0000 && 0 < |signature| < 0x1000_0000
    requires oid == ECDSA_SHA256 || oid == ECDSA_SHA384
    ensures var der := WriteOuter(tbs, oid, rest, signature);
      OuterShape(der, o) && Content(der, o.tbs) == tbs && Whole(der, o.algorithmOid) == oid
      && Content(der, o.signature) == [0] + signature && Whole(der, o.algorithm) == Write(SEQUENCE, oid + rest)
  {
    var b := [0] + signature;
    WriteIsShort(SEQUENCE, tbs);
    WriteIsShort(SEQUENCE, oid + rest);
    WriteIsShort(BIT_STRING, b);
    var all := Write(SEQUENCE, tbs) + Write(SEQUENCE, oid + rest) + Write(BIT_STRING, b);
    var der := WriteOuter(tbs, oid, rest, signature);
    WriteSplits(SEQUENCE, all);
    hide TlvAt, Write, LengthOctets;
    assert der == [] + der + [];
    ReadAt(der, [], SEQUENCE, all, []);
    var head := [SEQUENCE] + LengthOctets(|all|);
    var at;
    o, at := PartsAreRead(der, head, tbs, oid, rest, b);
    assert |head| == TlvAt(der, 0).value.contentStart;
  }

  lemma PartsAreRead(der: seq<Byte>, head: seq<Byte>, tbs: seq<Byte>, oid: seq<Byte>, rest: seq<Byte>, bits: seq<Byte>)
    returns (o: Outer, at: nat)
    requires |tbs| < 0x1000_0000 && |oid + rest| < 0x1000_0000 && |bits| < 0x2000_0000
    requires oid == ECDSA_SHA256 || oid == ECDSA_SHA384
    requires der == head + (Write(SEQUENCE, tbs) + Write(SEQUENCE, oid + rest) + Write(BIT_STRING, bits))
    requires TlvAt(der, 0).Some?
    ensures o.cert == TlvAt(der, 0).value
    ensures Reads(der, |head|, SEQUENCE, o.tbs) && Content(der, o.tbs) == tbs
    ensures Reads(der, o.tbs.contentEnd, SEQUENCE, o.algorithm)
    ensures Starts(der, o.algorithm.contentStart, o.algorithmOid, {ECDSA_SHA256, ECDSA_SHA384})
    ensures Whole(der, o.algorithmOid) == oid && Whole(der, o.algorithm) == Write(SEQUENCE, oid + rest)
    ensures Reads(der, o.algorithm.contentEnd, BIT_STRING, o.signature)
    ensures o.signature.contentEnd == |der| && Content(der, o.signature) == bits
  {
    hide TlvAt, Write;
    var a, b, c := Write(SEQUENCE, tbs), Write(SEQUENCE, oid + rest), Write(BIT_STRING, bits);
    Regroup(head, a, b, c);
    ReadAt(der, head, SEQUENCE, tbs, b + c);
    ReadAt(der, head + a, SEQUENCE, oid + rest, c);
    ReadAt(der, head + a + b, BIT_STRING, bits, []);
    at := OidIsRead(der, head + a, oid, rest, c);
    WholeIs(der, head + a, b, c);
    InBounds(der, |head + a|);
    o := Outer(TlvAt(der, 0).value, TlvAt(der, |head|).value, TlvAt(der, |head + a|).value,
               TlvAt(der, at).value, TlvAt(der, |head + a + b|).value);
  }

  lemma Regroup(head: seq<Byte>, a: seq<Byte>, b: seq<Byte>, c: seq<Byte>)
    ensures head + (a + b + c) == head + a + (b + c)
    ensures head + (a + b + c) == (head + a) + b + c
    ensures head + (a + b + c) == (head + a + b) + c + []
  {
  }

  /** The identifier inside the algorithm. */
  lemma OidIsRead(der: seq<Byte>, before: seq<Byte>, oid: seq<Byte>, rest: seq<Byte>, after: seq<Byte>) returns (at: nat)
    requires |oid + rest| < 0x1000_0000 && der == before + Write(SEQUENCE, oid + rest) + after
    requires oid == ECDSA_SHA256 || oid == ECDSA_SHA384
    ensures at == |before| + |Write(SEQUENCE, oid + rest)| - |oid + rest|
    ensures var t := TlvAt(der, at); t.Some? && Starts(der, at, t.value, {oid}) && Whole(der, t.value) == oid
  {
    OidIsWritten(oid);
    WriteSplits(SEQUENCE, oid + rest);
    hide TlvAt, Write, LengthOctets;
    var inner := before + ([SEQUENCE] + LengthOctets(|oid + rest|));
    assert der == inner + oid + (rest + after);
    ReadAt(der, inner, OID, oid[2..], rest + after);
    at := |inner|;
    WholeIs(der, inner, oid, rest + after);
    InBounds(der, at);
  }

  lemma OidIsWritten(oid: seq<Byte>)
    requires oid == ECDSA_SHA256 || oid == ECDSA_SHA384
    ensures |oid| == 10 && oid == Write(OID, oid[2..])
  {
  }

  lemma WholeIs(der: seq<Byte>, before: seq<Byte>, part: seq<Byte>, after: seq<Byte>)
    requires der == before + part + after
    ensures der[|before|..|before| + |part|] == part
  {
  }

  // ---- inside the signed part ----

  datatype Times = Times(notBefore: Tlv, notAfter: Tlv, from: int, until: int)

  datatype Key = Key(spki: Tlv, algorithm: Tlv, keyType: Tlv, curve: Tlv)

  /** The fields of the signed part up to its public key. */
  datatype Fields = Fields(
    serial: Tlv, algorithm: Tlv, issuer: Tlv, validity: Tlv, times: Times, subject: Tlv, key: Key)

  /** Where the serial number stands: after the optional version. */
  function SerialAt(der: seq<Byte>, tbs: Tlv): Option<int>
    requires tbs.contentStart <= tbs.contentEnd <= |der|
  {
    if tbs.contentStart < tbs.contentEnd && der[tbs.contentStart] == VERSION then
      var v := TlvAt(der, tbs.contentStart);
      if v.None? then None else Some(v.value.contentEnd)
    else Some(tbs.contentStart)
  }

  /** Both times fill the validity exactly. */
  predicate TimesShape(der: seq<Byte>, validity: Tlv, time: (Byte, seq<Byte>) -> Option<int>, t: Times) {
    && TlvAt(der, validity.contentStart) == Some(t.notBefore)
    && TlvAt(der, t.notBefore.contentEnd) == Some(t.notAfter)
    && t.notAfter.contentEnd == validity.contentEnd
    && time(t.notBefore.tag, Content(der, t.notBefore)) == Some(t.from)
    && time(t.notAfter.tag, Content(der, t.notAfter)) == Some(t.until)
  }

  /** An elliptic-curve key on one of the two curves. */
  predicate KeyShape(der: seq<Byte>, off: int, k: Key) {
    && Reads(der, off, SEQUENCE, k.spki)
    && Reads(der, k.spki.contentStart, SEQUENCE, k.algorithm)
    && Starts(der, k.algorithm.contentStart, k.keyType, {EC_PUBLIC_KEY})
    && Starts(der, k.keyType.contentEnd, k.curve, {P256, P384})
    && k.curve.contentEnd == k.algorithm.contentEnd
  }

  /** The fields stand one after another, and both copies of the algorithm agree. */
  predicate FieldsShape(der: seq<Byte>, tbs: Tlv, algorithm: Tlv, time: (Byte, seq<Byte>) -> Option<int>, f: Fields)
    requires tbs.contentStart <= tbs.contentEnd <= |der| && algorithm.start <= algorithm.contentEnd <= |der|
  {
    && SerialAt(der, tbs).Some?
    && Reads(der, SerialAt(der, tbs).value, INTEGER, f.serial)
    && Reads(der, f.serial.contentEnd, SEQUENCE, f.algorithm)
    && Whole(der, f.algorithm) == Whole(der, algorithm)
    && Reads(der, f.algorithm.contentEnd, SEQUENCE, f.issuer)
    && Reads(der, f.issuer.contentEnd, SEQUENCE, f.validity)
    && TimesShape(der, f.validity, time, f.times)
    && Reads(der, f.validity.contentEnd, SEQUENCE, f.subject)
    && KeyShape(der, f.subject.contentEnd, f.key)
  }

  method ParseTimes(der: seq<Byte>, validity: Tlv, time: (Byte, seq<Byte>) -> Option<int>) returns (r: Option<Times>)
    ensures r.Some? ==> TimesShape(der, validity, time, r.value)
    ensures r.None? ==> forall t :: !TimesShape(der, validity, time, t)
  {
    hide TlvAt;
    var notBefore := ReadTlv(der, validity.contentStart);
    if notBefore.None? { return None; }
    InBounds(der, validity.contentStart);
    var notAfter := ReadTlv(der, notBefore.value.contentEnd);
    if notAfter.None? || notAfter.value.contentEnd != validity.contentEnd { return None; }
    InBounds(der, notBefore.value.contentEnd);
    var from := time(notBefore.value.tag, Content(der, notBefore.value));
    var until := time(notAfter.value.tag, Content(der, notAfter.value));
    if from.None? || until.None? { return None; }
    r := Some(Times(notBefore.value, notAfter.value, from.value, until.value));
  }

  method ParseKey(der: seq<Byte>, off: int) returns (r: Option<Key>)
    ensures r.Some? ==> KeyShape(der, off, r.value)
    ensures r.None? ==> forall k :: !KeyShape(der, off, k)
  {
    hide TlvAt;
    var spki := Expect(der, off, SEQUENCE);
    if spki.None? { return None; }
    var algorithm := Expect(der, spki.value.contentStart, SEQUENCE);
    if algorithm.None? { return None; }
    var keyType := Expect(der, algorithm.value.contentStart, OID);
    if keyType.None? || Whole(der, keyType.value) != EC_PUBLIC_KEY { return None; }
    var curve := Expect(der, keyType.value.contentEnd, OID);
    if curve.None? || curve.value.contentEnd != algorithm.value.contentEnd { return None; }
    var name := Whole(der, curve.value);
    if name != P256 && name != P384 { return None; }
    r := Some(Key(spki.value, algorithm.value, keyType.value, curve.value));
  }

  /** Reads the fields in order; a refusal means no fields could have been read. */
  method ParseFields(der: seq<Byte>, tbs: Tlv, algorithm: Tlv, time: (Byte, seq<Byte>) -> Option<int>)
    returns (r: Option<Fields>)
    requires tbs.contentStart <= tbs.contentEnd <= |der| && algorithm.start <= algorithm.contentEnd <= |der|
    ensures r.Some? ==> FieldsShape(der, tbs, algorithm, time, r.value)
    ensures r.None? ==> forall f :: !FieldsShape(der, tbs, algorithm, time, f)
  {
    hide TlvAt, TimesShape, KeyShape;
    var off := tbs.contentStart;
    if off < tbs.contentEnd && der[off] == VERSION {
      var v := ReadTlv(der, off);
      if v.None? { return None; }
      off := v.value.contentEnd;
    }
    var serial := Expect(der, off, INTEGER);
    if serial.None? { return None; }
    var alg := Expect(der, serial.value.contentEnd, SEQUENCE);
    if alg.None? || Whole(der, alg.value) != Whole(der, algorithm) { return None; }
    var issuer := Expect(der, alg.value.contentEnd, SEQUENCE);
    if issuer.None? { return None; }
    var validity := Expect(der, issuer.value.contentEnd, SEQUENCE);
    if validity.None? { return None; }
    var times := ParseTimes(der, validity.value, time);
    if times.None? { return None; }
    var subject := Expect(der, validity.value.contentEnd, SEQUENCE);
    if subject.None? { return None; }
    var key := ParseKey(der, subject.value.contentEnd);
    if key.None? { return None; }
    r := Some(Fields(serial.value, alg.value, issuer.value, validity.value, times.value, subject.value, key.value));
  }

  // ---- the extensions ----

  /** What the extension list has said so far. */
  datatype Said = Said(isCa: bool, oids: seq<seq<Byte>>)

  /** The CA flag of a basicConstraints value; None is a refusal, an absent flag changes nothing. */
  function CaFlag(der: seq<Byte>, value: Tlv, current: bool): Option<bool>
    requires value.contentStart <= value.contentEnd <= |der|
  {
    var bc := TlvAt(der, value.contentStart);
    if bc.None? || bc.value.tag != SEQUENCE then None
    else if bc.value.contentEnd <= bc.value.contentStart then Some(current)
    else
      var ca := TlvAt(der, bc.value.contentStart);
      if ca.Some? && ca.value.tag == BOOLEAN && ca.value.contentEnd - ca.value.contentStart == 1
      then Some(der[ca.value.contentStart] != 0) else Some(current)
  }

  /** One extension, and where the next one starts. */
  function OneExtension(der: seq<Byte>, e: int, said: Said): (r: Option<(Said, int)>)
    ensures r.Some? ==> e < r.value.1 <= |der|
  {
    var ext := TlvAt(der, e);
    if ext.None? || ext.value.tag != SEQUENCE then None
    else
      var id := TlvAt(der, ext.value.contentStart);
      if id.None? || id.value.tag != OID then None
      else
        var critical := TlvAt(der, id.value.contentEnd);
        if critical.None? then None
        else
          var at := if critical.value.tag == BOOLEAN then critical.value.contentEnd else id.value.contentEnd;
          var value := TlvAt(der, at);
          if value.None? || value.value.tag != OCTET_STRING then None
          else
            var oid := Whole(der, id.value);
            var flag := if oid == BASIC_CONSTRAINTS then CaFlag(der, value.value, said.isCa) else Some(said.isCa);
            if flag.None? then None else Some((Said(flag.value, said.oids + [oid]), ext.value.contentEnd))
  }

  function ExtensionList(der: seq<Byte>, e: int, end: int, said: Said): Option<Said>
    decreases |der| - e
  {
    if e >= end then Some(said)
    else
      var one := OneExtension(der, e, said);
      if one.None? then None else ExtensionList(der, one.value.1, end, one.value.0)
  }

  /** One extension as the loop body reads it. */
  method ReadExtension(der: seq<Byte>, e: int, said: Said) returns (r: Option<(Said, int)>)
    ensures r == OneExtension(der, e, said)
  {
    hide TlvAt;
    var ext := ReadTlv(der, e);
    if ext.None? || ext.value.tag != SEQUENCE { return None; }
    InBounds(der, e);
    var id := ReadTlv(der, ext.value.contentStart);
    if id.None? || id.value.tag != OID { return None; }
    InBounds(der, ext.value.contentStart);
    var oid := Whole(der, id.value);
    var at := id.value.contentEnd;
    var maybeCritical := ReadTlv(der, at);
    if maybeCritical.None? { return None; }
    if maybeCritical.value.tag == BOOLEAN { at := maybeCritical.value.contentEnd; }
    var value := ReadTlv(der, at);
    if value.None? || value.value.tag != OCTET_STRING { return None; }
    InBounds(der, at);
    var isCa := said.isCa;
    if oid == BASIC_CONSTRAINTS {
      var flag := ReadCaFlag(der, value.value, isCa);
      if flag.None? { return None; }
      isCa := flag.value;
    }
    r := Some((Said(isCa, said.oids + [oid]), ext.value.contentEnd));
  }

  method ReadCaFlag(der: seq<Byte>, value: Tlv, current: bool) returns (r: Option<bool>)
    requires value.contentStart <= value.contentEnd <= |der|
    ensures r == CaFlag(der, value, current)
  {
    hide TlvAt;
    var bc := ReadTlv(der, value.contentStart);
    if bc.None? || bc.value.tag != SEQUENCE { return None; }
    var isCa := current;
    if bc.value.contentEnd > bc.value.contentStart {
      var ca := ReadTlv(der, bc.value.contentStart);
      InBounds(der, bc.value.contentStart);
      if ca.Some? && ca.value.tag == BOOLEAN && ca.value.contentEnd - ca.value.contentStart == 1 {
        isCa := der[ca.value.contentStart] != 0;
      }
    }
    r := Some(isCa);
  }

  /** The optional trailing fields: only [3] is looked into. */
  function Trailer(der: seq<Byte>, off: int, end: int, said: Said): Option<Said>
    decreases |der| - off
  {
    if off >= end then Some(said)
    else
      var t := TlvAt(der, off);
      if t.None? then None
      else if t.value.tag != EXTENSIONS then Trailer(der, t.value.contentEnd, end, said)
      else
        var list := TlvAt(der, t.value.contentStart);
        if list.None? || list.value.tag != SEQUENCE then None
        else
          var inner := ExtensionList(der, list.value.contentStart, list.value.contentEnd, said);
          if inner.None? then None else Trailer(der, t.value.contentEnd, end, inner.value)
  }

  /** Both loops end on every input, and compute the same as reading the fields one by one. */
  method ParseTrailer(der: seq<Byte>, start: int, end: int) returns (r: Option<Said>)
    ensures r == Trailer(der, start, end, Said(false, []))
  {
    var off, said := start, Said(false, []);
    while off < end
      invariant Trailer(der, off, end, said) == Trailer(der, start, end, Said(false, []))
      decreases |der| - off
    {
      var t := ReadTlv(der, off);
      if t.None? { return None; }
      if t.value.tag == EXTENSIONS {
        var list := ReadTlv(der, t.value.contentStart);
        if list.None? || list.value.tag != SEQUENCE { return None; }
        var e := list.value.contentStart;
        ghost var before := said;
        while e < list.value.contentEnd
          invariant ExtensionList(der, e, list.value.contentEnd, said)
                 == ExtensionList(der, list.value.contentStart, list.value.contentEnd, before)
          decreases |der| - e
        {
          var one := ReadExtension(der, e, said);
          if one.None? { return None; }
          said, e := one.value.0, one.value.1;
        }
      }
      off := t.value.contentEnd;
    }
    r := Some(said);
  }

  // ---- what a trailer is, and what it says, without reading it in order ----

  /** One extension: its own TLV, its identifier and its value. */
  datatype Ext = Ext(whole: Tlv, id: Tlv, value: Tlv)

  /** An identifier, an optional critical flag, and a value; the value of basicConstraints is a SEQUENCE. */
  predicate IsExtension(der: seq<Byte>, e: int, x: Ext) {
    && Reads(der, e, SEQUENCE, x.whole) && Reads(der, x.whole.contentStart, OID, x.id)
    && TlvAt(der, x.id.contentEnd).Some?
    && var next := TlvAt(der, x.id.contentEnd).value;
       && Reads(der, if next.tag == BOOLEAN then next.contentEnd else x.id.contentEnd, OCTET_STRING, x.value)
       && (Whole(der, x.id) == BASIC_CONSTRAINTS ==>
             TlvAt(der, x.value.contentStart).Some? && TlvAt(der, x.value.contentStart).value.tag == SEQUENCE)
  }

  /** The extensions that stand one after another from `e` on, to `end`. */
  predicate ListReads(der: seq<Byte>, e: int, end: int, xs: seq<Ext>)
    decreases |xs|
  {
    if e >= end then xs == []
    else xs != [] && IsExtension(der, e, xs[0]) && ListReads(der, xs[0].whole.contentEnd, end, xs[1..])
  }

  /** A field of the trailer: anything, or a [3] holding a list of extensions. */
  predicate IsField(der: seq<Byte>, off: int, t: Tlv, xs: seq<Ext>) {
    && TlvAt(der, off) == Some(t)
    && (t.tag != EXTENSIONS ==> xs == [])
    && (t.tag == EXTENSIONS ==>
          && TlvAt(der, t.contentStart).Some?
          && var list := TlvAt(der, t.contentStart).value;
             list.tag == SEQUENCE && ListReads(der, list.contentStart, list.contentEnd, xs))
  }

  predicate TrailerReads(der: seq<Byte>, off: int, end: int, ts: seq<Tlv>, lists: seq<seq<Ext>>)
    decreases |ts|
  {
    if off >= end then ts == [] && lists == []
    else
      && ts != [] && lists != [] && IsField(der, off, ts[0], lists[0])
      && TrailerReads(der, ts[0].contentEnd, end, ts[1..], lists[1..])
  }

  /** A one-byte BOOLEAN at the front of a non-empty basicConstraints sets the flag; nothing else touches it. */
  function FlagAfter(der: seq<Byte>, current: bool, x: Ext): bool {
    if x.id.start <= x.id.contentEnd <= |der| && der[x.id.start..x.id.contentEnd] == BASIC_CONSTRAINTS then
      var bc := TlvAt(der, x.value.contentStart);
      if bc.Some? && bc.value.contentStart < bc.value.contentEnd then
        var ca := TlvAt(der, bc.value.contentStart);
        if ca.Some? && ca.value.tag == BOOLEAN && ca.value.contentEnd == ca.value.contentStart + 1
        then der[ca.value.contentStart] != 0 else current
      else current
    else current
  }

  function IdOf(der: seq<Byte>, x: Ext): seq<Byte> {
    if x.id.start <= x.id.contentEnd <= |der| then der[x.id.start..x.id.contentEnd] else []
  }

  function SaidBy(der: seq<Byte>, said: Said, xs: seq<Ext>): Said
    decreases |xs|
  {
    if xs == [] then said
    else SaidBy(der, Said(FlagAfter(der, said.isCa, xs[0]), said.oids + [IdOf(der, xs[0])]), xs[1..])
  }

  function SaidByAll(der: seq<Byte>, said: Said, lists: seq<seq<Ext>>): Said
    decreases |lists|
  {
    if lists == [] then said else SaidByAll(der, SaidBy(der, said, lists[0]), lists[1..])
  }

  lemma OneIsRead(der: seq<Byte>, e: int, said: Said, x: Ext)
    requires IsExtension(der, e, x)
    ensures OneExtension(der, e, said)
         == Some((Said(FlagAfter(der, said.isCa, x), said.oids + [IdOf(der, x)]), x.whole.contentEnd))
  {
    InBounds(der, e);
    InBounds(der, x.whole.contentStart);
    InBounds(der, x.id.contentEnd);
    hide TlvAt;
  }

  lemma OneReadIs(der: seq<Byte>, e: int, said: Said) returns (x: Ext)
    requires OneExtension(der, e, said).Some?
    ensures IsExtension(der, e, x)
  {
    hide TlvAt;
    var ext := TlvAt(der, e).value;
    var id := TlvAt(der, ext.contentStart).value;
    var next := TlvAt(der, id.contentEnd).value;
    x := Ext(ext, id, TlvAt(der, if next.tag == BOOLEAN then next.contentEnd else id.contentEnd).value);
  }

  lemma {:induction false} ListIsReadIn(der: seq<Byte>, e: int, end: int, said: Said, xs: seq<Ext>)
    requires ListReads(der, e, end, xs)
    ensures ExtensionList(der, e, end, said) == Some(SaidBy(der, said, xs))
    decreases |xs|
  {
    hide IsExtension, OneExtension, FlagAfter, IdOf;
    if e < end {
      OneIsRead(der, e, said, xs[0]);
      ListIsReadIn(der, xs[0].whole.contentEnd, end, Said(FlagAfter(der, said.isCa, xs[0]), said.oids + [IdOf(der, xs[0])]), xs[1..]);
    }
  }

  lemma {:induction false} ListReadIs(der: seq<Byte>, e: int, end: int, said: Said) returns (xs: seq<Ext>)
    requires ExtensionList(der, e, end, said).Some?
    ensures ListReads(der, e, end, xs)
    decreases |der| - e
  {
    hide IsExtension, OneExtension;
    if e >= end {
      xs := [];
    } else {
      var x := OneReadIs(der, e, said);
      OneIsRead(der, e, said, x);
      var one := OneExtension(der, e, said).value;
      AdvancesInside(der, e, said);
      var rest := ListReadIs(der, one.1, end, one.0);
      xs := [x] + rest;
    }
  }

  lemma AdvancesInside(der: seq<Byte>, e: int, said: Said)
    ensures var one := OneExtension(der, e, said); one.Some? ==> e < one.value.1 <= |der|
  {
  }

  /** A trailer that is one is read, and says what its extensions say in order. */
  lemma {:induction false} TrailerIsRead(der: seq<Byte>, off: int, end: int, said: Said, ts: seq<Tlv>, lists: seq<seq<Ext>>)
    requires TrailerReads(der, off, end, ts, lists)
    ensures Trailer(der, off, end, said) == Some(SaidByAll(der, said, lists))
    decreases |ts|
  {
    hide ListReads, ExtensionList, SaidBy;
    if off < end {
      InBounds(der, off);
      hide TlvAt;
      var t, xs := ts[0], lists[0];
      if t.tag == EXTENSIONS {
        var list := TlvAt(der, t.contentStart).value;
        ListIsReadIn(der, list.contentStart, list.contentEnd, said, xs);
      } else {
        SaidNothing(der, said);
      }
      TrailerIsRead(der, t.contentEnd, end, SaidBy(der, said, xs), ts[1..], lists[1..]);
    }
  }

  lemma SaidNothing(der: seq<Byte>, said: Said)
    ensures SaidBy(der, said, []) == said
  {
  }

  /** And whatever is read is one. */
  lemma {:induction false} TrailerReadIs(der: seq<Byte>, off: int, end: int, said: Said) returns (ts: seq<Tlv>, lists: seq<seq<Ext>>)
    requires Trailer(der, off, end, said).Some?
    ensures TrailerReads(der, off, end, ts, lists)
    decreases |der| - off
  {
    hide ListReads, ExtensionList;
    if off >= end {
      ts, lists := [], [];
    } else {
      InBounds(der, off);
      hide TlvAt;
      var t := TlvAt(der, off).value;
      var xs: seq<Ext>, next := [], said;
      if t.tag == EXTENSIONS {
        var list := TlvAt(der, t.contentStart).value;
        xs := ListReadIs(der, list.contentStart, list.contentEnd, said);
        next := ExtensionList(der, list.contentStart, list.contentEnd, said).value;
      }
      var ts', lists' := TrailerReadIs(der, t.contentEnd, end, next);
      ts, lists := [t] + ts', [xs] + lists';
    }
  }

  /** The trailer is accepted exactly when it is a row of fields and extension lists, and says what those say. */
  lemma TrailerExactlyWhen(der: seq<Byte>, off: int, end: int)
    ensures Trailer(der, off, end, Said(false, [])).Some? <==> exists ts, lists :: TrailerReads(der, off, end, ts, lists)
    ensures forall ts, lists :: TrailerReads(der, off, end, ts, lists) ==>
      Trailer(der, off, end, Said(false, [])) == Some(SaidByAll(der, Said(false, []), lists))
  {
    hide Trailer, TrailerReads;
    if Trailer(der, off, end, Said(false, [])).Some? {
      var ts, lists := TrailerReadIs(der, off, end, Said(false, []));
    }
    forall ts, lists | TrailerReads(der, off, end, ts, lists)
      ensures Trailer(der, off, end, Said(false, [])) == Some(SaidByAll(der, Said(false, []), lists))
    {
      TrailerIsRead(der, off, end, Said(false, []), ts, lists);
    }
  }

  datatype Parsed = Parsed(outer: Outer, fields: Fields, said: Said)

  predicate Shape(der: seq<Byte>, time: (Byte, seq<Byte>) -> Option<int>, p: Parsed) {
    && OuterShape(der, p.outer)
    && FieldsShape(der, p.outer.tbs, p.outer.algorithm, time, p.fields)
    && Trailer(der, p.fields.key.spki.contentEnd, p.outer.tbs.contentEnd, Said(false, [])) == Some(p.said)
  }

  /** The whole reader accepts exactly the certificates that have the shape. */
  method ParseCertificate(der: seq<Byte>, time: (Byte, seq<Byte>) -> Option<int>) returns (r: Option<Parsed>)
    ensures r.Some? <==> exists p :: Shape(der, time, p)
    ensures r.Some? ==> Shape(der, time, r.value)
  {
    var outer := ParseOuter(der);
    if outer.None? { return None; }
    var fields := ParseFields(der, outer.value.tbs, outer.value.algorithm, time);
    if fields.None? {
      forall p ensures !Shape(der, time, p) { OuterIsUnique(der, outer.value, p.outer); }
      return None;
    }
    var said := ParseTrailer(der, fields.value.key.spki.contentEnd, outer.value.tbs.contentEnd);
    if said.None? {
      forall p ensures !Shape(der, time, p) {
        OuterIsUnique(der, outer.value, p.outer);
        FieldsAreUnique(der, outer.value.tbs, outer.value.algorithm, time, fields.value, p.fields);
      }
      return None;
    }
    r := Some(Parsed(outer.value, fields.value, said.value));
    assert Shape(der, time, r.value);
  }

  lemma OuterIsUnique(der: seq<Byte>, a: Outer, b: Outer)
    requires OuterShape(der, a)
    ensures OuterShape(der, b) ==> a == b
  {
  }

  lemma FieldsAreUnique(der: seq<Byte>, tbs: Tlv, algorithm: Tlv, time: (Byte, seq<Byte>) -> Option<int>, a: Fields, b: Fields)
    requires tbs.contentStart <= tbs.contentEnd <= |der| && algorithm.start <= algorithm.contentEnd <= |der|
    requires FieldsShape(der, tbs, algorithm, time, a)
    ensures FieldsShape(der, tbs, algorithm, time, b) ==> a == b
  {
    hide TlvAt;
  }
}
