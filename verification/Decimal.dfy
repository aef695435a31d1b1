/**
 Exact decimal conversion (src/aig-logs.ts:136-189, src/aig-models.ts:72-101): USD text to integer
 micro-USD, and USD per token to integer micro-USD per million tokens, both rounded up.

 A text is taken apart by one greedy pass over the grammar; its meaning is a fraction, and the conversion
 is the least integer not below that fraction times a power of ten.
 */
module Decimal {
  import opened Wrappers
  import opened Arith

  predicate IsDigit(c: char) { '0' <= c <= '9' }

  predicate AllDigits(s: string) { forall i :: 0 <= i < |s| ==> IsDigit(s[i]) }

  /** The length of the longest run of digits at the front. */
  function Run(s: string): (n: nat)
    ensures n <= |s| && AllDigits(s[..n]) && (n < |s| ==> !IsDigit(s[n]))
  {
    if |s| == 0 || !IsDigit(s[0]) then 0 else 1 + Run(s[1..])
  }

  /** The digits read as a number; nothing reads as zero. */
  function Number(s: string): nat
    requires AllDigits(s)
  {
    if |s| == 0 then 0 else 10 * Number(s[..|s| - 1]) + (s[|s| - 1] - '0') as nat
  }

  // ---- the grammar ----

  datatype Sign = NoSign | Plus | Minus

  datatype Exponent = NoExponent | Exponent(upper: bool, sign: Sign, digits: string)

  /** One decimal text, taken apart. `frac` is None when there is no point. */
  datatype Parts = Parts(plus: bool, whole: string, frac: Option<string>, exponent: Exponent)

  predicate WellFormed(p: Parts) {
    && AllDigits(p.whole)
    && (p.frac.Some? ==> AllDigits(p.frac.value))
    && (p.exponent.Exponent? ==> AllDigits(p.exponent.digits) && p.exponent.digits != "")
  }

  function SignText(s: Sign): string {
    match s case NoSign => "" case Plus => "+" case Minus => "-"
  }

  function ExponentText(e: Exponent): string {
    if e.NoExponent? then "" else (if e.upper then "E" else "e") + SignText(e.sign) + e.digits
  }

  function FracText(p: Parts): string { if p.frac.Some? then "." + p.frac.value else "" }

  /** The text those parts are written as. */
  function Written(p: Parts): string {
    (if p.plus then "+" else "") + (p.whole + (FracText(p) + ExponentText(p.exponent)))
  }

  // ---- the parser: one greedy pass ----

  function ParseExponent(s: string): Option<Exponent> {
    if |s| == 0 then Some(NoExponent)
    else if s[0] != 'e' && s[0] != 'E' then None
    else
      var sign := if |s| > 1 && s[1] == '+' then Plus else if |s| > 1 && s[1] == '-' then Minus else NoSign;
      var digits := if sign.NoSign? then s[1..] else s[2..];
      if digits != "" && Run(digits) == |digits| then Some(Exponent(s[0] == 'E', sign, digits)) else None
  }

  function ParseFrac(s: string): (Option<string>, string) {
    if |s| > 0 && s[0] == '.' then
      var n := Run(s[1..]);
      (Some(s[1..][..n]), s[1..][n..])
    else (None, s)
  }

  function Parse(text: string): Option<Parts> {
    var plus := |text| > 0 && text[0] == '+';
    var body := if plus then text[1..] else text;
    var n := Run(body);
    var (frac, rest) := ParseFrac(body[n..]);
    var e := ParseExponent(rest);
    if e.Some? then Some(Parts(plus, body[..n], frac, e.value)) else None
  }

  lemma {:induction false} RunOf(a: string, b: string)
    requires AllDigits(a) && (|b| > 0 ==> !IsDigit(b[0]))
    ensures Run(a + b) == |a| && (a + b)[..|a|] == a && (a + b)[|a|..] == b
  {
    if |a| > 0 {
      RunOf(a[1..], b);
      assert (a + b)[1..] == a[1..] + b;
    }
  }

  lemma ExponentReads(e: Exponent)
    requires e.Exponent? ==> AllDigits(e.digits) && e.digits != ""
    ensures ParseExponent(ExponentText(e)) == Some(e)
    ensures |ExponentText(e)| > 0 ==> ExponentText(e)[0] == 'e' || ExponentText(e)[0] == 'E'
  {
    if e.Exponent? {
      var s := ExponentText(e);
      RunOf(e.digits, "");
      assert e.digits + "" == e.digits;
      assert s[1 + |SignText(e.sign)|..] == e.digits;
      if e.sign.NoSign? { assert s[1] == e.digits[0]; }
    }
  }

  lemma ExponentWrites(s: string)
    requires ParseExponent(s).Some?
    ensures ExponentText(ParseExponent(s).value) == s
    ensures var e := ParseExponent(s).value; e.Exponent? ==> AllDigits(e.digits) && e.digits != ""
  {
    if |s| > 0 {
      var e := ParseExponent(s).value;
      assert e.digits[..|e.digits|] == e.digits;
      assert s == [s[0]] + SignText(e.sign) + e.digits;
    }
  }

  predicate Bare(s: string) { |s| > 0 ==> s[0] == 'e' || s[0] == 'E' }

  lemma FracReads(frac: Option<string>, tail: string)
    requires (frac.Some? ==> AllDigits(frac.value)) && Bare(tail)
    ensures var s := (if frac.Some? then "." + frac.value else "") + tail;
      ParseFrac(s) == (frac, tail) && (|s| > 0 ==> !IsDigit(s[0]) && s[0] != '+')
  {
    if frac.Some? {
      assert ("." + frac.value + tail)[1..] == frac.value + tail;
      RunOf(frac.value, tail);
    } else {
      assert "" + tail == tail;
    }
  }

  lemma FracWrites(s: string)
    ensures var (frac, tail) := ParseFrac(s);
      (frac.Some? ==> AllDigits(frac.value)) && s == (if frac.Some? then "." + frac.value else "") + tail
  {
  }

  /** Parsing undoes writing. */
  lemma ParseReads(p: Parts)
    requires WellFormed(p)
    ensures Parse(Written(p)) == Some(p)
  {
    hide ParseFrac, ParseExponent, ExponentText, Run, AllDigits;
    var text := Written(p);
    var tail := FracText(p) + ExponentText(p.exponent);
    var body := p.whole + tail;
    ExponentReads(p.exponent);
    FracReads(p.frac, ExponentText(p.exponent));
    RunOf(p.whole, tail);
    NoPlus(p.whole, tail);
    if p.plus { assert text[0] == '+' && text[1..] == body; } else { assert text == body; }
  }

  lemma NoPlus(whole: string, tail: string)
    requires AllDigits(whole) && (|tail| > 0 ==> tail[0] != '+')
    ensures |whole + tail| > 0 ==> (whole + tail)[0] != '+'
  {
    if |whole| > 0 { assert IsDigit(whole[0]); }
  }

  lemma RunSplits(s: string)
    ensures Run(s) <= |s| && AllDigits(s[..Run(s)]) && s == s[..Run(s)] + s[Run(s)..]
  {
    SplitAt(s, Run(s));
  }

  lemma SplitAt(s: string, n: nat)
    requires n <= |s|
    ensures s == s[..n] + s[n..]
  {
  }

  /** Writing undoes parsing: nothing outside the grammar is accepted. */
  lemma ParseWrites(text: string)
    requires Parse(text).Some?
    ensures WellFormed(Parse(text).value) && Written(Parse(text).value) == text
  {
    hide ParseFrac, ParseExponent, ExponentText, Written, Run, AllDigits;
    var p := Parse(text).value;
    var body := if p.plus then text[1..] else text;
    assert text == (if p.plus then "+" else "") + body;
    RunSplits(body);
    var rest := ParseFrac(body[Run(body)..]).1;
    FracWrites(body[Run(body)..]);
    ExponentWrites(rest);
    WritesBack(text, p, body, rest);
  }

  lemma WritesBack(text: string, p: Parts, body: string, rest: string)
    requires text == (if p.plus then "+" else "") + body
    requires body == p.whole + (FracText(p) + rest) && rest == ExponentText(p.exponent)
    ensures Written(p) == text
  {
    hide ExponentText, FracText;
  }

  // ---- the value ----

  function Pow10(n: nat): (r: nat)
    ensures r >= 1
  {
    if n == 0 then 1 else 10 * Pow10(n - 1)
  }

  lemma {:induction false} Pow10Add(a: nat, b: nat)
    ensures Pow10(a + b) == Pow10(a) * Pow10(b)
  {
    if a > 0 { Pow10Add(a - 1, b); }
  }

  /** Digits count by their place, ten times as much each place to the left. */
  lemma {:induction false} DigitsCountByPlace(a: string, b: string)
    requires AllDigits(a) && AllDigits(b)
    ensures AllDigits(a + b) && Number(a + b) == Number(a) * Pow10(|b|) + Number(b)
    ensures |a| == 1 ==> Number(a) == (a[0] - '0') as int
    ensures Pow10(0) == 1 && Pow10(1) == 10 && (|b| > 0 ==> Pow10(|b|) == 10 * Pow10(|b| - 1))
    decreases |b|
  {
    if |b| == 0 {
      assert a + b == a;
    } else {
      var init := b[..|b| - 1];
      DigitsCountByPlace(a, init);
      assert (a + b)[..|a + b| - 1] == a + init;
      TenTimes(Number(a), Pow10(|init|), Number(init));
    }
    if |a| == 1 { assert a[..0] == ""; }
  }

  lemma TenTimes(x: nat, y: nat, z: nat)
    ensures 10 * (x * y + z) == x * (10 * y) + 10 * z
  {
  }

  const MAX_EXPONENT := 60
  const MAX_SAFE_INTEGER := 9007199254740991

  function Power(p: Parts): int
    requires WellFormed(p)
  {
    if p.exponent.NoExponent? then 0
    else if p.exponent.sign.Minus? then -(Number(p.exponent.digits) as int)
    else Number(p.exponent.digits)
  }

  function Frac(p: Parts): string { p.frac.GetOr("") }

  /** At least one digit, and an exponent of at most 60 either way. */
  predicate Accepted(p: Parts)
    requires WellFormed(p)
  {
    (p.whole != "" || Frac(p) != "") && -MAX_EXPONENT <= Power(p) <= MAX_EXPONENT
  }

  function Digits(p: Parts): nat
    requires WellFormed(p)
  {
    Number(p.whole + Frac(p))
  }

  /** The conversion, `scale` powers of ten up; None is the source's null. */
  function Scaled(digits: nat, exponent: int): nat {
    if exponent >= 0 then digits * Pow10(exponent)
    else CeilBy(digits, Pow10(-exponent))
  }

  /** BigInt division, with one added for a remainder. */
  function CeilBy(n: nat, divisor: nat): nat
    requires divisor > 0
  {
    n / divisor + if n % divisor == 0 then 0 else 1
  }

  function WithinSafeRange(n: nat): Option<nat> { if n > MAX_SAFE_INTEGER then None else Some(n) }

  function Convert(text: string, scale: nat): Option<nat> {
    var p := Parse(text);
    if p.None? then None
    else
      ParseWrites(text);
      if !Accepted(p.value) then None
      else WithinSafeRange(Scaled(Digits(p.value), Power(p.value) - |Frac(p.value)| + scale))
  }

  const MICRO := 6
  const PER_MTOK := 12

  /** Text is already trimmed, or a number's own text. */
  function MicroUsdFromUsd(text: string): Option<nat> { Convert(text, MICRO) }

  /** A finite non-negative number's own text; zero is answered before any parsing. */
  function MicroUsdPerMTok(text: string): Option<nat> {
    if text == "0" then Some(0) else Convert(text, PER_MTOK)
  }

  /** The power of ten a text ends in. */
  function TenTo(e: Exponent): int
    requires e.Exponent? ==> AllDigits(e.digits)
  {
    match e
    case NoExponent => 0
    case Exponent(_, Minus, digits) => 0 - Number(digits)
    case Exponent(_, _, digits) => Number(digits)
  }

  function AfterPoint(p: Parts): string { match p.frac case None => "" case Some(digits) => digits }

  /** What the text means: `Numerator / Denominator` USD. */
  function Numerator(p: Parts): nat
    requires WellFormed(p)
  {
    Number(p.whole + AfterPoint(p)) * Pow10(if TenTo(p.exponent) > 0 then TenTo(p.exponent) else 0)
  }

  function Denominator(p: Parts): nat
    requires WellFormed(p)
  {
    Pow10(|AfterPoint(p)| + if TenTo(p.exponent) < 0 then -TenTo(p.exponent) else 0)
  }

  /** Some digit is written, and the exponent is at most 60 either way. */
  predicate Convertible(p: Parts)
    requires WellFormed(p)
  {
    |p.whole| + |AfterPoint(p)| > 0 && -60 <= TenTo(p.exponent) <= 60
  }

  lemma MeaningIs(p: Parts)
    requires WellFormed(p)
    ensures Numerator(p) == Digits(p) * Pow10(if Power(p) > 0 then Power(p) else 0)
    ensures Denominator(p) == Pow10(|Frac(p)| + if Power(p) < 0 then -Power(p) else 0)
    ensures Convertible(p) <==> Accepted(p)
  {
  }

  /** The least integer that is not below n / d. */
  predicate LeastAbove(m: int, n: int, d: nat) { (m - 1) * d < n <= m * d }

  lemma LeastIsUnique(m: int, m': int, n: int, d: nat)
    requires LeastAbove(m, n, d) && LeastAbove(m', n, d)
    ensures m == m'
  {
    CancelLt(m - 1, m', d);
    CancelLt(m' - 1, m, d);
  }

  lemma WholeIsLeast(x: int, d: nat)
    requires d > 0
    ensures LeastAbove(x, x * d, d)
  {
    MulLt(x - 1, x, d);
  }

  lemma DivRoundsUp(n: nat, d: nat)
    requires d > 0
    ensures LeastAbove(CeilBy(n, d), n, d)
  {
    var q := n / d;
    assert n == q * d + n % d;
    assert (q + 1) * d == q * d + d && (q - 1) * d == q * d - d;
  }

  lemma LeastScales(m: int, n: int, d: nat, k: nat)
    requires k > 0 && LeastAbove(m, n, d)
    ensures LeastAbove(m, n * k, d * k)
  {
    MulLt((m - 1) * d, n, k);
    MulLe(n, m * d, k);
    Swap(m - 1, d, k);
    Swap(m, d, k);
  }

  predicate IsProduct(c: int, a: int, b: int) { c == a * b }

  lemma Pow10Of(n: nat, a: nat, b: nat)
    requires n == a + b
    ensures IsProduct(Pow10(n), Pow10(a), Pow10(b)) && Pow10(n) > 0 && Pow10(a) > 0 && Pow10(b) > 0
  {
    Pow10Add(a, b);
  }

  lemma Pow10Positive(n: nat)
    ensures Pow10(n) > 0
  {
  }

  lemma ScaledUp(digits: nat, e: nat, d: nat, w: nat)
    requires d > 0 && IsProduct(w, e, d)
    ensures LeastAbove(digits * e, digits * w, d)
  {
    Swap(digits, e, d);
    WholeIsLeast(digits * e, d);
  }

  lemma ScaledDown(digits: nat, q: nat, u: nat, w: nat)
    requires q > 0 && u > 0 && IsProduct(w, q, u)
    ensures LeastAbove(CeilBy(digits, q), digits * u, w)
  {
    hide CeilBy;
    DivRoundsUp(digits, q);
    LeastScales(CeilBy(digits, q), digits, q, u);
  }

  lemma ScaledUpIsLeast(digits: nat, up: nat, down: nat)
    requires up >= down
    ensures LeastAbove(Scaled(digits, up - down), digits * Pow10(up), Pow10(down))
  {
    hide Pow10, LeastAbove, CeilBy, IsProduct;
    var e, d, w := Pow10(up - down), Pow10(down), Pow10(up);
    Pow10Of(up, up - down, down);
    assert Scaled(digits, up - down) == digits * e;
    ScaledUp(digits, e, d, w);
  }

  lemma ScaledByDivision(digits: nat, exponent: int)
    requires exponent < 0
    ensures Scaled(digits, exponent) == CeilBy(digits, Pow10(-exponent))
  {
  }

  lemma ScaledDownIsLeast(digits: nat, up: nat, down: nat)
    requires up < down
    ensures LeastAbove(Scaled(digits, up - down), digits * Pow10(up), Pow10(down))
  {
    hide Pow10, LeastAbove, CeilBy, IsProduct, Scaled;
    var q, u, w := Pow10(down - up), Pow10(up), Pow10(down);
    Pow10Of(down, down - up, up);
    ScaledByDivision(digits, up - down);
    ScaledDown(digits, q, u, w);
  }

  /** Scaling by the signed power is dividing by the denominator, rounded up. */
  lemma ScaledIsLeast(digits: nat, up: nat, down: nat)
    ensures LeastAbove(Scaled(digits, up - down), digits * Pow10(up), Pow10(down))
  {
    if up >= down { ScaledUpIsLeast(digits, up, down); } else { ScaledDownIsLeast(digits, up, down); }
  }

  lemma ValueIsScaled(p: Parts, scale: nat)
    requires WellFormed(p)
    ensures Denominator(p) > 0
    ensures LeastAbove(Scaled(Digits(p), Power(p) - |Frac(p)| + scale), Numerator(p) * Pow10(scale), Denominator(p))
  {
    MeaningIs(p);
    hide Pow10, LeastAbove, Scaled, Digits, Power, Frac, WellFormed, Numerator, Denominator;
    var up := if Power(p) > 0 then Power(p) else 0;
    var down := |Frac(p)| + if Power(p) < 0 then -Power(p) else 0;
    ScaledIsLeast(Digits(p), up + scale, down);
    Pow10Add(up, scale);
    Pow10Positive(down);
    Swap(Digits(p), Pow10(up), Pow10(scale));
    assert up + scale - down == Power(p) - |Frac(p)| + scale;
  }

  /**
   The conversion is exact: it answers m exactly when the text is written in the grammar with a small
   exponent, m is the least integer not below the scaled value, and m is a safe integer.
   */
  lemma ConvertsExactlyWhen(text: string, scale: nat, m: nat)
    ensures Convert(text, scale) == Some(m) <==>
      exists p :: WellFormed(p) && Written(p) == text && Convertible(p) && m <= 9_007_199_254_740_991
               && LeastAbove(m, Numerator(p) * Pow10(scale), Denominator(p))
  {
    hide Numerator, Denominator, Scaled, LeastAbove, Parse, Written, Accepted, Convertible;
    if Convert(text, scale) == Some(m) {
      ParseWrites(text);
      MeaningIs(Parse(text).value);
      ValueIsScaled(Parse(text).value, scale);
    }
    forall p | WellFormed(p) && Written(p) == text && Convertible(p) && m <= MAX_SAFE_INTEGER
            && LeastAbove(m, Numerator(p) * Pow10(scale), Denominator(p))
      ensures Convert(text, scale) == Some(m)
    {
      ParseReads(p);
      MeaningIs(p);
      ValueIsScaled(p, scale);
      LeastIsUnique(m, Scaled(Digits(p), Power(p) - |Frac(p)| + scale), Numerator(p) * Pow10(scale), Denominator(p));
    }
  }

  ghost predicate Amount(text: string, n: nat, d: nat) {
    exists p :: WellFormed(p) && Written(p) == text && Convertible(p) && n == Numerator(p) && d == Denominator(p)
  }

  /** The two converters: USD to the least micro-USD not below it, and USD per token to that per million tokens. */
  lemma ConvertersAreExact(text: string, m: nat)
    ensures MicroUsdFromUsd(text) == Some(m) <==>
      m <= 9_007_199_254_740_991 && exists n: nat, d: nat :: Amount(text, n, d) && LeastAbove(m, n * 1_000_000, d)
    ensures MicroUsdPerMTok(text) == Some(m) <==>
      m <= 9_007_199_254_740_991 && exists n: nat, d: nat :: Amount(text, n, d) && LeastAbove(m, n * 1_000_000_000_000, d)
  {
    hide Convert, LeastAbove, Pow10, Convertible, Numerator, Denominator, Written, WellFormed;
    ZeroShortcut();
    ConvertsExactlyWhen(text, 6, m);
    ConvertsExactlyWhen(text, 12, m);
    Million();
    assert Pow10(12) == 1_000_000_000_000;
  }

  /** The parts of a convertible text. */
  function Meaning(text: string): (p: Parts)
    requires Parse(text).Some?
    ensures WellFormed(p) && Written(p) == text
  {
    ParseWrites(text);
    Parse(text).value
  }

  lemma Converted(text: string, scale: nat)
    requires Convert(text, scale).Some?
    ensures Parse(text).Some? && Denominator(Meaning(text)) > 0
    ensures LeastAbove(Convert(text, scale).value, Numerator(Meaning(text)) * Pow10(scale), Denominator(Meaning(text)))
  {
    hide Parse, Written, WellFormed, Accepted, Scaled, Numerator, Denominator, LeastAbove, Digits, Power, Frac, Pow10;
    ParseWrites(text);
    ValueIsScaled(Meaning(text), scale);
  }

  /** A larger amount never converts to less. */
  lemma ConversionIsMonotone(a: string, b: string, scale: nat)
    requires Convert(a, scale).Some? && Convert(b, scale).Some?
    requires Numerator(Meaning(a)) * Denominator(Meaning(b)) <= Numerator(Meaning(b)) * Denominator(Meaning(a))
    ensures Convert(a, scale).value <= Convert(b, scale).value
  {
    hide Convert, Numerator, Denominator, Pow10;
    Converted(a, scale);
    Converted(b, scale);
    Compare(Convert(a, scale).value, Convert(b, scale).value, Numerator(Meaning(a)), Denominator(Meaning(a)),
            Numerator(Meaning(b)), Denominator(Meaning(b)), Pow10(scale));
  }

  lemma Compare(m: nat, m': nat, n: nat, d: nat, n': nat, d': nat, k: nat)
    requires d > 0 && d' > 0 && LeastAbove(m, n * k, d) && LeastAbove(m', n' * k, d') && n * d' <= n' * d
    ensures m <= m'
  {
    MulLt((m - 1) * d, n * k, d');
    MulLe(n * d', n' * d, k);
    MulLe(n' * k, m' * d', d);
    Swap(m - 1, d, d');
    Swap(n, k, d');
    Swap(n', d, k);
    Swap(m', d', d);
    CancelLt(m - 1, m', d * d');
  }

  /** Only zero is free. */
  lemma OnlyZeroConvertsToZero(text: string, scale: nat)
    requires Convert(text, scale).Some?
    ensures Convert(text, scale).value == 0 <==> Number(Meaning(text).whole + AfterPoint(Meaning(text))) == 0
  {
    hide Convert, Pow10, LeastAbove, Digits, Numerator, Denominator, Power, Frac, WellFormed, Parse, Written, Number, Accepted,
      Convertible, AfterPoint, TenTo, Meaning;
    Converted(text, scale);
    var p := Meaning(text);
    MeaningIs(p);
    DigitsAre(p);
    var up := if Power(p) > 0 then Power(p) else 0;
    Pow10Positive(up);
    Pow10Positive(scale);
    ZeroProduct(Digits(p), Pow10(up), Pow10(scale));
    ZeroLeast(Convert(text, scale).value, Numerator(p) * Pow10(scale), Denominator(p));
  }

  lemma DigitsAre(p: Parts)
    requires WellFormed(p)
    ensures Digits(p) == Number(p.whole + AfterPoint(p))
  {
  }

  lemma ZeroProduct(a: nat, b: nat, c: nat)
    requires b > 0 && c > 0
    ensures a * b * c == 0 <==> a == 0
  {
    if a > 0 {
      MulLt(0, a, b);
      MulLt(0, a * b, c);
    }
  }

  lemma ZeroLeast(m: nat, n: nat, d: nat)
    requires d > 0 && LeastAbove(m, n, d)
    ensures m == 0 <==> n == 0
  {
    if m > 0 { MulLe(0, m - 1, d); }
  }

  /** The two scales agree: a rate per million tokens sits just under a million of its micro-USD price. */
  lemma ScalesAgree(text: string)
    requires MicroUsdFromUsd(text).Some? && MicroUsdPerMTok(text).Some?
    ensures var micro, rate := MicroUsdFromUsd(text).value, MicroUsdPerMTok(text).value;
      1_000_000 * (micro - 1) < rate <= 1_000_000 * micro
  {
    ZeroShortcut();
    Million();
    hide Convert, Numerator, Denominator, Pow10;
    Converted(text, MICRO);
    Converted(text, PER_MTOK);
    Swap(Numerator(Meaning(text)), Pow10(6), 1_000_000);
    MillionfoldScales(Convert(text, MICRO).value, Convert(text, PER_MTOK).value, Numerator(Meaning(text)) * Pow10(6),
                      Denominator(Meaning(text)));
  }

  lemma Million()
    ensures Pow10(6) == 1_000_000 && Pow10(12) == Pow10(6) * 1_000_000
  {
    Pow10Add(6, 6);
    assert Pow10(3) == 1000;
  }

  lemma MillionfoldScales(micro: nat, rate: nat, n: nat, d: nat)
    requires LeastAbove(micro, n, d) && LeastAbove(rate, n * 1_000_000, d)
    ensures 1_000_000 * (micro - 1) < rate <= 1_000_000 * micro
  {
    Swap(1_000_000, micro - 1, d);
    CancelLt(1_000_000 * (micro - 1), rate, d);
    Swap(1_000_000, micro, d);
    CancelLt(rate - 1, 1_000_000 * micro, d);
  }

  /** Answering zero early changes nothing. */
  lemma ZeroShortcut()
    ensures Convert("0", PER_MTOK) == Some(0)
  {
    var p := Parts(false, "0", None, NoExponent);
    assert Written(p) == "0";
    ParseReads(p);
    assert p.whole + Frac(p) == "0";
    assert "0"[..0] == "";
    assert Number("0") == 0;
  }
}
