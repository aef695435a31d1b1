/**
 Double-precision pricing (src/meter.ts:134-164): round-to-nearest, ties to even, as in section 4.3.1
 of IEEE 754. Every product, sum and quotient below is rounded the way the source computes it.
 */
module Double {
  const LARGEST := 0x20_0000_0000_0000 // 2^53
  const MILLION := 1_000_000

  function Two(e: int): (r: real)
    ensures r > 0.0
    decreases if e < 0 then -e else e
  {
    if e == 0 then 1.0 else if e > 0 then 2.0 * Two(e - 1) else Two(e + 1) / 2.0
  }

  predicate Scaled(x: real, m: int, e: int) {
    && -LARGEST <= m <= LARGEST && -1074 <= e <= 971 && (e == 971 ==> -LARGEST < m < LARGEST)
    && x == m as real * Two(e)
  }

  ghost predicate IsDouble(x: real) { exists m, e :: Scaled(x, m, e) }

  function Gap(a: real, b: real): real { if a < b then b - a else a - b }

  /** Even significand in normal form: what breaks a tie. */
  ghost predicate Even(x: real) {
    exists m, e :: Scaled(x, m, e) && m % 2 == 0 && (m >= LARGEST / 2 || m <= -LARGEST / 2)
  }

  /** `d` is what a correctly rounded operation whose exact result is `x` returns. */
  ghost predicate Rounds(x: real, d: real) {
    && IsDouble(d)
    && (forall r :: IsDouble(r) ==> Gap(x, d) <= Gap(x, r))
    && (forall r :: IsDouble(r) && r != d && Gap(x, d) == Gap(x, r) ==> Even(d))
  }

  lemma ExactRoundsToItself(x: real, d: real)
    requires IsDouble(x) && Rounds(x, d)
    ensures d == x
  {
    assert Gap(x, d) <= Gap(x, x);
  }

  lemma SmallIntegersAreDoubles(n: int)
    requires -LARGEST <= n <= LARGEST
    ensures IsDouble(n as real)
  {
    assert Scaled(n as real, n, 0);
  }

  /** One evaluation of exactMicroUsd over the two exact products: they, their sum and the quotient are rounded. */
  ghost predicate Computation(input: nat, output: nat, a: real, b: real, s: real, q: real) {
    Rounds(input as real, a) && Rounds(output as real, b) && Rounds(a + b, s) && Rounds(s / 1000000.0, q)
  }

  ghost predicate Evaluates(input: nat, output: nat, q: real) {
    exists a, b, s :: Computation(input, output, a, b, s, q)
  }

  function Ceil(x: real): int { -((-x).Floor) }

  function CeilDiv(n: nat, d: nat): nat
    requires d > 0
  {
    (n + d - 1) / d
  }

  /** The numerator is exact when it fits 53 bits. */
  lemma NumeratorIsExact(input: nat, output: nat, q: real)
    requires input + output <= LARGEST && Evaluates(input, output, q)
    ensures Rounds((input + output) as real / 1000000.0, q)
  {
    hide Rounds, IsDouble;
    var a, b, s :| Computation(input, output, a, b, s, q);
    SmallIntegersAreDoubles(input);
    SmallIntegersAreDoubles(output);
    SmallIntegersAreDoubles(input + output);
    ExactRoundsToItself(input as real, a);
    ExactRoundsToItself(output as real, b);
    assert input as real + output as real == (input + output) as real;
    ExactRoundsToItself((input + output) as real, s);
  }

  lemma FineGrid()
    ensures Two(-19) == 1.0 / 524288.0
  {
    assert Two(-4) == 1.0 / 16.0;
    assert Two(-8) == 1.0 / 256.0;
    assert Two(-12) == 1.0 / 4096.0;
    assert Two(-16) == 1.0 / 65536.0;
  }

  /** Below 2^34 there is a double within 2^-20 of everything. */
  lemma NearbyDouble(x: real) returns (r: real)
    requires 0.0 <= x <= 9007199255.0
    ensures IsDouble(r) && Gap(x, r) <= 1.0 / 1048576.0
  {
    var m := (x * 524288.0 + 0.5).Floor;
    FineGrid();
    r := m as real * Two(-19);
    assert Scaled(r, m, -19);
  }

  /** One over the grid is never rounded away: 2^-20 is less than a millionth. */
  lemma QuotientStaysInside(n: nat, k: nat, q: real)
    requires n <= LARGEST && Rounds(n as real / 1000000.0, q)
    requires k * MILLION < n < (k + 1) * MILLION
    ensures k as real < q < (k + 1) as real
  {
    var x := n as real / 1000000.0;
    var r := NearbyDouble(x);
    assert Gap(x, q) <= Gap(x, r);
    assert x >= k as real + 0.000001 && x <= (k + 1) as real - 0.000001;
  }

  /** Both roundings of the computed quotient are the roundings of the true one. */
  lemma RoundingsAreExact(n: nat, q: real)
    requires n <= LARGEST && Rounds(n as real / 1000000.0, q)
    ensures q.Floor == n / MILLION && Ceil(q) == CeilDiv(n, MILLION)
  {
    var k := n / MILLION;
    if n == k * MILLION {
      assert n as real / 1000000.0 == k as real;
      SmallIntegersAreDoubles(k);
      ExactRoundsToItself(k as real, q);
    } else {
      QuotientStaysInside(n, k, q);
    }
  }

  // ---- and not beyond 53 bits ----

  /** Whatever the machine computes, both roundings of every price up to `cap` micro-USD are right. */
  ghost predicate PricesAreExactUpTo(cap: nat) {
    forall input: nat, output: nat, q: real ::
      input + output <= cap * MILLION && Evaluates(input, output, q)
      ==> q.Floor == (input + output) / MILLION && Ceil(q) == CeilDiv(input + output, MILLION)
  }

  function Pow(e: nat): nat { if e == 0 then 1 else 2 * Pow(e - 1) }

  lemma {:induction false} TwoIsWhole(e: nat)
    ensures Two(e) == Pow(e) as real && Pow(e) >= 1 && (e >= 2 ==> Pow(e) >= 4)
  {
    if e > 0 { TwoIsWhole(e - 1); }
    if e > 1 { TwoIsWhole(e - 2); }
  }

  lemma {:induction false} SmallTwo(e: int)
    requires e <= 0
    ensures Two(e) <= 1.0
    decreases -e
  {
    if e < 0 { SmallTwo(e + 1); }
  }

  lemma Product(m: int, x: real, bound: real)
    requires 0.0 < x <= bound
    ensures m <= 0 ==> m as real * x <= 0.0
    ensures m >= 0 ==> m as real * x <= m as real * bound
  {
  }

  const OVER := 9007199254999999 // past 2^53, one below a whole micro-USD

  /** A mantissa scaled down stays within the mantissa. */
  lemma ScaledDown(m: int, y: real)
    requires m <= LARGEST && 0.0 < y <= 1.0
    ensures m as real * y <= LARGEST as real
  {
    if m > 0 {
      assert m as real * y <= m as real * 1.0 by { Product(m, y, 1.0); }
    } else {
      assert m as real * y <= 0.0 by { Product(m, y, 1.0); }
    }
  }

  lemma LargeHasPositiveExponent(x: real, m: int, e: int)
    requires Scaled(x, m, e) && LARGEST as real < x
    ensures e >= 1
  {
    hide Two;
    if e <= 0 {
      SmallTwo(e);
      ScaledDown(m, Two(e));
    }
  }

  lemma WholeProduct(m: int, p: int)
    ensures m as real * p as real == (m * p) as real
  {
  }

  lemma Doubled(m: int, p: int)
    ensures m * (2 * p) == 2 * (m * p)
  {
  }

  /** Past 2^53 a double has a positive exponent, so it is an even integer. */
  lemma DoublesThereAreEven(x: real, m: int, e: int) returns (k: int)
    requires Scaled(x, m, e) && LARGEST as real < x
    ensures e >= 1 && k == m * Pow(e - 1) && x == (2 * k) as real
  {
    hide Two, Pow;
    LargeHasPositiveExponent(x, m, e);
    TwoIsWhole(e);
    PowDoubles(e);
    k := m * Pow(e - 1);
    WholeProduct(m, Pow(e));
    Doubled(m, Pow(e - 1));
  }

  lemma PowDoubles(e: nat)
    requires e >= 1
    ensures Pow(e) == 2 * Pow(e - 1)
  {
  }

  lemma Neighbours()
    ensures Scaled((OVER + 1) as real, (OVER + 1) / 2, 1) && Scaled((OVER - 1) as real, (OVER - 1) / 2, 1)
    ensures Even((OVER + 1) as real) && !Even((OVER - 1) as real)
  {
    assert Two(1) == 2.0;
    var up, down := (OVER + 1) as real, (OVER - 1) as real;
    assert Scaled(up, (OVER + 1) / 2, 1);
    forall m: int, e: int | Scaled(down, m, e) && (m >= LARGEST / 2 || m <= -LARGEST / 2) ensures m % 2 == 1 {
      var k := DoublesThereAreEven(down, m, e);
      OddFactor(m, e, k);
    }
  }

  lemma OddFactor(m: int, e: int, k: int)
    requires e >= 1 && k == m * Pow(e - 1) && 2 * k == OVER - 1
    requires m >= LARGEST / 2 || m <= -LARGEST / 2
    ensures m % 2 == 1
  {
    TwoIsWhole(e - 1);
  }

  /** The tie just below a whole micro-USD is broken upwards. */
  lemma OverRoundsUp(s: real)
    ensures Rounds(OVER as real, s) <==> s == (OVER + 1) as real
  {
    var x, up, down := OVER as real, (OVER + 1) as real, (OVER - 1) as real;
    Neighbours();
    assert IsDouble(up) && IsDouble(down);
    forall r | IsDouble(r) ensures Gap(x, r) >= 1.0 && (Gap(x, r) == 1.0 ==> r == up || r == down) {
      if LARGEST as real < r {
        var m, e :| Scaled(r, m, e);
        var k := DoublesThereAreEven(r, m, e);
      }
    }
  }

  /** Two exactly representable token counts at the rate 1, and their unrepresentable sum. */
  const TOKENS_IN := 4503599627499999
  const TOKENS_OUT := 4503599627500000

  /** floor() then charges a micro-USD more than the exact price. */
  lemma OverIsMispriced()
    ensures TOKENS_IN + TOKENS_OUT == OVER
    ensures Evaluates(TOKENS_IN, TOKENS_OUT, 9007199255.0) && 9007199255.0.Floor == OVER / MILLION + 1
  {
    hide Rounds, IsDouble;
    SmallIntegersAreDoubles(TOKENS_IN);
    SmallIntegersAreDoubles(TOKENS_OUT);
    SmallIntegersAreDoubles(9007199255);
    DoublesRoundToThemselves(TOKENS_IN as real);
    DoublesRoundToThemselves(TOKENS_OUT as real);
    DoublesRoundToThemselves(9007199255.0);
    OverRoundsUp((OVER + 1) as real);
    assert Computation(TOKENS_IN, TOKENS_OUT, TOKENS_IN as real, TOKENS_OUT as real, (OVER + 1) as real, 9007199255.0);
  }

  lemma DoublesRoundToThemselves(x: real)
    requires IsDouble(x)
    ensures Rounds(x, x)
  {
  }

  /** Pricing in doubles is exact for every usage priced up to `cap` micro-USD iff cap is at most 9007199254. */
  lemma PricingIsExactExactlyUpTo(cap: nat)
    ensures PricesAreExactUpTo(cap) <==> cap * MILLION <= LARGEST
  {
    hide Evaluates, Rounds, Ceil, CeilDiv;
    if cap * MILLION <= LARGEST {
      forall input: nat, output: nat, q: real | input + output <= cap * MILLION && Evaluates(input, output, q)
        ensures q.Floor == (input + output) / MILLION && Ceil(q) == CeilDiv(input + output, MILLION)
      {
        NumeratorIsExact(input, output, q);
        RoundingsAreExact(input + output, q);
      }
    } else {
      OverIsMispriced();
      var input: nat, output: nat, q: real := TOKENS_IN, TOKENS_OUT, 9007199255.0;
      assert input + output <= cap * MILLION && Evaluates(input, output, q);
    }
  }
}
