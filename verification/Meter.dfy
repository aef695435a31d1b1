/**
 Reading token counts and pricing them (src/meter.ts:59-164, 255-343), and the one ledger row a stream settles
 into (src/routes/chat.ts:245-278, 410-480). Money is exact; Double says when floating point agrees with it.
 */
module Meter {
  import opened Wrappers
  import opened Json
  import opened Balance
  import opened Ledger
  import opened Double
  import Pools
  import Calls

  datatype TokenUsage = TokenUsage(input: int, output: int)

  datatype Rate = Rate(input: Number, output: Number)

  datatype Reason = NoCounts | BadInputRate | BadOutputRate

  datatype Outcome = Priced(microUsd: int, usage: TokenUsage) | Unmetered(reason: Reason)

  /** Two counts that are both non-negative integers. */
  function Pair(input: Json, output: Json): Option<TokenUsage> {
    if input.Int? && output.Int? && input.n >= 0 && output.n >= 0
    then Some(TokenUsage(input.n, output.n)) else None
  }

  function GeminiUsage(body: Json): Option<TokenUsage> {
    var um := Prop(body, "usageMetadata");
    Pair(Coalesce(Prop(um, "promptTokenCount"), Prop(um, "prompt_token_count")),
         Coalesce(Prop(um, "candidatesTokenCount"), Prop(um, "candidates_token_count")))
  }

  function Reasoning(usage: Json): Json {
    Coalesce(Prop(usage, "reasoning_tokens"), Prop(Prop(usage, "completion_tokens_details"), "reasoning_tokens"))
  }

  function OpenAIUsage(body: Json): Option<TokenUsage> {
    var usage := Prop(body, "usage");
    var pair := Pair(Coalesce(Prop(usage, "prompt_tokens"), Prop(usage, "input_tokens")),
                     Coalesce(Prop(usage, "completion_tokens"), Prop(usage, "output_tokens")));
    var r := Reasoning(usage);
    if pair.Some? && r.Int? && r.n > 0 && pair.value.output < r.n
    then Some(TokenUsage(pair.value.input, pair.value.output + r.n)) else pair
  }

  function ExtractUsage(body: Json): (u: Option<TokenUsage>)
    ensures u.Some? ==> u.value.input >= 0 && u.value.output >= 0
  {
    if GeminiUsage(body).Some? then GeminiUsage(body) else OpenAIUsage(body)
  }

  /** A token count that can be trusted, and a property under either of its spellings. */
  predicate Counts(j: Json) { j.Int? && 0 <= j.n }

  function Spelled(j: Json, name: string, other: string): Json {
    if Prop(j, name) != Null then Prop(j, name) else Prop(j, other)
  }

  /** What a usage object in the OpenAI shape says was consumed. */
  predicate Reports(usage: Json, input: int, output: int) {
    var p, c := Spelled(usage, "prompt_tokens", "input_tokens"), Spelled(usage, "completion_tokens", "output_tokens");
    var details := Prop(usage, "completion_tokens_details");
    var r := if Prop(usage, "reasoning_tokens") != Null then Prop(usage, "reasoning_tokens") else Prop(details, "reasoning_tokens");
    && Counts(p) && Counts(c)
    && input == p.n && output == (if r.Int? && r.n > c.n then c.n + r.n else c.n)
  }

  /** What a native Gemini body says. */
  predicate GeminiReports(body: Json, input: int, output: int) {
    var um := Prop(body, "usageMetadata");
    var p, c := Spelled(um, "promptTokenCount", "prompt_token_count"), Spelled(um, "candidatesTokenCount", "candidates_token_count");
    Counts(p) && Counts(c) && input == p.n && output == c.n
  }

  /** The reader answers what the body reports, the native object first, and nothing when neither reports anything. */
  lemma UsageIsRead(body: Json)
    ensures forall i, o :: GeminiReports(body, i, o) ==> ExtractUsage(body) == Some(TokenUsage(i, o))
    ensures (forall i, o :: !GeminiReports(body, i, o)) ==>
      forall i, o :: Reports(Prop(body, "usage"), i, o) ==> ExtractUsage(body) == Some(TokenUsage(i, o))
    ensures ExtractUsage(body).Some? <==>
      (exists i, o :: GeminiReports(body, i, o)) || (exists i, o :: Reports(Prop(body, "usage"), i, o))
  {
    if ExtractUsage(body).Some? {
      var u := ExtractUsage(body).value;
      assert GeminiReports(body, u.input, u.output) || Reports(Prop(body, "usage"), u.input, u.output);
    }
    if i, o :| GeminiReports(body, i, o) {
      assert GeminiUsage(body) == Some(TokenUsage(i, o));
    }
  }

  /** The completion count as the provider says it. */
  function Said(body: Json): Json {
    Coalesce(Prop(Prop(body, "usage"), "completion_tokens"), Prop(Prop(body, "usage"), "output_tokens"))
  }

  /** The body is read in the OpenAI shape and says it spent reasoning tokens. */
  predicate Reasons(body: Json) {
    && GeminiUsage(body).None? && ExtractUsage(body).Some?
    && Reasoning(Prop(body, "usage")).Int? && Reasoning(Prop(body, "usage")).n > 0
  }

  /** Reasoning is added if and only if it is larger than the completion count, so no less than it is billed. */
  lemma ReasoningIsAddedExactlyWhen(body: Json)
    requires Reasons(body)
    ensures var r, billed := Reasoning(Prop(body, "usage")).n, ExtractUsage(body).value.output;
      && Said(body).Int? && Said(body).n >= 0 && billed >= r
      && billed == Said(body).n + (if Said(body).n < r then r else 0)
  {
  }

  /**
   A provider that wrote `visible` tokens after `r` of reasoning is read right, whichever way it counts, if
   and only if its completion count includes the reasoning or the visible part was the smaller one.
   */
  lemma ReasoningIsBilledOnceExactlyWhen(body: Json, visible: nat, included: bool)
    requires Reasons(body)
    requires Said(body) == Int(visible + if included then Reasoning(Prop(body, "usage")).n else 0)
    ensures var r := Reasoning(Prop(body, "usage")).n;
      ExtractUsage(body).value.output == visible + r <==> included || visible < r
  {
    hide GeminiUsage, Reasoning, ExtractUsage, Said;
    ReasoningIsAddedExactlyWhen(body);
  }

  const TOLD_APART := Obj(map["usage" := Obj(map[
    "prompt_tokens" := Int(1), "completion_tokens" := Int(100), "reasoning_tokens" := Int(50)])])

  /** 150 tokens written, 50 of them told apart: 100 are billed. */
  lemma SmallerReasoningIsDropped()
    ensures Reasons(TOLD_APART) && ExtractUsage(TOLD_APART).value.output == 100
  {
  }

  function RateProblem(price: Rate): Option<Reason> {
    if !Usable(price.input) then Some(BadInputRate)
    else if !Usable(price.output) then Some(BadOutputRate)
    else None
  }

  /** Millionths of a micro-USD: tokens times micro-USD per million tokens, both sides. */
  function Exact(u: TokenUsage, price: Rate): int
    requires RateProblem(price).None?
  {
    u.input * price.input.n + u.output * price.output.n
  }

  function PriceUsage(u: TokenUsage, price: Rate): Outcome
    requires u.input >= 0 && u.output >= 0
  {
    if RateProblem(price).Some? then Unmetered(RateProblem(price).value)
    else
      ExactIsNonNegative(u, price);
      Outcome.Priced(CeilDiv(Exact(u, price), MILLION), u)
  }

  function PriceEstimatedUsage(u: TokenUsage, price: Rate): Outcome
    requires u.input >= 0 && u.output >= 0
  {
    if RateProblem(price).Some? then Unmetered(RateProblem(price).value)
    else Outcome.Priced(Exact(u, price) / MILLION, u)
  }

  function MeterResponse(body: Json, price: Rate): Outcome {
    if ExtractUsage(body).None? then Unmetered(NoCounts) else PriceUsage(ExtractUsage(body).value, price)
  }

  /** A bare usage object, wrapped so that one reader serves both paths. */
  function MeterUsageObject(usage: Json, price: Rate): Outcome {
    MeterResponse(Obj(map["usage" := usage]), price)
  }

  const ESTIMATE_BYTES_PER_TOKEN := 4

  function EstimateTokens(bytes: nat): nat { bytes / ESTIMATE_BYTES_PER_TOKEN }

  function EstimateStreamUsage(promptBytes: nat, receivedBytes: nat): TokenUsage {
    TokenUsage(EstimateTokens(promptBytes), EstimateTokens(receivedBytes))
  }

  lemma ExactIsNonNegative(u: TokenUsage, price: Rate)
    requires u.input >= 0 && u.output >= 0 && RateProblem(price).None?
    ensures Exact(u, price) >= 0
  {
    assert u.input * price.input.n >= 0 && u.output * price.output.n >= 0;
  }

  /** Measured lies in [exact, exact + 1), estimated in (exact - 1, exact]; only a zero price is free. */
  lemma RoundingDirections(u: TokenUsage, price: Rate)
    requires u.input >= 0 && u.output >= 0 && RateProblem(price).None?
    ensures var up, down, n := PriceUsage(u, price).microUsd, PriceEstimatedUsage(u, price).microUsd, Exact(u, price);
      && n <= up * MILLION < n + MILLION
      && n - MILLION < down * MILLION <= n
      && (up == 0 <==> n == 0)
      && (up == down <==> n % MILLION == 0)
  {
    ExactIsNonNegative(u, price);
  }

  /** A measured request is free exactly when each side has no tokens or no rate. */
  lemma FreeExactlyWhen(u: TokenUsage, price: Rate)
    requires u.input >= 0 && u.output >= 0 && RateProblem(price).None?
    ensures PriceUsage(u, price).microUsd == 0
       <==> (u.input == 0 || price.input.n == 0) && (u.output == 0 || price.output.n == 0)
  {
    RoundingDirections(u, price);
    ZeroProduct(u.input, price.input.n);
    ZeroProduct(u.output, price.output.n);
  }

  lemma ZeroProduct(a: nat, b: nat)
    ensures a * b >= 0 && (a * b == 0 <==> a == 0 || b == 0)
  {
    if a > 0 && b > 0 { MulMonotone(1, a, b); }
  }

  /** Tokens on the unrated side only: consumed, rated on the other side, and still free. */
  lemma FreeDespiteARate()
    ensures PriceUsage(TokenUsage(5, 0), Rate(Whole(0), Whole(10))).microUsd == 0
  {
    FreeExactlyWhen(TokenUsage(5, 0), Rate(Whole(0), Whole(10)));
  }

  lemma ExactIsMonotone(a: TokenUsage, b: TokenUsage, price: Rate)
    requires 0 <= a.input <= b.input && 0 <= a.output <= b.output && RateProblem(price).None?
    ensures Exact(a, price) <= Exact(b, price)
  {
    MulMonotone(a.input, b.input, price.input.n);
    MulMonotone(a.output, b.output, price.output.n);
  }

  lemma MulMonotone(a: int, b: int, k: nat)
    requires a <= b
    ensures a * k <= b * k
  {
    assert (b - a) * k >= 0;
  }

  /** A cancelled stream is never charged more than the measurement it was denied would have been. */
  lemma EstimateNeverOvershoots(promptBytes: nat, receivedBytes: nat, actual: TokenUsage, price: Rate)
    requires RateProblem(price).None?
    requires EstimateTokens(promptBytes) <= actual.input && EstimateTokens(receivedBytes) <= actual.output
    ensures 0 <= PriceEstimatedUsage(EstimateStreamUsage(promptBytes, receivedBytes), price).microUsd
         <= PriceUsage(actual, price).microUsd
  {
    var u := EstimateStreamUsage(promptBytes, receivedBytes);
    ExactIsMonotone(u, actual, price);
    RoundingDirections(u, price);
    RoundingDirections(actual, price);
    ExactIsNonNegative(u, price);
  }

  /** The charge computed in doubles, whatever they round to, is the charge modelled here. */
  lemma ChargedAsComputed(u: TokenUsage, price: Rate, q: real)
    requires u.input >= 0 && u.output >= 0 && RateProblem(price).None? && Exact(u, price) <= LARGEST
    requires var input, output := u.input * price.input.n, u.output * price.output.n;
      input >= 0 && output >= 0 && Evaluates(input, output, q)
    ensures PriceUsage(u, price).microUsd == Ceil(q) && PriceEstimatedUsage(u, price).microUsd == q.Floor
  {
    hide Evaluates, Ceil, CeilDiv, Rounds;
    NumeratorIsExact(u.input * price.input.n, u.output * price.output.n, q);
    RoundingsAreExact(u.input * price.input.n + u.output * price.output.n, q);
  }

  // ---- unit doors ----

  /** Units are floored and never negative; `units` is a quotient numerator / denominator. */
  function PriceUnits(numerator: int, denominator: nat, microUsdPerUnit: nat): nat
    requires denominator > 0
  {
    var n := Max(0, numerator / denominator);
    if n <= 0 then 0 else n * microUsdPerUnit
  }

  // ---- the row ----

  datatype Termination = Complete | Cancelled | Failed

  datatype Settlement = Settlement(usage: Json, frames: bool, termination: Termination, bytes: nat)

  /** What the settlement decides about the row before the charge is split. */
  datatype Partial = Partial(microUsd: int, metered: bool, basis: PriceBasis)

  function StreamPartial(s: Settlement, price: Rate, promptBytes: nat): Partial {
    if s.usage != Null then
      var m := MeterUsageObject(s.usage, price);
      if m.Priced? then Partial(m.microUsd, true, Measured) else Partial(0, false, Unpriced)
    else if s.termination.Cancelled? then
      var e := PriceEstimatedUsage(EstimateStreamUsage(promptBytes, s.bytes), price);
      if e.Priced? then Partial(e.microUsd, true, EstimatedOutput) else Partial(0, false, Unpriced)
    else Partial(0, false, Unpriced)
  }

  /** `base` carries the identity columns; the split is computed from a fresh read of the period. */
  function BuildEvent(base: UsageEvent, p: Partial, included: Number, allowanceSpent: Number): UsageEvent {
    var row := base.(microUsd := p.microUsd, metered := p.metered, basis := p.basis);
    if !p.metered || p.microUsd <= 0 then row.(fromAllowance := 0, fromCredit := 0)
    else
      var split := AllocateCharge(Whole(p.microUsd), included, allowanceSpent);
      row.(fromAllowance := split.fromAllowance, fromCredit := split.fromCredit)
  }

  /** Which of the three settlements a stream gets, exactly. */
  lemma StreamRowIsClassified(s: Settlement, price: Rate, promptBytes: nat)
    ensures var p := StreamPartial(s, price, promptBytes);
      var body := Obj(map["usage" := s.usage]);
      && (p.basis.Measured? <==> RateProblem(price).None? && s.usage != Null && ExtractUsage(body).Some?)
      && (p.basis.EstimatedOutput? <==> RateProblem(price).None? && s.usage == Null && s.termination.Cancelled?)
      && (p.basis.Unpriced? <==> !p.metered)
      && (p.basis.Unpriced? ==> p.microUsd == 0)
      && p.microUsd >= 0
      && (p.basis.Measured? ==> p.microUsd == CeilDiv(Exact(ExtractUsage(body).value, price), MILLION))
  {
    if s.usage == Null {
      if RateProblem(price).None? { ExactIsNonNegative(EstimateStreamUsage(promptBytes, s.bytes), price); }
    } else if RateProblem(price).None? && ExtractUsage(Obj(map["usage" := s.usage])).Some? {
      ExactIsNonNegative(ExtractUsage(Obj(map["usage" := s.usage])).value, price);
    }
  }

  /** The least whole micro-USD not below so many millionths, and the greatest not above them. */
  predicate Covers(microUsd: int, millionths: int) { (microUsd - 1) * 1_000_000 < millionths <= microUsd * 1_000_000 }

  predicate CoveredBy(microUsd: int, millionths: int) { microUsd * 1_000_000 <= millionths < (microUsd + 1) * 1_000_000 }

  ghost predicate Reported(usage: Json) { exists i, o :: Reports(usage, i, o) }

  /**
   What a stream costs, on what it reported: each side's tokens at that side's rate, rounded up; four bytes
   to the token and rounded down when the client hung up before any report; nothing otherwise.
   */
  lemma StreamIsCharged(s: Settlement, price: Rate, promptBytes: nat)
    ensures var p := StreamPartial(s, price, promptBytes); var rated := Known(price.input) && Known(price.output);
      && (forall i, o :: rated && Reports(s.usage, i, o) ==>
            p.metered && p.basis.Measured? && Covers(p.microUsd, i * price.input.n + o * price.output.n))
      && (rated && s.usage == Null && s.termination.Cancelled? ==>
            && p.metered && p.basis.EstimatedOutput?
            && CoveredBy(p.microUsd, (promptBytes / 4) * price.input.n + (s.bytes / 4) * price.output.n))
      && (!(rated && (Reported(s.usage) || (s.usage == Null && s.termination.Cancelled?))) ==> p == Partial(0, false, Unpriced))
  {
    hide ExtractUsage, Reports, CeilDiv;
    var body := Obj(map["usage" := s.usage]);
    UsageIsRead(body);
    assert Prop(body, "usage") == s.usage && Prop(body, "usageMetadata") == Null;
    assert forall i, o :: !GeminiReports(body, i, o);
    if Known(price.input) && Known(price.output) {
      if s.usage == Null {
        NothingReported();
        RoundedDown(EstimateStreamUsage(promptBytes, s.bytes), price);
      } else if ExtractUsage(body).Some? {
        var u := ExtractUsage(body).value;
        RoundedUp(u, price);
      }
    }
  }

  lemma NothingReported()
    ensures !Reported(Null)
  {
  }

  lemma RoundedUp(u: TokenUsage, price: Rate)
    requires u.input >= 0 && u.output >= 0 && Known(price.input) && Known(price.output)
    ensures PriceUsage(u, price).Priced?
    ensures Covers(PriceUsage(u, price).microUsd, u.input * price.input.n + u.output * price.output.n)
  {
    RoundingDirections(u, price);
  }

  lemma RoundedDown(u: TokenUsage, price: Rate)
    requires u.input >= 0 && u.output >= 0 && Known(price.input) && Known(price.output)
    ensures PriceEstimatedUsage(u, price).Priced?
    ensures CoveredBy(PriceEstimatedUsage(u, price).microUsd, u.input * price.input.n + u.output * price.output.n)
  {
    RoundingDirections(u, price);
  }

  /** The row's charge is split allowance first; an allowance that cannot be read pays nothing. */
  predicate SplitOnRead(charge: int, included: Number, allowanceSpent: Number, e: UsageEvent) {
    if charge <= 0 then e.fromAllowance == 0 && e.fromCredit == 0
    else if Known(included) && Known(allowanceSpent)
    then AllowanceFirst(charge, included.n, allowanceSpent.n, e.fromAllowance, e.fromCredit)
    else e.fromAllowance == 0 && e.fromCredit == charge
  }

  /** Every row built is paid for exactly, charges nothing when unmetered, and is sound to record. */
  lemma BuiltRowsArePaid(base: UsageEvent, p: Partial, included: Number, allowanceSpent: Number)
    requires p.microUsd >= 0
    ensures var e := BuildEvent(base, p, included, allowanceSpent);
      && Pools.Paid(e) && Calls.SoundEvent(e)
      && (!p.metered ==> e.fromAllowance == 0 && e.fromCredit == 0)
      && SplitOnRead(if p.metered then p.microUsd else 0, included, allowanceSpent, e)
      && e == base.(microUsd := p.microUsd, metered := p.metered, basis := p.basis,
                    fromAllowance := e.fromAllowance, fromCredit := e.fromCredit)
  {
  }

  /** The row of a unit door: whole units at the unit rate, split on the period as read. */
  function UnitRow(base: UsageEvent, numerator: int, denominator: nat, rate: nat,
                   included: Number, allowanceSpent: Number): UsageEvent
    requires denominator > 0
  {
    BuildEvent(base, Partial(PriceUnits(numerator, denominator, rate), true, Measured), included, allowanceSpent)
  }

  /** Unit rows too are paid for exactly, at floor(units) times the rate. */
  lemma UnitRowIsPaid(base: UsageEvent, numerator: int, denominator: nat, rate: nat, included: Number, allowanceSpent: Number)
    requires denominator > 0
    ensures var e := UnitRow(base, numerator, denominator, rate, included, allowanceSpent);
      && Pools.Paid(e) && Calls.SoundEvent(e) && e.metered && e.fromAllowance + e.fromCredit == e.microUsd
      && e.microUsd == Max(0, numerator / denominator) * rate
      && SplitOnRead(e.microUsd, included, allowanceSpent, e)
      && (e.id, e.requestId, e.accountId, e.clientId, e.periodKey)
         == (base.id, base.requestId, base.accountId, base.clientId, base.periodKey)
  {
    ZeroProduct(Max(0, numerator / denominator), rate);
    BuiltRowsArePaid(base, Partial(PriceUnits(numerator, denominator, rate), true, Measured), included, allowanceSpent);
  }
}
