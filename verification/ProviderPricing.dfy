/** Worst-case and actual cost of one provider call, in millionths of a dollar. */
module ProviderPricing {

  /** Reviewed price of a model; rates are dollars per million tokens, so micro-dollars per token. */
  datatype Price = Price(
    provider: string,
    validUntil: int,
    input: real,
    cached: real,
    output: real,
    maxInput: int,
    maxOutput: int,
    maxBytes: int)
  {
    // The field constraints of the configuration model.
    predicate Valid() {
      input > 0.0 && cached >= 0.0 && output > 0.0 && maxInput >= 1 && maxOutput >= 1 && maxBytes >= 1
    }
  }

  /** Rounding up to a whole micro-dollar. */
  function Money(value: real): (m: int)
    ensures value <= m as real < value + 1.0
  {
    -((-value).Floor)
  }

  function Max(a: real, b: real): real { if a >= b then a else b }

  /** The amount held before a call: the reviewed input ceiling at the dearer input rate. */
  function Reservation(price: Price, maxOutput: int): int {
    Money(price.maxInput as real * Max(price.input, price.cached) + maxOutput as real * price.output)
  }

  function Cost(price: Price, prompt: int, cached: int, output: int): int {
    Money((prompt - cached) as real * price.input + cached as real * price.cached + output as real * price.output)
  }

  lemma ScaleMonotone(factor: real, low: real, high: real)
    requires factor >= 0.0 && 0.0 <= low <= high
    ensures 0.0 <= factor * low <= factor * high
  {}

  lemma SplitInput(uncached: real, cached: real, input: real, cachedRate: real, dear: real)
    requires uncached >= 0.0 && cached >= 0.0 && 0.0 <= input <= dear && 0.0 <= cachedRate <= dear
    ensures 0.0 <= uncached * input + cached * cachedRate <= (uncached + cached) * dear
  {}

  /** However the prompt splits into cached and uncached tokens, the dearer rate covers it. */
  lemma InputWithinCeiling(price: Price, prompt: int, cached: int)
    requires price.Valid() && 0 <= cached <= prompt <= price.maxInput
    ensures 0.0 <= (prompt - cached) as real * price.input + cached as real * price.cached
                <= price.maxInput as real * Max(price.input, price.cached)
  {
    var u, c: real := (prompt - cached) as real, cached as real;
    SplitInput(u, c, price.input, price.cached, Max(price.input, price.cached));
    assert u + c == prompt as real;
    ScaleMonotone(Max(price.input, price.cached), prompt as real, price.maxInput as real);
  }

  /** Every usage within the authorised bounds costs at most what was held for it. */
  lemma WithinBoundsNeverOverruns(price: Price, maxOutput: int, prompt: int, cached: int, output: int)
    requires price.Valid()
    requires 0 <= cached <= prompt <= price.maxInput && 0 <= output <= maxOutput
    ensures 0 <= Cost(price, prompt, cached, output) <= Reservation(price, maxOutput)
  {
    InputWithinCeiling(price, prompt, cached);
    ScaleMonotone(price.output, output as real, maxOutput as real);
  }

  /** The hold is exact: some usage within the bounds costs all of it, so nothing smaller is safe. */
  lemma ReservationIsAttained(price: Price, maxOutput: int) returns (cached: int)
    requires price.Valid() && maxOutput > 0
    ensures 0 <= cached <= price.maxInput
    ensures Cost(price, price.maxInput, cached, maxOutput) == Reservation(price, maxOutput)
  {
    cached := if price.input >= price.cached then 0 else price.maxInput;
    assert 0 as real * price.input == 0.0 && 0 as real * price.cached == 0.0;
  }

  /** Ceiling rounding never lets a hold round down to nothing. */
  lemma ReservationIsPositive(price: Price, maxOutput: int)
    requires price.Valid() && maxOutput > 0
    ensures Reservation(price, maxOutput) >= 1
  {
    ScaleMonotone(price.output, 1.0, maxOutput as real);
    ScaleMonotone(Max(price.input, price.cached), 1.0, price.maxInput as real);
  }

  // ---- what each token costs ----

  datatype Token = Fresh | FromCache | Written

  /** The rate of one token: the prompt's at the input rate unless it came from the cache. */
  function Rate(price: Price, token: Token): real {
    match token
    case Fresh => price.input
    case FromCache => price.cached
    case Written => price.output
  }

  function Charge(price: Price, tokens: seq<Token>): real {
    if tokens == [] then 0.0 else Charge(price, tokens[1..]) + Rate(price, tokens[0])
  }

  function Count(tokens: seq<Token>, kind: Token): nat {
    if tokens == [] then 0 else Count(tokens[1..], kind) + if tokens[0] == kind then 1 else 0
  }

  function Times(n: nat, rate: real): real { if n == 0 then 0.0 else Times(n - 1, rate) + rate }

  lemma {:induction false} TimesIsProduct(n: nat, rate: real)
    ensures Times(n, rate) == n as real * rate
  {
    if n > 0 {
      TimesIsProduct(n - 1, rate);
      assert n as real * rate == (n - 1) as real * rate + rate;
    }
  }

  lemma {:induction false} ChargeByKind(price: Price, tokens: seq<Token>)
    ensures Charge(price, tokens) == Times(Count(tokens, Fresh), price.input)
      + Times(Count(tokens, FromCache), price.cached) + Times(Count(tokens, Written), price.output)
  {
    if tokens != [] {
      ChargeByKind(price, tokens[1..]);
    }
  }

  lemma CostOfParts(price: Price, prompt: int, cached: int, output: int, a: real, b: real, c: real)
    requires (prompt - cached) as real * price.input == a
    requires cached as real * price.cached == b && output as real * price.output == c
    ensures Cost(price, prompt, cached, output) == Money(a + b + c)
  {}

  lemma CostByKind(price: Price, uncached: nat, cached: nat, written: nat, prompt: nat)
    requires prompt - cached == uncached
    ensures Cost(price, prompt, cached, written)
      == Money(Times(uncached, price.input) + Times(cached, price.cached) + Times(written, price.output))
  {
    var a, b, c := Times(uncached, price.input), Times(cached, price.cached), Times(written, price.output);
    assert uncached as real * price.input == a by { TimesIsProduct(uncached, price.input); }
    assert cached as real * price.cached == b by { TimesIsProduct(cached, price.cached); }
    assert written as real * price.output == c by { TimesIsProduct(written, price.output); }
    CostOfParts(price, prompt, cached, written, a, b, c);
  }

  /**
   A call costs the sum of its tokens' own rates, rounded up once, whatever the mix: prompt tokens
   at the input rate, those of them from the cache at the cached rate, written ones at the output rate.
   */
  lemma CostIsSumOfTokens(price: Price, tokens: seq<Token>)
    ensures var uncached, cached, written := Count(tokens, Fresh), Count(tokens, FromCache), Count(tokens, Written);
      Cost(price, uncached + cached, cached, written) == Money(Charge(price, tokens))
  {
    ChargeByKind(price, tokens);
    CostByKind(price, Count(tokens, Fresh), Count(tokens, FromCache), Count(tokens, Written),
               Count(tokens, Fresh) + Count(tokens, FromCache));
  }

  /** Tokens of one kind alone are billed at that kind's rate. */
  lemma CostOfOneKind(price: Price, n: nat)
    ensures Cost(price, n, 0, 0) == Money(n as real * price.input)
    ensures Cost(price, n, n, 0) == Money(n as real * price.cached)
    ensures Cost(price, 0, 0, n) == Money(n as real * price.output)
  {
    assert 0 as real * price.input == 0.0 && 0 as real * price.cached == 0.0 && 0 as real * price.output == 0.0;
  }
}
