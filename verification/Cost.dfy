/** What token usage costs under a rate card, in 64-bit integer micro-dollars. */
module Cost {
  datatype Option<+T> = None | Some(value: T)

  const MAX_INT64 := 0x7FFF_FFFF_FFFF_FFFF
  const MILLION := 1_000_000
  const HALF := 500_000

  predicate Int64(n: int) {
    -MAX_INT64 - 1 <= n <= MAX_INT64
  }

  // What a 64-bit register keeps of n.
  function Wrap(n: int): (w: int)
    ensures Int64(w) && (Int64(n) ==> w == n)
  {
    (n + MAX_INT64 + 1) % (2 * (MAX_INT64 + 1)) - MAX_INT64 - 1
  }

  // Division towards zero.
  function Quotient(n: int, d: int): (q: int)
    requires d > 0
    ensures n >= 0 ==> q == n / d
  {
    if n >= 0 then n / d else -((-n) / d)
  }

  // ---------- usage ----------

  datatype Counter = Counter(value: int, present: bool)

  datatype Usage = Usage(input: Counter, output: Counter, cacheRead: Counter, cacheWrite: Counter, reasoning: Counter)

  datatype Pricing = Pricing(input: int, cacheRead: int, cacheWrite: int, output: int)

  predicate Reported(c: Counter) {
    c.value != 0 || c.present
  }

  // Every counter and price is held in 64 bits.
  predicate Held(u: Usage, p: Pricing) {
    && Int64(u.input.value) && Int64(u.output.value) && Int64(u.cacheRead.value) && Int64(u.cacheWrite.value)
    && Int64(u.reasoning.value)
    && Int64(p.input) && Int64(p.cacheRead) && Int64(p.cacheWrite) && Int64(p.output)
  }

  // What a provider's usage must satisfy: no negative counter, no breakdown larger than what it breaks down.
  predicate ValidUsage(u: Usage) {
    && u.input.value >= 0 && u.output.value >= 0 && u.cacheRead.value >= 0 && u.cacheWrite.value >= 0 && u.reasoning.value >= 0
    && (Reported(u.input) && (Reported(u.cacheRead) || Reported(u.cacheWrite)) ==>
          u.cacheRead.value + u.cacheWrite.value <= u.input.value)
    && (Reported(u.output) && Reported(u.reasoning) ==> u.reasoning.value <= u.output.value)
    && (Reported(u.input) && Reported(u.output) ==> u.input.value + u.output.value <= MAX_INT64)
  }

  predicate ValidPricing(p: Pricing) {
    p.input >= 0 && p.cacheRead >= 0 && p.cacheWrite >= 0 && p.output >= 0
  }

  // addNonNegative
  method AddNonNegative(first: int, second: int) returns (sum: Option<int>)
    requires 0 <= first <= MAX_INT64 && 0 <= second <= MAX_INT64
    ensures sum == if first + second <= MAX_INT64 then Some(first + second) else None
  {
    if first > MAX_INT64 - second {
      return None;
    }
    sum := Some(first + second);
  }

  // TokenUsage.Validate
  method Validate(u: Usage) returns (ok: bool)
    requires Held(u, Pricing(0, 0, 0, 0))
    ensures ok <==> ValidUsage(u)
  {
    var counters := [u.input.value, u.output.value, u.cacheRead.value, u.cacheWrite.value, u.reasoning.value];
    for k := 0 to |counters|
      invariant forall j :: 0 <= j < k ==> counters[j] >= 0
    {
      if counters[k] < 0 {
        return false;
      }
    }
    assert counters[0] >= 0 && counters[1] >= 0 && counters[2] >= 0 && counters[3] >= 0 && counters[4] >= 0;
    if Reported(u.input) && (Reported(u.cacheRead) || Reported(u.cacheWrite)) {
      var cacheTotal := AddNonNegative(u.cacheRead.value, u.cacheWrite.value);
      if cacheTotal.None? || cacheTotal.value > u.input.value {
        return false;
      }
    }
    if Reported(u.output) && Reported(u.reasoning) && u.reasoning.value > u.output.value {
      return false;
    }
    if Reported(u.input) && Reported(u.output) {
      var total := AddNonNegative(u.input.value, u.output.value);
      return total.Some?;
    }
    ok := true;
  }

  // ---------- one charge ----------

  // cost is tokens * price / MILLION, rounded to the nearest unit, halves up.
  predicate Rounds(cost: int, tokens: int, price: int) {
    -HALF < MILLION * cost - tokens * price <= HALF
  }

  // The one cost that rounds.
  function Rounded(tokens: int, price: int): (cost: int)
    ensures Rounds(cost, tokens, price) && forall c :: Rounds(c, tokens, price) ==> c == cost
  {
    (tokens * price + HALF) / MILLION
  }

  predicate Fits(tokens: int, price: int) {
    tokens * price + HALF <= MAX_INT64
  }

  predicate ChargeFits(tokens: int, price: int) {
    tokens == 0 || price == 0 || Fits(tokens, price)
  }

  // What is charged for a register's worth of tokens; a negative count wraps where its cost leaves the register.
  function ChargeFor(tokens: int, price: int): Option<int> {
    if tokens < 0 then Some(Quotient(Wrap(Wrap(tokens * price) + HALF), MILLION))
    else if ChargeFits(tokens, price) then Some(Rounded(tokens, price))
    else None
  }

  lemma Quotients(t: int, price: int, m: int)
    requires price > 0
    ensures t > m / price <==> t * price > m
  {
    assert m == price * (m / price) + m % price;
    if t > m / price {
      assert t * price >= (m / price + 1) * price;
    } else {
      assert t * price <= (m / price) * price;
    }
  }

  method Charge(tokens: int, price: int) returns (cost: Option<int>)
    requires Int64(tokens) && 0 <= price <= MAX_INT64
    ensures cost == ChargeFor(tokens, price)
    ensures tokens >= 0 ==> (cost.Some? <==> ChargeFits(tokens, price))
    ensures tokens >= 0 && cost.Some? ==> 0 <= cost.value <= MAX_INT64 && cost.value == Rounded(tokens, price)
    ensures tokens < 0 && tokens * price >= -MAX_INT64 - 1 ==>
              cost.Some? && (cost.value == 0 <==> tokens * price > -(MILLION + HALF)) && cost.value <= 0
  {
    if tokens == 0 || price == 0 {
      assert tokens * price == 0;
      return Some(0);
    }
    Quotients(tokens, price, MAX_INT64 - HALF);
    if tokens > (MAX_INT64 - HALF) / price {
      return None;
    }
    if tokens >= 0 {
      Positive(tokens, price);
    }
    cost := Some(Quotient(Wrap(Wrap(tokens * price) + HALF), MILLION));
  }

  lemma Positive(a: int, b: int)
    requires a >= 0 && b >= 0
    ensures a * b >= 0
  {}

  // addCharges
  method AddCharges(values: seq<int>) returns (total: Option<int>)
    ensures total.Some? <==> (forall k :: 0 <= k < |values| ==> values[k] >= 0) && Sum(values) <= MAX_INT64
    ensures total.Some? ==> total.value == Sum(values)
  {
    var sum := 0;
    for k := 0 to |values|
      invariant sum == Sum(values[..k]) && 0 <= sum <= MAX_INT64
      invariant forall j :: 0 <= j < k ==> values[j] >= 0
    {
      assert values[..k + 1][..k] == values[..k];
      if values[k] < 0 || sum > MAX_INT64 - values[k] {
        if forall j :: 0 <= j < |values| ==> values[j] >= 0 {
          SumGrows(values, k + 1);
        }
        return None;
      }
      sum := sum + values[k];
    }
    assert values[..|values|] == values;
    total := Some(sum);
  }

  function Sum(values: seq<int>): int {
    if values == [] then 0 else Sum(values[..|values| - 1]) + values[|values| - 1]
  }

  lemma {:induction false} SumGrows(values: seq<int>, k: nat)
    requires k <= |values| && forall j :: 0 <= j < |values| ==> values[j] >= 0
    ensures Sum(values[..k]) <= Sum(values)
    decreases |values| - k
  {
    if k < |values| {
      SumGrows(values, k + 1);
      assert values[..k + 1][..k] == values[..k];
    } else {
      assert values[..k] == values;
    }
  }

  // ---------- the breakdown ----------

  datatype Breakdown = Breakdown(
    inputTokens: int, uncachedTokens: int, cacheReadTokens: int, cacheWriteTokens: int, outputTokens: int,
    input: int, cacheRead: int, cacheWrite: int, output: int, total: int)

  // The exact cost, in millionths of a micro-dollar.
  function Exact(u: Usage, p: Pricing): int {
    (u.input.value - u.cacheRead.value - u.cacheWrite.value) * p.input + u.cacheRead.value * p.cacheRead +
    u.cacheWrite.value * p.cacheWrite + u.output.value * p.output
  }

  // The input was reported, or there is no breakdown of it: what a caller has to make sure of.
  predicate InputCovers(u: Usage) {
    Reported(u.input) || (u.cacheRead.value == 0 && u.cacheWrite.value == 0)
  }

  function Uncached(u: Usage): int {
    Wrap(Wrap(u.input.value - u.cacheRead.value) - u.cacheWrite.value)
  }

  // Input splits into three non-negative parts exactly when it covers its breakdown.
  lemma SplitsExactly(u: Usage)
    requires ValidUsage(u) && Held(u, Pricing(0, 0, 0, 0))
    ensures InputCovers(u) <==> Uncached(u) >= 0 && Uncached(u) + u.cacheRead.value + u.cacheWrite.value == u.input.value
  {}

  // A usage that passes validation and still splits into a negative part.
  lemma UnreportedInputGoesNegative()
    ensures var u := Usage(Counter(0, false), Counter(0, false), Counter(1, false), Counter(0, false), Counter(0, false));
            ValidUsage(u) && Uncached(u) == -1
  {}

  predicate AllFit(u: Usage, p: Pricing) {
    && ChargeFits(u.input.value - u.cacheRead.value - u.cacheWrite.value, p.input)
    && ChargeFits(u.cacheRead.value, p.cacheRead) && ChargeFits(u.cacheWrite.value, p.cacheWrite)
    && ChargeFits(u.output.value, p.output)
  }

  // Each part costs what its tokens cost, and the total is their sum.
  predicate Billed(u: Usage, p: Pricing, b: Breakdown) {
    && b.inputTokens == u.input.value == b.uncachedTokens + b.cacheReadTokens + b.cacheWriteTokens
    && b.cacheReadTokens == u.cacheRead.value && b.cacheWriteTokens == u.cacheWrite.value && b.outputTokens == u.output.value
    && b.uncachedTokens >= 0
    && Rounds(b.input, b.uncachedTokens, p.input) && Rounds(b.cacheRead, b.cacheReadTokens, p.cacheRead)
    && Rounds(b.cacheWrite, b.cacheWriteTokens, p.cacheWrite) && Rounds(b.output, b.outputTokens, p.output)
    && 0 <= b.input && 0 <= b.cacheRead && 0 <= b.cacheWrite && 0 <= b.output
    && b.total == b.input + b.cacheRead + b.cacheWrite + b.output <= MAX_INT64
  }

  // The total is within two micro-dollars of the exact cost.
  lemma TotalIsClose(u: Usage, p: Pricing, b: Breakdown)
    requires Billed(u, p, b)
    ensures -2 * MILLION <= MILLION * b.total - Exact(u, p) <= 2 * MILLION
  {
    assert b.uncachedTokens == u.input.value - u.cacheRead.value - u.cacheWrite.value;
  }

  lemma FourSum(a: int, b: int, c: int, d: int)
    ensures Sum([a, b, c, d]) == a + b + c + d
  {
    assert [a, b, c, d][..3] == [a, b, c] && [a, b, c][..2] == [a, b] && [a, b][..1] == [a];
    assert Sum([a]) == a;
    assert Sum([a, b]) == a + b;
    assert Sum([a, b, c]) == a + b + c;
  }

  method AddFour(a: int, b: int, c: int, d: int) returns (total: Option<int>)
    ensures total.Some? <==> a >= 0 && b >= 0 && c >= 0 && d >= 0 && a + b + c + d <= MAX_INT64
    ensures total.Some? ==> total.value == a + b + c + d
  {
    FourSum(a, b, c, d);
    var values := [a, b, c, d];
    total := AddCharges(values);
    assert values[0] == a && values[1] == b && values[2] == c && values[3] == d;
  }

  // The uncached share, before any register wraps.
  function Share(u: Usage): int {
    u.input.value - u.cacheRead.value - u.cacheWrite.value
  }

  predicate OthersFit(u: Usage, p: Pricing) {
    ChargeFits(u.cacheRead.value, p.cacheRead) && ChargeFits(u.cacheWrite.value, p.cacheWrite) && ChargeFits(u.output.value, p.output)
  }

  function RoundedOthers(u: Usage, p: Pricing): int {
    Rounded(u.cacheRead.value, p.cacheRead) + Rounded(u.cacheWrite.value, p.cacheWrite) + Rounded(u.output.value, p.output)
  }

  // The negative share, or what it costs, does not fit a register.
  predicate ShareWraps(u: Usage, p: Pricing) {
    Share(u) < -MAX_INT64 - 1 || Share(u) * p.input < -MAX_INT64 - 1
  }

  // A negative share whose cost leaves the register may even be charged for: here 4.6 million dollars.
  lemma WrappedShareIsCharged()
    ensures var u := Usage(Counter(0, false), Counter(0, false), Counter(0x4000_0000_0000_0000, true), Counter(0, false), Counter(0, false));
            var p := Pricing(3, 0, 0, 0);
            && Held(u, p) && ValidUsage(u) && ValidPricing(p) && Uncached(u) < 0
            && ChargeFor(Uncached(u), p.input) == Some(4_611_686_018_427) && OthersFit(u, p) && RoundedOthers(u, p) == 0
  {
    assert Wrap(-0x4000_0000_0000_0000 * 3) == 0x4000_0000_0000_0000;
  }

  /** Input that covers its breakdown is billed exactly when every charge and their rounded sum fit. Input that does
      not is billed exactly when its negative share costs so little that the charge comes to nothing, as long as nothing wraps. */
  method Calculate(u: Usage, p: Pricing) returns (b: Option<Breakdown>)
    requires Held(u, p)
    ensures !ValidUsage(u) || !ValidPricing(p) ==> b.None?
    ensures ValidUsage(u) && ValidPricing(p) && InputCovers(u) ==>
              (b.Some? <==> AllFit(u, p) && Rounded(Share(u), p.input) + RoundedOthers(u, p) <= MAX_INT64)
    ensures ValidUsage(u) && ValidPricing(p) && InputCovers(u) && b.Some? ==> Billed(u, p, b.value)
    ensures ValidUsage(u) && ValidPricing(p) && !InputCovers(u) && !ShareWraps(u, p) ==>
              (b.Some? <==> Share(u) * p.input > -(MILLION + HALF) && OthersFit(u, p) && RoundedOthers(u, p) <= MAX_INT64)
    ensures ValidUsage(u) && ValidPricing(p) ==>
              var input := ChargeFor(Uncached(u), p.input);
              && (b.Some? <==> input.Some? && input.value >= 0 && OthersFit(u, p) && input.value + RoundedOthers(u, p) <= MAX_INT64)
              && (b.Some? ==> b.value.uncachedTokens == Uncached(u) && b.value.total == input.value + RoundedOthers(u, p))
  {
    var valid := Validate(u);
    if !valid || p.input < 0 || p.cacheRead < 0 || p.cacheWrite < 0 || p.output < 0 {
      return None;
    }
    SplitsExactly(u);
    var uncached := Uncached(u);
    var input := Charge(uncached, p.input);
    if input.None? {
      return None;
    }
    var cacheRead := Charge(u.cacheRead.value, p.cacheRead);
    if cacheRead.None? {
      return None;
    }
    var cacheWrite := Charge(u.cacheWrite.value, p.cacheWrite);
    if cacheWrite.None? {
      return None;
    }
    var output := Charge(u.output.value, p.output);
    if output.None? {
      return None;
    }
    var total := AddFour(input.value, cacheRead.value, cacheWrite.value, output.value);
    if total.None? {
      return None;
    }
    b := Some(Breakdown(u.input.value, uncached, u.cacheRead.value, u.cacheWrite.value, u.output.value,
                        input.value, cacheRead.value, cacheWrite.value, output.value, total.value));
  }
}
