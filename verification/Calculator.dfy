/** `costing.Calculator`: truncating prices per thousand tokens, bounded by int64. */
module Calculator {
  import opened Base

  datatype Price = Price(input: int, output: int)  // micro-USD per 1000 tokens
  datatype CostError = InvalidInput | Overflow
  datatype Cost = Cost(input: int, output: int) {
    function Total(): int { input + output }
  }
  datatype Calculation = Costs(cost: Cost) | Failed(error: CostError)

  /** The big-integer product, truncated to whole micro-USD; None when it leaves int64. */
  function CostMicro(tokens: int, price: int): Option<int>
    requires tokens >= 0 && price >= 0
  {
    var value := tokens * price / 1000;
    if IsInt64(value) then Some(value) else None
  }

  function Calculate(prompt: int, completion: int, price: Price): Calculation {
    if prompt < 0 || completion < 0 || price.input < 0 || price.output < 0 then Failed(InvalidInput)
    else
      var input, output := CostMicro(prompt, price.input), CostMicro(completion, price.output);
      if input.None? || output.None? then Failed(Overflow)
      else if input.value > INT64_MAX - output.value then Failed(Overflow)
      else Costs(Cost(input.value, output.value))
  }

  // ----- What a calculation is worth ------------------------------------------

  /** `micro` is the exact cost of the tokens rounded down to whole micro-USD. */
  predicate RoundsDown(micro: int, tokens: int, price: int) {
    1000 * micro <= tokens * price < 1000 * (micro + 1)
  }

  lemma QuotientRoundsDown(tokens: nat, price: nat)
    ensures RoundsDown(tokens * price / 1000, tokens, price) && tokens * price / 1000 >= 0
  {
    assert tokens * price >= 0;
  }

  lemma RoundsDownUnique(a: int, b: int, tokens: int, price: int)
    requires RoundsDown(a, tokens, price) && RoundsDown(b, tokens, price)
    ensures a == b
  {
  }

  /**
   * A calculation fails on negative input, and otherwise exactly when the cost of one side, rounded
   * down, or their sum exceeds int64.
   */
  lemma CalculateExact(prompt: int, completion: int, price: Price, input: int, output: int)
    requires prompt >= 0 && completion >= 0 && price.input >= 0 && price.output >= 0
    requires RoundsDown(input, prompt, price.input) && RoundsDown(output, completion, price.output)
    ensures Calculate(prompt, completion, price)
         == if input + output <= INT64_MAX then Costs(Cost(input, output)) else Failed(Overflow)
    ensures input >= 0 && output >= 0
  {
    QuotientRoundsDown(prompt, price.input);
    QuotientRoundsDown(completion, price.output);
    RoundsDownUnique(input, prompt * price.input / 1000, prompt, price.input);
    RoundsDownUnique(output, completion * price.output / 1000, completion, price.output);
  }

  /** The price of a request: that of its prompt and that of its completion, each rounded down. */
  ghost predicate Priced(total: int, prompt: int, completion: int, price: Price) {
    exists input, output :: RoundsDown(input, prompt, price.input) && RoundsDown(output, completion, price.output) && total == input + output
  }

  /** Requests are billed their price, unless it exceeds int64. */
  lemma BilledExactly(prompt: nat, completion: nat, price: Price, total: int)
    requires price.input >= 0 && price.output >= 0
    ensures Priced(total, prompt, completion, price) && total <= INT64_MAX
            <==> Calculate(prompt, completion, price).Costs? && Calculate(prompt, completion, price).cost.Total() == total
  {
    var input, output := prompt * price.input / 1000, completion * price.output / 1000;
    QuotientRoundsDown(prompt, price.input);
    QuotientRoundsDown(completion, price.output);
    CalculateExact(prompt, completion, price, input, output);
    if Priced(total, prompt, completion, price) {
      var i, o :| RoundsDown(i, prompt, price.input) && RoundsDown(o, completion, price.output) && total == i + o;
      CalculateExact(prompt, completion, price, i, o);
    }
  }

  lemma RoundsDownMonotone(a: int, b: int, tokens: int, more: int, price: int)
    requires 0 <= tokens <= more && 0 <= price
    requires RoundsDown(a, tokens, price) && RoundsDown(b, more, price)
    ensures a <= b
  {
    assert tokens * price <= more * price by { assert (more - tokens) * price >= 0; }
  }

  /** Fewer tokens at the same price never cost more, and never overflow where more tokens do not. */
  lemma CalculateMonotone(prompt: int, completion: int, morePrompt: int, moreCompletion: int, price: Price)
    requires 0 <= prompt <= morePrompt && 0 <= completion <= moreCompletion
    requires Calculate(morePrompt, moreCompletion, price).Costs?
    ensures Calculate(prompt, completion, price).Costs?
    ensures 0 <= Calculate(prompt, completion, price).cost.Total() <= Calculate(morePrompt, moreCompletion, price).cost.Total()
  {
    var a, b := prompt * price.input / 1000, completion * price.output / 1000;
    var c, d := morePrompt * price.input / 1000, moreCompletion * price.output / 1000;
    QuotientRoundsDown(prompt, price.input);
    QuotientRoundsDown(completion, price.output);
    QuotientRoundsDown(morePrompt, price.input);
    QuotientRoundsDown(moreCompletion, price.output);
    RoundsDownMonotone(a, c, prompt, morePrompt, price.input);
    RoundsDownMonotone(b, d, completion, moreCompletion, price.output);
    CalculateExact(prompt, completion, price, a, b);
    CalculateExact(morePrompt, moreCompletion, price, c, d);
  }

  // ----- Aggregate truncation error -------------------------------------------

  function SumTokens(tokens: seq<nat>): nat {
    if tokens == [] then 0 else SumTokens(tokens[1..]) + tokens[0]
  }

  function SumMicro(tokens: seq<nat>, price: nat): int {
    if tokens == [] then 0 else SumMicro(tokens[1..], price) + tokens[0] * price / 1000
  }

  /**
   * Billing n requests one by one charges at most what billing their tokens together would, and
   * falls short of the exact price by less than n micro-USD.
   */
  lemma {:induction false} TruncationError(tokens: seq<nat>, price: nat)
    ensures SumMicro(tokens, price) <= SumTokens(tokens) * price / 1000
    ensures 0 <= SumTokens(tokens) * price - 1000 * SumMicro(tokens, price) <= 999 * |tokens|
  {
    if tokens != [] {
      var rest, t := tokens[1..], tokens[0];
      TruncationError(rest, price);
      QuotientRoundsDown(t, price);
      assert SumTokens(tokens) * price == SumTokens(rest) * price + t * price;
    }
    QuotientRoundsDown(SumTokens(tokens), price);
  }
}
