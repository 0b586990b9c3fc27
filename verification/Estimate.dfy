/** What a request is expected to cost at most, over every model that may serve it. */
module Estimate {
  import opened Base
  import opened Calculator

  const DEFAULT_COMPLETION_TOKENS: int := 4096

  datatype Model = Model(id: Id, price: Price, contextWindow: Option<int>)

  /** Runes of all messages together. */
  function Runes(messages: seq<string>): nat {
    if messages == [] then 0 else Runes(messages[..|messages| - 1]) + |messages[|messages| - 1]|
  }

  /** A quarter token per rune, rounded up, and at least one for a request that has messages. */
  function PromptTokens(messages: seq<string>): int {
    if messages == [] then 0 else Max((Runes(messages) + 3) / 4, 1)
  }

  method EstimatePromptTokens(messages: seq<string>) returns (tokens: int)
    ensures tokens == PromptTokens(messages)
    ensures 4 * tokens >= Runes(messages) && (messages == [] ==> tokens == 0)
    ensures messages != [] ==> tokens >= 1 && (tokens == 1 || 4 * (tokens - 1) < Runes(messages))
  {
    var totalRunes := 0;
    for i := 0 to |messages|
      invariant totalRunes == Runes(messages[..i])
    {
      assert messages[..i + 1][..i] == messages[..i];
      totalRunes := totalRunes + |messages[i]|;
    }
    assert messages[..|messages|] == messages;
    if totalRunes == 0 && |messages| > 0 { return 1; }
    tokens := (totalRunes + 3) / 4;
    if tokens < 1 && |messages| > 0 { return 1; }
  }

  /** The tokens asked for; without a number, the rest of the context window, or a default if the window is unknown. */
  function CompletionTokens(maxTokens: Option<int>, promptTokens: int, model: Model): (completion: int)
    ensures maxTokens.Some? && maxTokens.value > 0 ==> completion == maxTokens.value
    ensures maxTokens.None? || maxTokens.value <= 0 ==>
              && (model.contextWindow.None? ==> completion == 4096)
              && (model.contextWindow.Some? && promptTokens <= model.contextWindow.value ==>
                    promptTokens + completion == model.contextWindow.value)
              && (model.contextWindow.Some? && promptTokens >= model.contextWindow.value ==> completion == 0)
  {
    if maxTokens.Some? && maxTokens.value > 0 then maxTokens.value
    else if model.contextWindow.None? then DEFAULT_COMPLETION_TOKENS
    else Max(model.contextWindow.value - promptTokens, 0)
  }

  /** The estimate for one model. */
  function Expected(maxTokens: Option<int>, promptTokens: int, model: Model): Calculation {
    Calculate(promptTokens, CompletionTokens(maxTokens, promptTokens, model), model.price)
  }

  /** A model is estimated at the price of the estimated tokens, and cannot be if that is no int64. */
  lemma ExpectedMeans(maxTokens: Option<int>, promptTokens: nat, model: Model, total: int)
    ensures Expected(maxTokens, promptTokens, model).Costs? && Expected(maxTokens, promptTokens, model).cost.Total() == total
            <==> && model.price.input >= 0 && model.price.output >= 0
                 && Priced(total, promptTokens, CompletionTokens(maxTokens, promptTokens, model), model.price) && total <= INT64_MAX
  {
    if model.price.input >= 0 && model.price.output >= 0 {
      BilledExactly(promptTokens, CompletionTokens(maxTokens, promptTokens, model), model.price, total);
    }
  }

  ghost predicate IsLargest(cost: int, maxTokens: Option<int>, promptTokens: int, models: seq<Model>) {
    && (forall i :: 0 <= i < |models| ==>
          Expected(maxTokens, promptTokens, models[i]).Costs? && Expected(maxTokens, promptTokens, models[i]).cost.Total() <= cost)
    && (cost == 0 || exists i :: 0 <= i < |models| && Expected(maxTokens, promptTokens, models[i]).Costs?
                             && Expected(maxTokens, promptTokens, models[i]).cost.Total() == cost)
    && cost >= 0
  }

  /** `estimateReservationCost`: the dearest model, or an error if some model cannot be priced. */
  method EstimateReservationCost(messages: seq<string>, maxTokens: Option<int>, models: seq<Model>) returns (cost: Option<int>)
    ensures cost.Some? ==> IsLargest(cost.value, maxTokens, PromptTokens(messages), models)
    ensures cost.None? <==> exists i :: 0 <= i < |models| && Expected(maxTokens, PromptTokens(messages), models[i]).Failed?
  {
    var promptTokens := EstimatePromptTokens(messages);
    var maxCost := 0;
    for i := 0 to |models|
      invariant IsLargest(maxCost, maxTokens, promptTokens, models[..i])
    {
      var calculation := Expected(maxTokens, promptTokens, models[i]);
      if calculation.Failed? { return None; }
      ghost var before, here := models[..i], models[..i + 1];
      assert forall j :: 0 <= j < i ==> here[j] == before[j];
      assert here[i] == models[i];
      if calculation.cost.Total() > maxCost {
        maxCost := calculation.cost.Total();
      }
    }
    assert models[..|models|] == models;
    cost := Some(maxCost);
  }

  /**
   * Whichever of the models serves the request, if it uses no more tokens than estimated and is
   * charged the price it was estimated at, the charge can be computed and is within the estimate.
   */
  lemma ChargeWithinEstimate(cost: int, maxTokens: Option<int>, promptTokens: int, models: seq<Model>,
                             served: Model, prompt: int, completion: int, price: Price)
    requires IsLargest(cost, maxTokens, promptTokens, models) && served in models && price == served.price
    requires 0 <= prompt <= promptTokens && 0 <= completion <= CompletionTokens(maxTokens, promptTokens, served)
    ensures Calculate(prompt, completion, price).Costs?
    ensures 0 <= Calculate(prompt, completion, price).cost.Total() <= cost
  {
    CalculateMonotone(prompt, completion, promptTokens, CompletionTokens(maxTokens, promptTokens, served), price);
  }
}
