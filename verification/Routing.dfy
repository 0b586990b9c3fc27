/** Which targets serve a request, and in which order. */
module Routing {
  import opened Base
  import opened Calculator
  import opened Sorting

  datatype RouteTarget = RouteTarget(id: Id, provider: Id, model: Id, priority: int)
  datatype Provider = Provider(id: Id, active: bool)
  datatype Model = Model(id: Id, provider: Id, active: bool, price: Price)

  datatype Latency = Latency(p50: real, p95: real)
  datatype Stats = Stats(requests: int, latency: Latency)

  /** A target with its provider and model, its estimated cost, and its latency if it has served requests lately. */
  datatype Resolved = Resolved(target: RouteTarget, provider: Provider, model: Model, cost: int, latency: Option<Latency>)

  datatype Strategy = Single | Fallback | LowestCost | LowestLatency | Unrecognized

  datatype Config = Malformed | Config(maxCost: Option<int>, fallbackToPriority: Option<bool>, latencyWindow: Option<int>)

  datatype Policy = Policy(strategy: Strategy, config: Config)

  datatype Tokens = Tokens(prompt: int, completion: int)

  datatype Catalog = Catalog(providers: map<Id, Provider>, models: map<Id, Model>, stats: map<(Id, Id), Stats>)

  datatype Result = Targets(targets: seq<Resolved>) | RouteNotFound | InvalidConfig | Uncosted

  predicate ValidConfig(c: Config) {
    c.Config? && (c.maxCost.Some? ==> c.maxCost.value >= 0) && (c.latencyWindow.Some? ==> c.latencyWindow.value > 0)
  }

  predicate FallsBack(c: Config)
    requires c.Config?
  {
    c.fallbackToPriority.None? || c.fallbackToPriority.value
  }

  // ----- The orders ---------------------------------------------------------------

  predicate Preferred(a: Resolved, b: Resolved) {
    if a.target.priority != b.target.priority then a.target.priority < b.target.priority else a.target.id < b.target.id
  }

  predicate Cheaper(a: Resolved, b: Resolved) {
    if a.cost != b.cost then a.cost < b.cost else Preferred(a, b)
  }

  predicate Faster(a: Resolved, b: Resolved) {
    if a.latency.Some? != b.latency.Some? then a.latency.Some?
    else if a.latency.Some? && a.latency.value.p95 != b.latency.value.p95 then a.latency.value.p95 < b.latency.value.p95
    else if a.latency.Some? && a.latency.value.p50 != b.latency.value.p50 then a.latency.value.p50 < b.latency.value.p50
    else Preferred(a, b)
  }

  ghost predicate UniqueIds(targets: seq<Resolved>) {
    forall i, j :: 0 <= i < j < |targets| ==> targets[i].target.id != targets[j].target.id
  }

  /** All three orders are strict, and decide between any two targets with different ids. */
  lemma OrdersDecide(a: Resolved, b: Resolved)
    ensures StrictWeak(Preferred) && StrictWeak(Cheaper) && StrictWeak(Faster)
    ensures a.target.id != b.target.id ==>
              && (Preferred(a, b) != Preferred(b, a)) && (Cheaper(a, b) != Cheaper(b, a)) && (Faster(a, b) != Faster(b, a))
  {
  }

  /** `out` has exactly the chosen targets, each once, in this order. */
  ghost predicate Ranks(less: (Resolved, Resolved) -> bool, out: seq<Resolved>, chosen: seq<Resolved>) {
    Strict(less, out) && forall t :: t in out <==> t in chosen
  }

  /** A ranking does not depend on the order in which the targets came. */
  lemma RankingUnique(less: (Resolved, Resolved) -> bool, a: seq<Resolved>, b: seq<Resolved>, from: seq<Resolved>, other: seq<Resolved>)
    requires StrictWeak(less) && Ranks(less, a, from) && Ranks(less, b, other)
    requires forall t :: t in from <==> t in other
    ensures a == b
  {
    StrictUnique(less, a, b);
  }

  lemma SortRanks(less: (Resolved, Resolved) -> bool, targets: seq<Resolved>)
    requires StrictWeak(less) && Comparable(less, targets)
    ensures Ranks(less, StableSort(less, targets), targets)
  {
    StableSortStrict(less, targets);
    forall t ensures t in StableSort(less, targets) <==> t in targets { SortedMembers(less, targets, t); }
  }

  lemma UniqueComparable(targets: seq<Resolved>)
    requires UniqueIds(targets)
    ensures Comparable(Preferred, targets) && Comparable(Cheaper, targets) && Comparable(Faster, targets)
  {
  }

  // ----- The orders in columns ----------------------------------------------------

  /** Ties are decided by priority, smallest first, and then by id. */
  predicate TieBroken(a: RouteTarget, b: RouteTarget) {
    a.priority < b.priority || (a.priority == b.priority && a.id < b.id)
  }

  ghost predicate ByPriority(out: seq<Resolved>) {
    forall i, j :: 0 <= i < j < |out| ==> TieBroken(out[i].target, out[j].target)
  }

  ghost predicate CheapestFirst(out: seq<Resolved>) {
    forall i, j :: 0 <= i < j < |out| ==>
      out[i].cost <= out[j].cost && (out[i].cost == out[j].cost ==> TieBroken(out[i].target, out[j].target))
  }

  /** Targets without measurements come last; among the others the 95th percentile decides, then the median. */
  ghost predicate FastestFirst(out: seq<Resolved>) {
    forall i, j :: 0 <= i < j < |out| ==>
      match (out[i].latency, out[j].latency)
      case (Some(a), Some(b)) =>
        && a.p95 <= b.p95
        && (a.p95 == b.p95 ==> a.p50 <= b.p50)
        && (a.p95 == b.p95 && a.p50 == b.p50 ==> TieBroken(out[i].target, out[j].target))
      case (Some(_), None) => true
      case (None, Some(_)) => false
      case (None, None) => TieBroken(out[i].target, out[j].target)
  }

  /** What a sorted list looks like, column by column. */
  lemma OrdersMean(out: seq<Resolved>)
    ensures Strict(Preferred, out) <==> ByPriority(out)
    ensures Strict(Cheaper, out) <==> CheapestFirst(out)
    ensures Strict(Faster, out) <==> FastestFirst(out)
  {
    forall i, j | 0 <= i < j < |out| ensures Preferred(out[i], out[j]) <==> TieBroken(out[i].target, out[j].target) {}
    assert Strict(Preferred, out) ==> ByPriority(out);
    assert Strict(Cheaper, out) ==> CheapestFirst(out);
    assert Strict(Faster, out) ==> FastestFirst(out);
  }

  // ----- Lowest cost --------------------------------------------------------------

  function EstimatedCost(model: Model, tokens: Tokens): Calculation {
    Calculate(Max(tokens.prompt, 0), Max(tokens.completion, 0), model.price)
  }

  predicate Estimable(t: Resolved, tokens: Tokens) {
    EstimatedCost(t.model, tokens).Costs?
  }

  function WithCost(t: Resolved, tokens: Tokens): Resolved
    requires Estimable(t, tokens)
  {
    t.(cost := EstimatedCost(t.model, tokens).cost.Total())
  }

  /** The targets with their estimated costs filled in. */
  function WithCosts(targets: seq<Resolved>, tokens: Tokens): seq<Resolved>
    requires forall i :: 0 <= i < |targets| ==> Estimable(targets[i], tokens)
  {
    seq(|targets|, i requires 0 <= i < |targets| => WithCost(targets[i], tokens))
  }

  function Within(targets: seq<Resolved>, cap: int): seq<Resolved> {
    if targets == [] then []
    else
      var last := targets[|targets| - 1];
      Within(targets[..|targets| - 1], cap) + if last.cost <= cap then [last] else []
  }

  lemma {:induction false} WithinMembers(targets: seq<Resolved>, cap: int, t: Resolved)
    ensures t in Within(targets, cap) <==> t in targets && t.cost <= cap
  {
    if targets != [] {
      var n := |targets| - 1;
      WithinMembers(targets[..n], cap, t);
      assert targets == targets[..n] + [targets[n]];
    }
  }

  lemma {:induction false} WithinStrict(less: (Resolved, Resolved) -> bool, targets: seq<Resolved>, cap: int)
    requires Strict(less, targets)
    ensures Strict(less, Within(targets, cap))
  {
    if targets != [] {
      var n := |targets| - 1;
      WithinStrict(less, targets[..n], cap);
      var earlier := Within(targets[..n], cap);
      forall i | 0 <= i < |earlier| ensures less(earlier[i], targets[n]) {
        WithinMembers(targets[..n], cap, earlier[i]);
      }
    }
  }

  /**
   * What the lowest-cost strategy answers for targets with their costs: those within the cap, cheapest
   * first; if there are none, all of them by priority, unless the policy forbids it.
   */
  ghost predicate LowestCostAnswer(c: Config, costed: seq<Resolved>, result: Result)
    requires c.Config?
  {
    if c.maxCost.None? then result.Targets? && Ranks(Cheaper, result.targets, costed)
    else if exists t :: t in costed && t.cost <= c.maxCost.value then
      result.Targets? && Strict(Cheaper, result.targets)
      && forall t :: t in result.targets <==> t in costed && t.cost <= c.maxCost.value
    else if FallsBack(c) then result.Targets? && Ranks(Preferred, result.targets, costed)
    else result == RouteNotFound
  }

  /** `t` is the target as it came, with the price of the tokens as its cost; a negative number of tokens counts as none. */
  ghost predicate Costed(t: Resolved, came: Resolved, tokens: Tokens) {
    && t == came.(cost := t.cost)
    && Priced(t.cost, if tokens.prompt < 0 then 0 else tokens.prompt, if tokens.completion < 0 then 0 else tokens.completion, came.model.price)
  }

  /** The targets with a price up to the cap, and no others. */
  ghost predicate Chosen(out: seq<Resolved>, targets: seq<Resolved>, tokens: Tokens, cap: Option<int>) {
    && (forall t :: t in out ==> (cap.Some? ==> t.cost <= cap.value) && exists i :: 0 <= i < |targets| && Costed(t, targets[i], tokens))
    && (forall t, i :: 0 <= i < |targets| && Costed(t, targets[i], tokens) && (cap.Some? ==> t.cost <= cap.value) ==> t in out)
  }

  ghost predicate AllDearer(targets: seq<Resolved>, tokens: Tokens, cap: int) {
    forall t, i :: 0 <= i < |targets| && Costed(t, targets[i], tokens) ==> t.cost > cap
  }

  /**
   * The targets within the cap, cheapest first. If all are dearer, all of them by priority, unless
   * the policy forbids falling back to that.
   */
  ghost predicate CheapestAnswer(c: Config, tokens: Tokens, targets: seq<Resolved>, result: Result)
    requires c.Config?
  {
    if c.maxCost.None? || !AllDearer(targets, tokens, c.maxCost.value) then
      result.Targets? && Chosen(result.targets, targets, tokens, c.maxCost) && CheapestFirst(result.targets)
    else if c.fallbackToPriority == Some(false) then result == RouteNotFound
    else result.Targets? && Chosen(result.targets, targets, tokens, None) && ByPriority(result.targets)
  }

  lemma CostedExactly(t: Resolved, came: Resolved, tokens: Tokens)
    requires Estimable(came, tokens)
    ensures Costed(t, came, tokens) <==> t == WithCost(came, tokens)
  {
    var prompt, completion := Max(tokens.prompt, 0), Max(tokens.completion, 0);
    var total := EstimatedCost(came.model, tokens).cost.Total();
    BilledExactly(prompt, completion, came.model.price, total);
    if Costed(t, came, tokens) {
      var i, o :| RoundsDown(i, prompt, came.model.price.input) && RoundsDown(o, completion, came.model.price.output) && t.cost == i + o;
      CalculateExact(prompt, completion, came.model.price, i, o);
    }
  }

  lemma CostedMembers(t: Resolved, targets: seq<Resolved>, tokens: Tokens)
    requires forall i :: 0 <= i < |targets| ==> Estimable(targets[i], tokens)
    ensures t in WithCosts(targets, tokens) <==> exists i :: 0 <= i < |targets| && Costed(t, targets[i], tokens)
  {
    var costed := WithCosts(targets, tokens);
    if t in costed {
      var i :| 0 <= i < |costed| && costed[i] == t;
      CostedExactly(t, targets[i], tokens);
    }
    if i :| 0 <= i < |targets| && Costed(t, targets[i], tokens) {
      CostedExactly(t, targets[i], tokens);
      assert costed[i] == t;
    }
  }

  /** Members of the costed targets, in the words of `Costed`. */
  ghost predicate Described(costed: seq<Resolved>, targets: seq<Resolved>, tokens: Tokens) {
    forall t :: t in costed <==> exists i :: 0 <= i < |targets| && Costed(t, targets[i], tokens)
  }

  lemma AllDearerMeans(costed: seq<Resolved>, targets: seq<Resolved>, tokens: Tokens, cap: int)
    requires Described(costed, targets, tokens)
    ensures AllDearer(targets, tokens, cap) <==> !exists t :: t in costed && t.cost <= cap
  {
  }

  lemma ChosenMeans(out: seq<Resolved>, costed: seq<Resolved>, targets: seq<Resolved>, tokens: Tokens, cap: Option<int>)
    requires Described(costed, targets, tokens)
    requires forall t :: t in out <==> t in costed && (cap.Some? ==> t.cost <= cap.value)
    ensures Chosen(out, targets, tokens, cap)
  {
  }

  lemma LowestCostMeans(c: Config, tokens: Tokens, targets: seq<Resolved>, result: Result)
    requires c.Config? && forall i :: 0 <= i < |targets| ==> Estimable(targets[i], tokens)
    requires LowestCostAnswer(c, WithCosts(targets, tokens), result)
    ensures CheapestAnswer(c, tokens, targets, result)
  {
    var costed := WithCosts(targets, tokens);
    assert Described(costed, targets, tokens) by {
      forall t ensures t in costed <==> exists i :: 0 <= i < |targets| && Costed(t, targets[i], tokens) {
        CostedMembers(t, targets, tokens);
      }
    }
    if c.maxCost.Some? { AllDearerMeans(costed, targets, tokens, c.maxCost.value); }
    if result.Targets? {
      OrdersMean(result.targets);
      if c.maxCost.None? || !AllDearer(targets, tokens, c.maxCost.value) {
        ChosenMeans(result.targets, costed, targets, tokens, c.maxCost);
      } else {
        ChosenMeans(result.targets, costed, targets, tokens, None);
      }
    }
  }

  /** A target cannot be estimated if it has a negative price, or one that is no int64. */
  lemma EstimableMeans(came: Resolved, tokens: Tokens)
    ensures Estimable(came, tokens) <==>
              && came.model.price.input >= 0 && came.model.price.output >= 0
              && exists t :: Costed(t, came, tokens) && t.cost <= INT64_MAX
  {
    if Estimable(came, tokens) {
      CostedExactly(WithCost(came, tokens), came, tokens);
      BilledExactly(Max(tokens.prompt, 0), Max(tokens.completion, 0), came.model.price, WithCost(came, tokens).cost);
    } else if came.model.price.input >= 0 && came.model.price.output >= 0 {
      if t :| Costed(t, came, tokens) && t.cost <= INT64_MAX {
        BilledExactly(Max(tokens.prompt, 0), Max(tokens.completion, 0), came.model.price, t.cost);
        assert false;
      }
    }
  }

  method ResolveLowestCostTargets(c: Config, tokens: Tokens, targets: seq<Resolved>) returns (result: Result)
    requires UniqueIds(targets)
    ensures result == InvalidConfig <==>
              c.Malformed? || (c.maxCost.Some? && c.maxCost.value < 0) || (c.latencyWindow.Some? && c.latencyWindow.value <= 0)
    ensures result.Targets? || result == RouteNotFound ==> CheapestAnswer(c, tokens, targets, result)
    ensures ValidConfig(c) ==> (result == Uncosted <==> exists i :: 0 <= i < |targets| && !Estimable(targets[i], tokens))
    ensures ValidConfig(c) && result != Uncosted ==> LowestCostAnswer(c, WithCosts(targets, tokens), result)
  {
    if !ValidConfig(c) {
      return InvalidConfig;
    }
    var costed := targets;
    for index := 0 to |targets|
      invariant |costed| == |targets|
      invariant forall i :: 0 <= i < index ==> Estimable(targets[i], tokens) && costed[i] == WithCost(targets[i], tokens)
      invariant forall i :: index <= i < |targets| ==> costed[i] == targets[i]
    {
      var calculation := EstimatedCost(costed[index].model, tokens);
      if calculation.Failed? {
        return Uncosted;
      }
      costed := costed[index := costed[index].(cost := calculation.cost.Total())];
    }
    assert costed == WithCosts(targets, tokens);
    result := RankByCost(c, costed);
    LowestCostMeans(c, tokens, targets, result);
  }

  method RankByCost(c: Config, costed: seq<Resolved>) returns (result: Result)
    requires UniqueIds(costed) && c.Config?
    ensures LowestCostAnswer(c, costed, result) && (result.Targets? || result == RouteNotFound)
  {
    CostRanking(costed);
    var sorted := StableSort(Cheaper, costed);
    if c.maxCost.None? {
      return Targets(sorted);
    }
    var eligible := [];
    for n := 0 to |sorted|
      invariant eligible == Within(sorted[..n], c.maxCost.value)
    {
      assert sorted[..n + 1][..n] == sorted[..n];
      if sorted[n].cost <= c.maxCost.value {
        eligible := eligible + [sorted[n]];
      }
    }
    assert sorted[..|sorted|] == sorted;
    EligibleMembers(sorted, costed, c.maxCost.value);
    if |eligible| > 0 {
      return Targets(eligible);
    }
    if c.fallbackToPriority.None? || c.fallbackToPriority.value {
      PriorityRanking(costed, sorted);
      return Targets(StableSort(Preferred, sorted));
    }
    result := RouteNotFound;
  }

  lemma CostRanking(costed: seq<Resolved>)
    requires UniqueIds(costed)
    ensures Ranks(Cheaper, StableSort(Cheaper, costed), costed)
  {
    UniqueComparable(costed);
    CheaperOrders();
    SortRanks(Cheaper, costed);
  }

  lemma CheaperOrders()
    ensures StrictWeak(Cheaper) && StrictWeak(Preferred) && StrictWeak(Faster)
  {
  }

  lemma EligibleMembers(sorted: seq<Resolved>, costed: seq<Resolved>, cap: int)
    requires Ranks(Cheaper, sorted, costed)
    ensures Strict(Cheaper, Within(sorted, cap)) && forall t :: t in Within(sorted, cap) <==> t in costed && t.cost <= cap
    ensures Within(sorted, cap) == [] <==> !exists t :: t in costed && t.cost <= cap
  {
    WithinStrict(Cheaper, sorted, cap);
    forall t ensures t in Within(sorted, cap) <==> t in costed && t.cost <= cap { WithinMembers(sorted, cap, t); }
    assert Within(sorted, cap) == [] || Within(sorted, cap)[0] in Within(sorted, cap);
  }

  /** Sorting the cost-sorted list by priority gives the ranking of the targets by priority. */
  lemma PriorityRanking(costed: seq<Resolved>, sorted: seq<Resolved>)
    requires UniqueIds(costed) && Ranks(Cheaper, sorted, costed)
    ensures Ranks(Preferred, StableSort(Preferred, sorted), costed)
  {
    CheaperOrders();
    forall i, j | 0 <= i < j < |sorted| ensures Preferred(sorted[i], sorted[j]) || Preferred(sorted[j], sorted[i]) {
      SameIdSame(costed, sorted[i], sorted[j]);
    }
    SortRanks(Preferred, sorted);
  }

  lemma SameIdSame(costed: seq<Resolved>, a: Resolved, b: Resolved)
    requires UniqueIds(costed) && a in costed && b in costed && Cheaper(a, b)
    ensures a.target.id != b.target.id
  {
    var i :| 0 <= i < |costed| && costed[i] == a;
    var j :| 0 <= j < |costed| && costed[j] == b;
    assert i != j;
  }

  /** The answer depends only on which targets there are, not on the order in which they were loaded. */
  lemma LowestCostCanonical(c: Config, costed: seq<Resolved>, other: seq<Resolved>, result: Result, again: Result)
    requires c.Config? && (forall t :: t in costed <==> t in other)
    requires LowestCostAnswer(c, costed, result) && LowestCostAnswer(c, other, again)
    ensures result == again
  {
    CheaperOrders();
    if c.maxCost.Some? && exists t :: t in costed && t.cost <= c.maxCost.value {
      StrictUnique(Cheaper, result.targets, again.targets);
    } else if c.maxCost.None? {
      RankingUnique(Cheaper, result.targets, again.targets, costed, other);
    } else if FallsBack(c) {
      RankingUnique(Preferred, result.targets, again.targets, costed, other);
    }
  }

  // ----- Lowest latency -----------------------------------------------------------

  function WithLatency(t: Resolved, stats: map<(Id, Id), Stats>): Resolved {
    var key := (t.provider.id, t.model.id);
    if key in stats && stats[key].requests > 0 then t.(latency := Some(stats[key].latency)) else t
  }

  function WithLatencies(targets: seq<Resolved>, stats: map<(Id, Id), Stats>): seq<Resolved> {
    seq(|targets|, i requires 0 <= i < |targets| => WithLatency(targets[i], stats))
  }

  /** `t` is the target as it came, with the latency measured for its provider and model, if requests were measured. */
  ghost predicate Timed(t: Resolved, came: Resolved, stats: map<(Id, Id), Stats>) {
    var key := (came.provider.id, came.model.id);
    && t == came.(latency := t.latency)
    && t.latency == if key in stats && stats[key].requests > 0 then Some(stats[key].latency) else came.latency
  }

  /** All targets with their latencies, fastest first. */
  ghost predicate FastestAnswer(stats: map<(Id, Id), Stats>, targets: seq<Resolved>, out: seq<Resolved>) {
    && FastestFirst(out)
    && forall t :: t in out <==> exists i :: 0 <= i < |targets| && Timed(t, targets[i], stats)
  }

  lemma FastestMeans(stats: map<(Id, Id), Stats>, targets: seq<Resolved>, out: seq<Resolved>)
    requires Ranks(Faster, out, WithLatencies(targets, stats))
    ensures FastestAnswer(stats, targets, out)
  {
    OrdersMean(out);
    var timed := WithLatencies(targets, stats);
    forall t ensures t in timed <==> exists i :: 0 <= i < |targets| && Timed(t, targets[i], stats) {
      if t in timed {
        var i :| 0 <= i < |timed| && timed[i] == t;
        assert Timed(t, targets[i], stats);
      }
      if i :| 0 <= i < |targets| && Timed(t, targets[i], stats) { assert timed[i] == t; }
    }
  }

  method ResolveLowestLatencyTargets(c: Config, stats: map<(Id, Id), Stats>, targets: seq<Resolved>) returns (result: Result)
    requires UniqueIds(targets)
    ensures result == InvalidConfig <==>
              c.Malformed? || (c.maxCost.Some? && c.maxCost.value < 0) || (c.latencyWindow.Some? && c.latencyWindow.value <= 0)
    ensures result.Targets? ==> FastestAnswer(stats, targets, result.targets)
    ensures ValidConfig(c) ==> result.Targets? && Ranks(Faster, result.targets, WithLatencies(targets, stats))
  {
    if !ValidConfig(c) {
      return InvalidConfig;
    }
    var timed := targets;
    for index := 0 to |targets|
      invariant |timed| == |targets|
      invariant forall i :: 0 <= i < index ==> timed[i] == WithLatency(targets[i], stats)
      invariant forall i :: index <= i < |targets| ==> timed[i] == targets[i]
    {
      var key := (timed[index].provider.id, timed[index].model.id);
      if key in stats && stats[key].requests > 0 {
        timed := timed[index := timed[index].(latency := Some(stats[key].latency))];
      }
    }
    assert timed == WithLatencies(targets, stats);
    UniqueComparable(timed);
    CheaperOrders();
    SortRanks(Faster, timed);
    result := Targets(StableSort(Faster, timed));
    FastestMeans(stats, targets, result.targets);
  }

  // ----- Resolving ----------------------------------------------------------------

  predicate Known(t: RouteTarget, catalog: Catalog) {
    t.provider in catalog.providers && t.model in catalog.models
  }

  predicate Usable(t: RouteTarget, catalog: Catalog)
    requires Known(t, catalog)
  {
    catalog.providers[t.provider].active && catalog.models[t.model].active
    && catalog.models[t.model].provider == catalog.providers[t.provider].id
  }

  function Resolve(t: RouteTarget, catalog: Catalog): Resolved
    requires Known(t, catalog)
  {
    Resolved(t, catalog.providers[t.provider], catalog.models[t.model], 0, None)
  }

  predicate Ranking(strategy: Strategy) {
    strategy.LowestCost? || strategy.LowestLatency?
  }

  /** The targets that can be used, in order; None when the route is unusable. */
  function Candidates(targets: seq<RouteTarget>, catalog: Catalog, skips: bool): Option<seq<Resolved>> {
    if targets == [] then Some([])
    else
      var n := |targets| - 1;
      var earlier, last := Candidates(targets[..n], catalog, skips), targets[n];
      if earlier.None? || !Known(last, catalog) then None
      else if Usable(last, catalog) then Some(earlier.value + [Resolve(last, catalog)])
      else if skips then earlier
      else None
  }

  /**
   * The ranking strategies skip targets that are not usable; the others give up on the first. Nobody
   * tolerates a target whose provider or model does not exist.
   */
  lemma {:induction false} CandidatesMean(targets: seq<RouteTarget>, catalog: Catalog, skips: bool)
    ensures Candidates(targets, catalog, skips).Some? <==>
              forall i :: 0 <= i < |targets| ==> Known(targets[i], catalog) && (skips || Usable(targets[i], catalog))
    ensures Candidates(targets, catalog, skips).Some? ==>
              var found := Candidates(targets, catalog, skips).value;
              && (forall t :: t in found <==> t.target in targets && Known(t.target, catalog) && Usable(t.target, catalog) && t == Resolve(t.target, catalog))
              && (!skips ==> |found| == |targets| && forall i :: 0 <= i < |found| ==> found[i].target == targets[i])
  {
    if targets != [] {
      var n := |targets| - 1;
      CandidatesMean(targets[..n], catalog, skips);
      assert targets == targets[..n] + [targets[n]];
    }
  }

  ghost predicate UniqueTargets(targets: seq<RouteTarget>) {
    forall i, j :: 0 <= i < j < |targets| ==> targets[i].id != targets[j].id
  }

  lemma {:induction false} CandidatesUnique(targets: seq<RouteTarget>, catalog: Catalog, skips: bool)
    requires UniqueTargets(targets) && Candidates(targets, catalog, skips).Some?
    ensures UniqueIds(Candidates(targets, catalog, skips).value)
  {
    if targets != [] {
      var n := |targets| - 1;
      CandidatesUnique(targets[..n], catalog, skips);
      CandidatesMean(targets[..n], catalog, skips);
      var earlier := Candidates(targets[..n], catalog, skips).value;
      forall i | 0 <= i < |earlier| ensures earlier[i].target.id != targets[n].id {
        assert earlier[i] in earlier;
      }
    }
  }

  /** What the strategy makes of the candidates. */
  ghost predicate Answers(policy: Policy, tokens: Tokens, catalog: Catalog, found: seq<Resolved>, answer: Result) {
    match policy.strategy
    case LowestCost =>
      if !ValidConfig(policy.config) then answer == InvalidConfig
      else if exists i :: 0 <= i < |found| && !Estimable(found[i], tokens) then answer == Uncosted
      else LowestCostAnswer(policy.config, WithCosts(found, tokens), answer) && CheapestAnswer(policy.config, tokens, found, answer)
    case LowestLatency =>
      if !ValidConfig(policy.config) then answer == InvalidConfig
      else answer.Targets? && Ranks(Faster, answer.targets, WithLatencies(found, catalog.stats))
           && FastestAnswer(catalog.stats, found, answer.targets)
    case _ => answer == Targets(found)
  }

  /** An empty list of targets counts as no route. */
  function NonEmpty(answer: Result): (result: Result)
    ensures result.Targets? ==> result.targets != []
  {
    if answer == Targets([]) then RouteNotFound else answer
  }

  method ResolveTargets(policy: Option<Policy>, targets: seq<RouteTarget>, catalog: Catalog, tokens: Tokens) returns (result: Result)
    requires UniqueTargets(targets)
    ensures result.Targets? ==> result.targets != []
    ensures policy.None? || policy.value.strategy.Unrecognized? || targets == [] ==> result == RouteNotFound
    ensures policy.Some? && !policy.value.strategy.Unrecognized? && targets != [] ==>
              match Candidates(targets, catalog, Ranking(policy.value.strategy))
              case None => result == RouteNotFound
              case Some(found) => exists answer :: Answers(policy.value, tokens, catalog, found, answer) && result == NonEmpty(answer)
  {
    if policy.None? || policy.value.strategy.Unrecognized? || |targets| == 0 {
      return RouteNotFound;
    }
    var strategy, config := policy.value.strategy, policy.value.config;
    var resolved := [];
    for n := 0 to |targets|
      invariant Candidates(targets[..n], catalog, Ranking(strategy)) == Some(resolved)
    {
      assert targets[..n + 1][..n] == targets[..n];
      var target := targets[n];
      if target.provider !in catalog.providers || target.model !in catalog.models {
        NoCandidates(targets, n, catalog, Ranking(strategy));
        return RouteNotFound;
      }
      var provider, model := catalog.providers[target.provider], catalog.models[target.model];
      if !provider.active || !model.active || model.provider != provider.id {
        if strategy.LowestCost? || strategy.LowestLatency? {
          continue;
        }
        NoCandidates(targets, n, catalog, Ranking(strategy));
        return RouteNotFound;
      }
      resolved := resolved + [Resolved(target, provider, model, 0, None)];
    }
    assert targets[..|targets|] == targets;
    CandidatesUnique(targets, catalog, Ranking(strategy));
    result := Targets(resolved);
    if strategy.LowestCost? {
      result := ResolveLowestCostTargets(config, tokens, resolved);
    } else if strategy.LowestLatency? {
      result := ResolveLowestLatencyTargets(config, catalog.stats, resolved);
    }
    ghost var answer := result;
    assert Answers(policy.value, tokens, catalog, resolved, answer);
    if result.Targets? && |result.targets| == 0 {
      result := RouteNotFound;
    }
  }

  lemma {:induction false} NoCandidates(targets: seq<RouteTarget>, n: nat, catalog: Catalog, skips: bool)
    requires n < |targets| && Candidates(targets[..n + 1], catalog, skips).None?
    ensures Candidates(targets, catalog, skips).None?
    decreases |targets|
  {
    if n + 1 < |targets| {
      var m := |targets| - 1;
      assert targets[..m][..n + 1] == targets[..n + 1];
      NoCandidates(targets[..m], n, catalog, skips);
    } else {
      assert targets[..n + 1] == targets;
    }
  }
}
