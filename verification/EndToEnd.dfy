/**
 * Estimation, reservation, pricing and metering together: if providers stay within the estimated
 * tokens and prices do not change under a request, no counter runs past its limit, its seed, or
 * the largest estimate that was admitted through the cap.
 */
module EndToEnd {
  import opened Base
  import opened Calendar
  import opened Calculator
  import opened Estimate
  import opened Conservation
  import Concurrent
  import Interleaving
  import Ledger
  import Metering
  import Overspend
  import Pricing
  import Serializability

  /** The tables and the price list. */
  datatype State = State(db: Ledger.Tables, listings: map<Id, Pricing.Listing>)

  /** What a request was estimated from. */
  datatype Quote = Quote(messages: seq<string>, maxTokens: Option<int>, models: seq<Model>, cost: int)

  datatype Step =
    | Reserve(policy: Ledger.Policy, input: Ledger.ReserveInput, now: Time)
    | Success(usage: Metering.SuccessInput)
    | Release(request: Id)
    | Failure(request: Id)
    | CreateModel(model: Id, org: Id, price: Price, at: Time)
    | Reprice(model: Id, price: Price, at: Time)

  ghost function Take(s: State, step: Step): State {
    match step
    case Reserve(policy, input, now) => s.(db := Ledger.Reserve(s.db, policy, input, now).0)
    case Success(input) =>
      var r := Metering.RecordSuccessTx(s.db, s.listings, input);
      if r.Some? then s.(db := r.value) else s
    case Release(request) =>
      var r := Ledger.FinishTx(s.db, request, Ledger.Release);
      if r.Some? then s.(db := r.value) else s
    case Failure(request) => s.(db := s.db.(logs := s.db.logs + {request}))
    case CreateModel(model, org, price, at) =>
      if model in s.listings || price.input < 0 || price.output < 0 then s
      else s.(listings := s.listings[model := Pricing.Created(org, price, at)])
    case Reprice(model, price, at) =>
      if model in s.listings && Pricing.CanReprice(s.listings[model], price, at)
      then s.(listings := s.listings[model := Pricing.Repriced(s.listings[model], price, at)]) else s
  }

  ghost predicate AllTimelines(listings: map<Id, Pricing.Listing>) {
    forall m :: m in listings ==> Pricing.Timeline(listings[m])
  }

  ghost predicate Listed(s: State) {
    AllTimelines(s.listings)
  }

  lemma {:induction false} PlayListed(s: State, steps: seq<Step>)
    requires Listed(s)
    ensures Listed(Play(s, steps))
  {
    if steps != [] {
      var n := |steps| - 1;
      PlayListed(s, steps[..n]);
      TakeListed(Play(s, steps[..n]), steps[n]);
    }
  }

  lemma TakeListed(s: State, step: Step)
    requires Listed(s)
    ensures Listed(Take(s, step))
  {
    if step.Reprice? && step.model in s.listings && Pricing.CanReprice(s.listings[step.model], step.price, step.at) {
      Pricing.RepricedTimeline(s.listings[step.model], step.price, step.at);
    }
  }

  ghost function Play(s: State, steps: seq<Step>): State {
    if steps == [] then s else Take(Play(s, steps[..|steps| - 1]), steps[|steps| - 1])
  }

  /** The same step as the reservation tables see it. */
  ghost function Event(s: State, step: Step): Conservation.Event {
    match step
    case Reserve(policy, input, now) => Admit(policy, input, now)
    case Success(input) =>
      var record := Metering.Charge(s.listings, input);
      if record.Some? then Meter(record.value) else Close(NIL, Ledger.Release)
    case Release(request) => Close(request, Ledger.Release)
    case Failure(request) => LogFailure(request)
    case CreateModel(_, _, _, _) => Close(NIL, Ledger.Release)  // the tables are not involved
    case Reprice(_, _, _) => Close(NIL, Ledger.Release)
  }

  ghost function Events(s: State, steps: seq<Step>): (es: seq<Conservation.Event>)
    ensures |es| == |steps|
  {
    if steps == [] then []
    else Events(s, steps[..|steps| - 1]) + [Event(Play(s, steps[..|steps| - 1]), steps[|steps| - 1])]
  }

  lemma TakeIsApply(s: State, step: Step)
    ensures Take(s, step).db == Apply(s.db, Event(s, step))
  {
  }

  lemma {:induction false} PlayIsRun(s: State, steps: seq<Step>)
    ensures Play(s, steps).db == Run(s.db, Events(s, steps))
  {
    if steps != [] {
      var n := |steps| - 1;
      PlayIsRun(s, steps[..n]);
      TakeIsApply(Play(s, steps[..n]), steps[n]);
      RunStep(s.db, Events(s, steps[..n]), Event(Play(s, steps[..n]), steps[n]));
    }
  }

  lemma RunStep(db: Ledger.Tables, es: seq<Conservation.Event>, e: Conservation.Event)
    ensures Run(db, es + [e]) == Apply(Run(db, es), e)
  {
    assert (es + [e])[..|es|] == es;
  }

  // ----- Requests served as quoted ------------------------------------------------------

  ghost predicate Quoted(q: Quote) {
    IsLargest(q.cost, q.maxTokens, PromptTokens(q.messages), q.models) && q.cost <= INT64_MAX
  }

  /** One of the quoted models served, used no more tokens than estimated, and still has the price it was quoted at. */
  ghost predicate ServedAs(listings: map<Id, Pricing.Listing>, usage: Metering.SuccessInput, q: Quote) {
    exists served: Model ::
      && served in q.models && served.id == usage.model
      && usage.prompt <= PromptTokens(q.messages)
      && usage.completion <= CompletionTokens(q.maxTokens, PromptTokens(q.messages), served)
      && usage.model in listings && listings[usage.model].price == served.price
  }

  /** What is charged for a request served as quoted is within its quote. */
  lemma SettlesWithinQuote(listings: map<Id, Pricing.Listing>, usage: Metering.SuccessInput, q: Quote)
    requires AllTimelines(listings) && Quoted(q) && ServedAs(listings, usage, q) && Metering.Charge(listings, usage).Some?
    ensures 0 <= Metering.Charge(listings, usage).value.total <= q.cost
  {
    var served: Model :|
      && served in q.models && served.id == usage.model
      && usage.prompt <= PromptTokens(q.messages)
      && usage.completion <= CompletionTokens(q.maxTokens, PromptTokens(q.messages), served)
      && listings[usage.model].price == served.price;
    Pricing.ActiveIsModelPrice(listings[usage.model]);
    ChargeWithinEstimate(q.cost, q.maxTokens, PromptTokens(q.messages), q.models, served, usage.prompt, usage.completion, served.price);
  }

  /** The cost of a request that was served as quoted, by a quote of this cost, at the prices of some moment. */
  ghost predicate ChargedAsQuoted(record: Ledger.CostRecord, cost: int) {
    exists listings: map<Id, Pricing.Listing>, usage: Metering.SuccessInput, q: Quote ::
      AllTimelines(listings) && Metering.Charge(listings, usage) == Some(record)
      && Quoted(q) && q.cost == cost && ServedAs(listings, usage, q)
  }

  /** A Reserve asks for a quoted cost; a request with a reservation on `k` is charged as that reservation was quoted. */
  ghost predicate QuotedEvent(db: Ledger.Tables, est: Id -> int, e: Conservation.Event, k: Ledger.CounterKey) {
    match e
    case Admit(_, input, _) => exists q: Quote :: Quoted(q) && q.cost == input.estimate
    case Meter(record) => Ledger.HasLive(db.rows, record.request, k) ==> ChargedAsQuoted(record, est(record.request))
    case Close(request, how) => how.Release?
    case LogFailure(_) => true
  }

  ghost predicate QuotedEvents(db: Ledger.Tables, es: seq<Conservation.Event>, k: Ledger.CounterKey, limit: int) {
    forall i :: 0 <= i < |es| ==>
      WellTyped(es[i]) && Overspend.FixedLimit(es[i], k, limit)
      && QuotedEvent(Run(db, es[..i]), Overspend.Estimates(db, es[..i], k), es[i], k)
  }

  lemma QuotedWithin(db: Ledger.Tables, est: Id -> int, e: Conservation.Event, k: Ledger.CounterKey)
    requires QuotedEvent(db, est, e, k)
    ensures Overspend.WithinEstimate(db, est, e, k)
  {
    if e.Meter? && Ledger.HasLive(db.rows, e.record.request, k) {
      var listings, usage, q: Quote :|
        AllTimelines(listings) && Metering.Charge(listings, usage) == Some(e.record)
        && Quoted(q) && q.cost == est(e.record.request) && ServedAs(listings, usage, q);
      SettlesWithinQuote(listings, usage, q);
    }
  }

  lemma QuotedHonest(db: Ledger.Tables, es: seq<Conservation.Event>, k: Ledger.CounterKey, limit: int)
    requires QuotedEvents(db, es, k, limit)
    ensures Overspend.Honest(db, es, k, limit)
  {
    forall i | 0 <= i < |es|
      ensures Overspend.WithinEstimate(Run(db, es[..i]), Overspend.Estimates(db, es[..i], k), es[i], k)
    {
      QuotedWithin(Run(db, es[..i]), Overspend.Estimates(db, es[..i], k), es[i], k);
    }
  }

  /** However the transactions interleave: requests served as quoted keep every counter within the bound of `Overspend`. */
  lemma ConcurrentNoOverspend(m: Interleaving.Machine, actions: seq<Interleaving.Action>, es: seq<Conservation.Event>,
                              k: Ledger.CounterKey, limit: int)
    requires Serializability.Initial(m) && Overspend.Empty(m.db) && Serializability.OrderlyRun(m, actions)
    requires Interleaving.Exec(m, actions).Some? && Concurrent.AsRun(Interleaving.Exec(m, actions).value.history, es)
    requires QuotedEvents(m.db, es, k, limit) && 0 <= limit <= INT64_MAX
    requires k in Interleaving.Exec(m, actions).value.db.counters
    ensures var c := Interleaving.Exec(m, actions).value.db.counters[k];
            c.settled + c.reserved <= Max(Max(limit, c.seed), Overspend.LargestCapped(m.db, es, k))
  {
    QuotedHonest(m.db, es, k, limit);
    Concurrent.ConcurrentOverspend(m, actions, es, k, limit);
  }

  // ----- The same for steps of the gateway ----------------------------------------------

  ghost predicate AsQuoted(s: State, step: Step, est: Id -> int, k: Ledger.CounterKey) {
    match step
    case Reserve(_, input, _) => exists q: Quote :: Quoted(q) && q.cost == input.estimate
    case Success(usage) =>
      Ledger.HasLive(s.db.rows, usage.request, k) ==>
        exists q: Quote :: Quoted(q) && q.cost == est(usage.request) && ServedAs(s.listings, usage, q)
    case _ => true
  }

  /** Every step is as quoted, and `k` is only ever limited to `limit`. */
  ghost predicate QuotedRun(s: State, steps: seq<Step>, k: Ledger.CounterKey, limit: int) {
    forall i :: 0 <= i < |steps| ==>
      && AsQuoted(Play(s, steps[..i]), steps[i], Overspend.Estimates(s.db, Events(s, steps[..i]), k), k)
      && (steps[i].Reserve? ==> Overspend.FixedLimit(Admit(steps[i].policy, steps[i].input, steps[i].now), k, limit))
  }

  lemma StepAsEvent(s: State, step: Step, est: Id -> int, k: Ledger.CounterKey)
    requires Listed(s) && AsQuoted(s, step, est, k)
    ensures WellTyped(Event(s, step)) && QuotedEvent(s.db, est, Event(s, step), k)
  {
    if step.Success? && Metering.Charge(s.listings, step.usage).Some? {
      Metering.ChargesAreNonNegative(s.listings, step.usage);
    }
  }

  lemma {:induction false} EventsPrefix(s: State, steps: seq<Step>, i: nat)
    requires i <= |steps|
    ensures Events(s, steps)[..i] == Events(s, steps[..i])
    ensures i < |steps| ==> Events(s, steps)[i] == Event(Play(s, steps[..i]), steps[i])
  {
    if i == |steps| {
      assert steps[..i] == steps;
    } else {
      var n := |steps| - 1;
      if i < n {
        EventsPrefix(s, steps[..n], i);
        assert steps[..n][..i] == steps[..i];
      }
    }
  }

  lemma QuotedSteps(s: State, steps: seq<Step>, k: Ledger.CounterKey, limit: int)
    requires Listed(s) && QuotedRun(s, steps, k, limit)
    ensures QuotedEvents(s.db, Events(s, steps), k, limit)
  {
    var es := Events(s, steps);
    forall i | 0 <= i < |es|
      ensures WellTyped(es[i]) && Overspend.FixedLimit(es[i], k, limit)
      ensures QuotedEvent(Run(s.db, es[..i]), Overspend.Estimates(s.db, es[..i], k), es[i], k)
    {
      EventsPrefix(s, steps, i);
      PlayIsRun(s, steps[..i]);
      PlayListed(s, steps[..i]);
      StepAsEvent(Play(s, steps[..i]), steps[i], Overspend.Estimates(s.db, Events(s, steps[..i]), k), k);
    }
  }

  /** The bound of `Overspend`, with the honesty of settlements derived from tokens and prices. */
  lemma NoOverspend(s: State, steps: seq<Step>, k: Ledger.CounterKey, limit: int)
    requires Overspend.Empty(s.db) && Listed(s) && 0 <= limit <= INT64_MAX
    requires QuotedRun(s, steps, k, limit)
    requires k in Play(s, steps).db.counters
    ensures var c := Play(s, steps).db.counters[k];
            c.settled + c.reserved <= Max(Max(limit, c.seed), Overspend.LargestCapped(s.db, Events(s, steps), k))
  {
    PlayIsRun(s, steps);
    QuotedSteps(s, steps, k, limit);
    QuotedHonest(s.db, Events(s, steps), k, limit);
    Overspend.OverspendBound(s.db, Events(s, steps), k, limit);
  }

  // ----- Served as quoted, and over the limit all the same ------------------------------

  const ORG: Id := 1
  const PER_TOKEN: Price := Price(0, 1000)  // one micro-USD per completion token
  const MODEL: Model := Model(1, PER_TOKEN, None)

  function Shop(): State {
    State(Overspend.NOTHING, map[1 := Pricing.Created(ORG, PER_TOKEN, 0)])
  }

  /** A one-word prompt that may be answered with `n` tokens. */
  function QuoteFor(n: nat): Quote {
    Quote(["x"], Some(n), [MODEL], n)
  }

  function Served(n: nat): Metering.SuccessInput {
    Metering.SuccessInput(1, ORG, ORG, 1, MODEL.id, "POST", "/", 200, 0, 1, n, 0)
  }

  lemma CostIsTokens(n: nat)
    requires 0 < n < Metering.INT32_MAX
    ensures PromptTokens(["x"]) == 1
    ensures Calculate(1, n, PER_TOKEN) == Costs(Cost(0, n))
  {
    assert ["x"][..0] == [];
    CalculateExact(1, n, PER_TOKEN, 0, n);
  }

  lemma QuoteForIsQuoted(n: nat)
    requires 0 < n < Metering.INT32_MAX
    ensures Quoted(QuoteFor(n))
  {
    CostIsTokens(n);
    assert Expected(Some(n), 1, [MODEL][0]) == Costs(Cost(0, n));
  }

  lemma ServedIsCharged(n: nat)
    requires 0 < n < Metering.INT32_MAX
    ensures Metering.Charge(Shop().listings, Served(n)) == Some(Ledger.CostRecord(1, ORG, ORG, 0, n))
  {
    CostIsTokens(n);
    var versions := Pricing.Created(ORG, PER_TOKEN, 0).versions;
    assert versions[|versions| - 1].active && Pricing.ActiveIndex(versions) == Some(0);
    assert Metering.ActivePrice(Shop().listings, ORG, MODEL.id) == Some(PER_TOKEN);
    assert "POST" != "" && "/" != "" && Metering.Valid(Served(n));
    assert Cost(0, n).Total() == n;
  }

  /**
   * The conditions of the bound can be met, and its cap term is needed even then: under any positive
   * limit in the database's token range, a single request served exactly as quoted settles more.
   */
  lemma QuotedOvershoot(limit: int) returns (steps: seq<Step>, n: nat, k: Ledger.CounterKey)
    requires 0 < limit < Metering.INT32_MAX - 1
    ensures Overspend.Empty(Shop().db) && Listed(Shop()) && QuotedRun(Shop(), steps, k, limit)
    ensures k in Play(Shop(), steps).db.counters && Play(Shop(), steps).db.counters[k].settled > limit
  {
    n := limit + 1;
    var policy := Overspend.OneOrgBudget(ORG, ORG, limit);
    var c, input := Ledger.Constraint(Ledger.OrgScope, ORG, Daily, limit), Ledger.ReserveInput(1, ORG, ORG, n);
    k := Ledger.KeyOf(ORG, c, 0);
    steps := [Reserve(policy, input, 0), Success(Served(n))];
    OneQuoted(policy, input, c, n);
    OneServed(policy, input, c, n);
    assert forall m :: m in Shop().listings ==> Pricing.Timeline(Shop().listings[m]);
  }

  lemma OneQuoted(policy: Ledger.Policy, input: Ledger.ReserveInput, c: Ledger.Constraint, n: nat)
    requires 0 < n < Metering.INT32_MAX && input == Ledger.ReserveInput(1, ORG, ORG, n) && 0 < c.limit < n
    requires Ledger.LoadConstraints(policy, ORG, ORG) == Some([c])
    ensures QuotedRun(Shop(), [Reserve(policy, input, 0), Success(Served(n))], Ledger.KeyOf(ORG, c, 0), c.limit)
  {
    var reserve, success, k := Reserve(policy, input, 0), Success(Served(n)), Ledger.KeyOf(ORG, c, 0);
    FirstStep(policy, input, c);
    QuoteForIsQuoted(n);
    ServedAsQuoted(Take(Shop(), reserve), n);
    FirstEstimate(reserve, k);
    QuotedPair(reserve, success, n, k, c.limit);
  }

  /** After the first step, the reservation on `k` has the first step's estimate. */
  lemma FirstEstimate(reserve: Step, k: Ledger.CounterKey)
    requires reserve.Reserve? && |Take(Shop(), reserve).db.rows| == 1 && Take(Shop(), reserve).db.rows[0].counter == k
    ensures Overspend.Estimates(Shop().db, Events(Shop(), [reserve]), k)(Take(Shop(), reserve).db.rows[0].request) == reserve.input.estimate
  {
    PlayTwo(Shop(), reserve, reserve);
    PlayIsRun(Shop(), [reserve]);
    var es := Events(Shop(), [reserve]);
    assert [reserve][..0] == [] && es == [Event(Shop(), reserve)] && es[..0] == [];
    Overspend.InsertedBy(Shop().db, es, k, 0);
  }

  lemma OneServed(policy: Ledger.Policy, input: Ledger.ReserveInput, c: Ledger.Constraint, n: nat)
    requires 0 < n < Metering.INT32_MAX && input == Ledger.ReserveInput(1, ORG, ORG, n) && 0 < c.limit < n
    requires Ledger.LoadConstraints(policy, ORG, ORG) == Some([c])
    ensures var k, after := Ledger.KeyOf(ORG, c, 0), Play(Shop(), [Reserve(policy, input, 0), Success(Served(n))]);
            k in after.db.counters && after.db.counters[k].settled == n
  {
    var reserve, success := Reserve(policy, input, 0), Success(Served(n));
    var k := Ledger.KeyOf(ORG, c, 0);
    FirstStep(policy, input, c);
    PlayTwo(Shop(), reserve, success);
    SecondStep(Take(Shop(), reserve), k, Ledger.NewRow(input, k, c.limit), n);
  }

  lemma PlayTwo(s: State, first: Step, second: Step)
    ensures Play(s, []) == s && Play(s, [first]) == Take(s, first) && Play(s, [first, second]) == Take(Take(s, first), second)
  {
    assert [first][..0] == [] && [first, second][..1] == [first];
  }

  lemma QuotedPair(reserve: Step, success: Step, n: nat, k: Ledger.CounterKey, limit: int)
    requires Quoted(QuoteFor(n)) && reserve.Reserve? && reserve.input.estimate == n && success == Success(Served(n))
    requires ServedAs(Take(Shop(), reserve).listings, Served(n), QuoteFor(n))
    requires Overspend.Estimates(Shop().db, Events(Shop(), [reserve]), k)(Served(n).request) == n
    requires Overspend.FixedLimit(Admit(reserve.policy, reserve.input, reserve.now), k, limit)
    ensures QuotedRun(Shop(), [reserve, success], k, limit)
  {
    var steps := [reserve, success];
    PlayTwo(Shop(), reserve, success);
    assert steps[..0] == [] && steps[..1] == [reserve];
  }

  lemma FirstStep(policy: Ledger.Policy, input: Ledger.ReserveInput, c: Ledger.Constraint)
    requires Ledger.ValidInput(input) && 0 < c.limit < input.estimate && c.limit <= INT64_MAX
    requires Ledger.LoadConstraints(policy, input.org, input.apiKey) == Some([c])
    ensures var k, after := Ledger.KeyOf(input.org, c, 0), Take(Shop(), Reserve(policy, input, 0));
            && after.listings == Shop().listings && after.db.rows == [Ledger.NewRow(input, k, c.limit)]
            && after.db.counters.Keys == {k} && after.db.counters[k].settled == 0 && after.db.logs == {}
  {
    Overspend.FirstReserve(input, c, 0);
  }

  lemma ServedAsQuoted(reserved: State, n: nat)
    requires 0 < n < Metering.INT32_MAX && reserved.listings == Shop().listings
    ensures ServedAs(reserved.listings, Served(n), QuoteFor(n))
  {
    CostIsTokens(n);
    assert MODEL in QuoteFor(n).models;
  }

  lemma SecondStep(s: State, k: Ledger.CounterKey, row: Ledger.Row, n: nat)
    requires 0 < n < Metering.INT32_MAX && s.listings == Shop().listings && s.db.logs == {}
    requires s.db.rows == [row] && row.counter == k && row.status == Ledger.Reserved && row.request == 1
    requires s.db.counters.Keys == {k} && s.db.counters[k].settled == 0
    ensures k in Take(s, Success(Served(n))).db.counters && Take(s, Success(Served(n))).db.counters[k].settled == n
  {
    ServedIsCharged(n);
    var record := Ledger.CostRecord(1, ORG, ORG, 0, n);
    var logged := s.db.(costs := s.db.costs + [record], logs := s.db.logs + {1});
    Overspend.FirstSettle(logged, k, row, n);
  }
}
