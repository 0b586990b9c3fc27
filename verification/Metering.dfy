/** `metering.RecordSuccess`: request log, cost record and settlement in one transaction. */
module Metering {
  import opened Base
  import opened Calendar
  import opened Calculator
  import opened Conservation
  import Ledger
  import Pricing
  import ReservationService

  const INT32_MAX: int := 0x7FFF_FFFF

  datatype SuccessInput = SuccessInput(
    request: Id, org: Id, apiKey: Id, provider: Id, model: Id,
    verb: string, path: string, statusCode: int, latency: int,
    prompt: int, completion: int, completedAt: Time)

  predicate Valid(input: SuccessInput) {
    && input.request != NIL && input.org != NIL && input.apiKey != NIL && input.provider != NIL && input.model != NIL
    && input.verb != "" && input.path != ""
    && 100 <= input.statusCode <= 599 && input.latency >= 0
    && 0 <= input.prompt <= INT32_MAX && 0 <= input.completion <= INT32_MAX
    && input.prompt + input.completion <= INT32_MAX
  }

  datatype FailureStatus = ErrorStatus | RateLimited | BudgetWarned | BudgetBlocked | OtherStatus

  datatype FailureInput = FailureInput(
    request: Id, org: Id, verb: string, path: string, status: FailureStatus, statusCode: int, latency: int)

  predicate ValidFailure(input: FailureInput) {
    && input.request != NIL && input.org != NIL && input.verb != "" && input.path != ""
    && !input.status.OtherStatus? && 100 <= input.statusCode <= 599 && input.latency >= 0
  }

  /** The price of the version in force; None when the model has none. */
  function ActivePrice(listings: map<Id, Pricing.Listing>, org: Id, model: Id): Option<Price> {
    if model !in listings || listings[model].org != org then None
    else
      var i := Pricing.ActiveIndex(listings[model].versions);
      if i.None? then None else Some(listings[model].versions[i.value].price)
  }

  /** The cost record a successful request is charged with; None when it cannot be charged. */
  function Charge(listings: map<Id, Pricing.Listing>, input: SuccessInput): Option<Ledger.CostRecord> {
    var price := ActivePrice(listings, input.org, input.model);
    if !Valid(input) || price.None? then None
    else
      var calculation := Calculate(input.prompt, input.completion, price.value);
      if calculation.Failed? then None
      else Some(Ledger.CostRecord(input.request, input.org, input.apiKey, input.completedAt, calculation.cost.Total()))
  }

  /** The effect of `RecordSuccess` as one transaction; None when it fails. */
  ghost function RecordSuccessTx(db: Ledger.Tables, listings: map<Id, Pricing.Listing>, input: SuccessInput): Option<Ledger.Tables> {
    var record := Charge(listings, input);
    if record.None? then None else Ledger.RecordCost(db, record.value)
  }

  lemma ChargesAreNonNegative(listings: map<Id, Pricing.Listing>, input: SuccessInput)
    requires Charge(listings, input).Some?
    ensures Charge(listings, input).value.total >= 0
  {
    CalculateMonotone(input.prompt, input.completion, input.prompt, input.completion, ActivePrice(listings, input.org, input.model).value);
  }

  // ----- What is charged ------------------------------------------------------

  /** The organization's model has an active version with this price. */
  ghost predicate PriceInForce(listings: map<Id, Pricing.Listing>, org: Id, model: Id, price: Price) {
    && model in listings && listings[model].org == org
    && exists i :: 0 <= i < |listings[model].versions| && listings[model].versions[i].active
                && listings[model].versions[i].price == price
  }

  lemma ActivePriceInForce(listings: map<Id, Pricing.Listing>, org: Id, model: Id, price: Price)
    requires forall m :: m in listings ==> Pricing.Timeline(listings[m])
    ensures ActivePrice(listings, org, model) == Some(price) <==> PriceInForce(listings, org, model, price)
    ensures ActivePrice(listings, org, model) == Some(price) ==> price.input >= 0 && price.output >= 0
  {
    if model in listings { Pricing.ActiveIsModelPrice(listings[model]); }
  }

  /** The request can be charged `total`: that is the price of its tokens at the price in force. */
  ghost predicate Chargeable(listings: map<Id, Pricing.Listing>, input: SuccessInput, total: int) {
    exists price :: PriceInForce(listings, input.org, input.model, price) && Priced(total, input.prompt, input.completion, price)
                 && total <= INT64_MAX
  }

  /**
   * A valid request without a log row is charged if it has a price and the price fits in its counters: one cost
   * record, one log row, and the settlement of what it had reserved. Otherwise nothing happens.
   */
  ghost predicate Recorded(before: Ledger.Tables, after: Ledger.Tables, listings: map<Id, Pricing.Listing>, input: SuccessInput,
                           charged: Option<Ledger.CostRecord>) {
    && (charged.Some? <==>
          && Valid(input) && input.request !in before.logs
          && exists total :: Chargeable(listings, input, total) && CostFits(before, input.request, total))
    && (charged.Some? ==>
          var record := charged.value;
          && Chargeable(listings, input, record.total)
          && record == Ledger.CostRecord(input.request, input.org, input.apiKey, input.completedAt, record.total)
          && after.costs == before.costs + [record]
          && after.logs == before.logs + {input.request}
          && Ended(before.(costs := after.costs, logs := after.logs), after, input.request, Some(record.total)))
    && (charged.None? ==> after == before)
  }

  /** A request is charged at most one total. */
  lemma ChargedExactly(listings: map<Id, Pricing.Listing>, input: SuccessInput, total: int)
    requires Valid(input) && forall m :: m in listings ==> Pricing.Timeline(listings[m])
    ensures Chargeable(listings, input, total) <==> Charge(listings, input).Some? && Charge(listings, input).value.total == total
  {
    var price := ActivePrice(listings, input.org, input.model);
    if price.Some? {
      ActivePriceInForce(listings, input.org, input.model, price.value);
      BilledExactly(input.prompt, input.completion, price.value, total);
    }
    if Chargeable(listings, input, total) {
      var p :| PriceInForce(listings, input.org, input.model, p) && Priced(total, input.prompt, input.completion, p) && total <= INT64_MAX;
      ActivePriceInForce(listings, input.org, input.model, p);
    }
  }

  lemma RecordedExactly(db: Ledger.Tables, listings: map<Id, Pricing.Listing>, input: SuccessInput)
    requires Conserved(db) && forall m :: m in listings ==> Pricing.Timeline(listings[m])
    ensures var r := RecordSuccessTx(db, listings, input);
            Recorded(db, if r.Some? then r.value else db, listings, input, if r.Some? then Charge(listings, input) else None)
  {
    var charge := Charge(listings, input);
    if Valid(input) {
      forall total ensures Chargeable(listings, input, total) <==> charge.Some? && charge.value.total == total {
        ChargedExactly(listings, input, total);
      }
    }
    if charge.Some? && input.request !in db.logs {
      var record := charge.value;
      var logged := db.(costs := db.costs + [record], logs := db.logs + {record.request});
      ChargesAreNonNegative(listings, input);
      assert Conserved(logged) by { assert forall k :: k in db.counters ==> Balanced(db, k) && Balanced(logged, k); }
      FinishedExactly(logged, input.request, Ledger.Settle(record.total));
      assert CostFits(logged, input.request, record.total) <==> CostFits(db, input.request, record.total);
    }
  }

  lemma RecordConserves(db: Ledger.Tables, listings: map<Id, Pricing.Listing>, input: SuccessInput)
    requires Conserved(db)
    ensures var r := RecordSuccessTx(db, listings, input); r.Some? ==> Conserved(r.value)
  {
    if Charge(listings, input).Some? {
      ChargesAreNonNegative(listings, input);
      ApplyConserves(db, Event.Meter(Charge(listings, input).value));
    }
  }

  class Service {
    const store: ReservationService.Store
    const pricing: Pricing.PricingService

    constructor (store: ReservationService.Store, pricing: Pricing.PricingService)
      ensures this.store == store && this.pricing == pricing
    {
      this.store, this.pricing := store, pricing;
    }

    method RecordSuccess(input: SuccessInput) returns (charged: Option<Ledger.CostRecord>)
      requires Ledger.UniqueSlots(store.rows)
      modifies store
      ensures var r := RecordSuccessTx(old(store.View()), pricing.listings, input);
              && charged == (if r.Some? then Charge(pricing.listings, input) else None)
              && store.View() == if r.Some? then r.value else old(store.View())
      ensures Conserved(old(store.View())) ==> Conserved(store.View())
      ensures Conserved(old(store.View())) && pricing.Valid() ==>
                Recorded(old(store.View()), store.View(), pricing.listings, input, charged)
    {
      if input.request == NIL { return None; }
      if input.org == NIL || input.apiKey == NIL || input.provider == NIL || input.model == NIL { return None; }
      if input.verb == "" || input.path == "" { return None; }
      if input.statusCode < 100 || input.statusCode > 599 { return None; }
      if input.latency < 0 { return None; }
      if input.prompt < 0 || input.completion < 0 { return None; }
      if input.prompt > INT32_MAX || input.completion > INT32_MAX || input.prompt + input.completion > INT32_MAX { return None; }
      ghost var db := store.View();
      if Conserved(db) { RecordConserves(db, pricing.listings, input); }
      if Conserved(db) && pricing.Valid() { RecordedExactly(db, pricing.listings, input); }
      var saved := (store.counters, store.rows, store.costs, store.logs);
      if input.request in store.logs { return None; }
      store.logs := store.logs + {input.request};
      var price := ActivePrice(pricing.listings, input.org, input.model);
      if price.None? {
        store.logs := saved.3;
        return None;
      }
      var calculation := Calculate(input.prompt, input.completion, price.value);
      if calculation.Failed? {
        store.logs := saved.3;
        return None;
      }
      var record := Ledger.CostRecord(input.request, input.org, input.apiKey, input.completedAt, calculation.cost.Total());
      store.costs := store.costs + [record];
      var ok := store.FinishTx(input.request, Ledger.Settle(record.total));
      if !ok {
        store.counters, store.rows, store.costs, store.logs := saved.0, saved.1, saved.2, saved.3;
        return None;
      }
      charged := Some(record);
    }

    /** `RecordFailure` only inserts the request log. */
    method RecordFailure(input: FailureInput) returns (ok: bool)
      modifies store`logs
      ensures ok == (ValidFailure(input) && input.request !in old(store.logs))
      ensures store.logs == if ok then old(store.logs) + {input.request} else old(store.logs)
    {
      if input.request == NIL { return false; }
      if input.org == NIL { return false; }
      if input.verb == "" || input.path == "" { return false; }
      if input.status == OtherStatus { return false; }
      if input.statusCode < 100 || input.statusCode > 599 { return false; }
      if input.latency < 0 { return false; }
      if input.request in store.logs { return false; }
      store.logs := store.logs + {input.request};
      ok := true;
    }
  }
}
