/** What becomes of a request's reservation on every way out of `Chat`, `StreamChat` and `FinalizeStream`. */
module Disposition {
  import opened Base
  import opened Calendar
  import opened Ledger
  import opened Conservation
  import opened Gateway
  import Calculator
  import EndToEnd
  import Estimate
  import Metering
  import Overspend
  import Pricing
  import ReservationService

  datatype Target = Target(provider: Id, model: Estimate.Model)

  datatype ChatInput = ChatInput(request: Id, org: Id, apiKey: Id, verb: string, path: string,
                                 messages: seq<string>, maxTokens: Option<int>)

  datatype ChatResult = Answered(target: nat, usage: Usage, cost: int) | Refused | ProviderFailed(code: Code) | InternalError

  /** The rows inserted since `before` all belong to the request and have this status. */
  ghost predicate Inserted(before: Tables, after: Tables, request: Id, status: Status) {
    && |before.rows| <= |after.rows|
    && forall i :: |before.rows| <= i < |after.rows| ==> after.rows[i].request == request && after.rows[i].status == status
  }

  ghost predicate NothingLeft(after: Tables, request: Id) {
    forall i :: 0 <= i < |after.rows| ==> !Live(after.rows[i], request)
  }

  /** Every row inserted since `before` was released, and nothing of the request is left reserved. */
  ghost predicate AllReleased(before: Tables, after: Tables, request: Id) {
    Inserted(before, after, request, Released) && NothingLeft(after, request)
  }

  /** Every row inserted since `before` was settled at `cost`, and nothing of the request is left reserved. */
  ghost predicate AllSettled(before: Tables, after: Tables, request: Id, cost: int) {
    && Inserted(before, after, request, Settled) && NothingLeft(after, request)
    && forall i :: |before.rows| <= i < |after.rows| ==> after.rows[i].settled == cost
  }

  /** The tables are as before, or as a reservation of the estimated cost has left them. */
  ghost predicate MaybeReserved(before: Tables, after: Tables, world: World, policy: Policy, input: ChatInput, models: seq<Estimate.Model>) {
    after == before || exists cost: int ::
      && Estimate.IsLargest(cost, input.maxTokens, Estimate.PromptTokens(input.messages), models) && cost > 0
      && after == Ledger.Reserve(before, policy, ReserveInput(input.request, input.org, input.apiKey, cost), world.reservedAt).0
  }

  function ModelsOf(targets: seq<Target>): seq<Estimate.Model> {
    seq(|targets|, i requires 0 <= i < |targets| => targets[i].model)
  }

  lemma ReserveInserts(db: Tables, policy: Policy, input: ReserveInput, now: Time)
    ensures Inserted(db, Ledger.Reserve(db, policy, input, now).0, input.request, Status.Reserved)
    ensures Ledger.Reserve(db, policy, input, now).1 != Allowed ==> Ledger.Reserve(db, policy, input, now).0 == db
  {
    var cs := LoadConstraints(policy, input.org, input.apiKey);
    if ValidInput(input) && cs.Some? { ReserveDeltaRows(db, input, cs.value, now, |cs.value|); }
  }

  lemma ReleaseReleases(before: Tables, reserved: Tables, request: Id)
    requires Inserted(before, reserved, request, Status.Reserved) && FinishTx(reserved, request, Release).Some?
    ensures AllReleased(before, FinishTx(reserved, request, Release).value, request)
  {
  }

  lemma RecordSettles(before: Tables, reserved: Tables, record: CostRecord)
    requires Inserted(before, reserved, record.request, Status.Reserved) && RecordCost(reserved, record).Some?
    ensures AllSettled(before, RecordCost(reserved, record).value, record.request, record.total)
  {
  }

  /** Releasing a request of which nothing is live changes nothing. */
  lemma ReleaseNothing(db: Tables, request: Id)
    requires NothingLeft(db, request) && FinishTx(db, request, Release).Some?
    ensures FinishTx(db, request, Release).value == db
  {
    assert FinishCounters(db, request, Release) == db.counters;
    assert FinishRows(db.rows, request, Release) == db.rows;
  }

  // ----- What each part does to the tables --------------------------------------------

  /** The estimate of a request: the dearest model's, or none if some model cannot be priced. */
  ghost predicate Estimated(cost: Option<int>, input: ChatInput, models: seq<Estimate.Model>) {
    var prompt := Estimate.PromptTokens(input.messages);
    && (cost.Some? ==> Estimate.IsLargest(cost.value, input.maxTokens, prompt, models))
    && (cost.None? <==> exists i :: 0 <= i < |models| && Estimate.Expected(input.maxTokens, prompt, models[i]).Failed?)
  }

  /** A valid failure is logged, unless the request already has a log row. */
  function LoggedFailure(db: Tables, failure: Metering.FailureInput): Tables {
    if Metering.ValidFailure(failure) then db.(logs := db.logs + {failure.request}) else db
  }

  function HttpStatus(code: Code): int {
    match code
    case ProviderTimeout => 504
    case ProviderUnavailable => 503
    case _ => 502
  }

  function Failed(world: World, input: ChatInput, status: Metering.FailureStatus, statusCode: int): Metering.FailureInput {
    Metering.FailureInput(input.request, input.org, input.verb, input.path, status, statusCode, world.latency)
  }

  datatype Reservation = Reservation(db: Tables, active: bool, ok: bool)

  function ReserveEffect(db: Tables, world: World, policy: Policy, input: ChatInput, cost: Option<int>): Reservation {
    if cost.None? || (cost.value > 0 && world.reserve == RollsBack) then Reservation(db, false, false)
    else if cost.value <= 0 then Reservation(db, false, true)
    else
      var (after, outcome) := Ledger.Reserve(db, policy, ReserveInput(input.request, input.org, input.apiKey, cost.value), world.reservedAt);
      if world.reserve == Works && outcome == Allowed then Reservation(after, true, true)
      else if world.reserve == Works && outcome.Blocked? then Reservation(LoggedFailure(db, Failed(world, input, Metering.BudgetBlocked, 402)), false, false)
      else Reservation(after, false, false)
  }

  ghost function ReleaseEffect(db: Tables, request: Id, active: bool): Tables {
    var released := FinishTx(db, request, Release);
    if active && released.Some? then released.value else db
  }

  /** The reservation was committed behind the gateway's back: the acknowledgement was lost, and there are rows. */
  predicate LeavesRows(db: Tables, world: World, policy: Policy, input: ChatInput, cost: Option<int>) {
    && world.reserve == AckLost && cost.Some? && cost.value > 0
    && |ReserveEffect(db, world, policy, input, cost).db.rows| > |db.rows|
  }

  /** Afterwards something of the request is live if and only if the reservation of its estimate was committed unnoticed. */
  ghost predicate LeftExactly(before: Tables, after: Tables, world: World, policy: Policy, input: ChatInput, cost: Option<int>) {
    NothingLeft(after, input.request) <==> !LeavesRows(before, world, policy, input, cost)
  }

  /** A reservation leaves something live of a request that had nothing exactly if it inserted rows. */
  lemma ReserveLeaves(db: Tables, world: World, policy: Policy, input: ChatInput, cost: Option<int>)
    requires NothingLeft(db, input.request)
    ensures var r := ReserveEffect(db, world, policy, input, cost);
            && (!r.active ==> (NothingLeft(r.db, input.request) <==> !LeavesRows(db, world, policy, input, cost)))
            && (r.active || r.ok ==> !LeavesRows(db, world, policy, input, cost))
  {
    var r := ReserveEffect(db, world, policy, input, cost);
    if cost.Some? {
      var asked := ReserveInput(input.request, input.org, input.apiKey, cost.value);
      ReserveInserts(db, policy, asked, world.reservedAt);
      var after := Ledger.Reserve(db, policy, asked, world.reservedAt).0;
      assert forall i :: 0 <= i < |db.rows| ==> after.rows[i] == db.rows[i];
      if LeavesRows(db, world, policy, input, cost) { assert Live(r.db.rows[|db.rows|], input.request); }
    }
  }

  /** What follows a reservation that is not active cannot make anything live. */
  lemma ConcludedLeaves(reserved: Tables, after: Tables, listings: map<Id, Pricing.Listing>, world: World, input: ChatInput,
                        targets: seq<Target>, fallback: bool, attempts: seq<Attempt>, result: ChatResult)
    requires NothingLeft(reserved, input.request)
    requires Concluded(reserved, after, listings, world, input, targets, fallback, false, attempts, result)
    ensures NothingLeft(after, input.request)
  {
  }

  function Success(world: World, input: ChatInput, target: Target, usage: Usage): Metering.SuccessInput {
    Metering.SuccessInput(input.request, input.org, input.apiKey, target.provider, target.model.id, input.verb, input.path, 200, world.latency,
                          usage.prompt, usage.completion, world.completedAt)
  }

  /** Recording a served request: the tables afterwards and the cost its caller hears of. */
  ghost function RecordEffect(db: Tables, listings: map<Id, Pricing.Listing>, world: World, input: ChatInput, target: Target,
                              usage: Usage, active: bool): (Tables, Option<int>) {
    var success := Success(world, input, target, usage);
    var after := if world.record == RollsBack then None else Metering.RecordSuccessTx(db, listings, success);
    if after.None? then (ReleaseEffect(db, input.request, active), None)
    else if world.record == AckLost then (ReleaseEffect(after.value, input.request, active), None)
    else (after.value, Some(Metering.Charge(listings, success).value.total))
  }

  /** What `Chat` makes of the attempts, given what is in the tables after the reservation. */
  ghost predicate Concluded(reserved: Tables, after: Tables, listings: map<Id, Pricing.Listing>, world: World, input: ChatInput,
                            targets: seq<Target>, fallback: bool, active: bool, attempts: seq<Attempt>, result: ChatResult) {
    var n := |attempts| - 1;
    if attempts == [] || n >= |targets| || attempts[n].error.Some? || world.calls(n, attempts[n].count).Failure? then
      var code := FinalCode(LastCode(attempts), attempts, fallback, |targets|);
      && after == ReleaseEffect(LoggedFailure(reserved, Failed(world, input, Metering.ErrorStatus, HttpStatus(code))), input.request, active)
      && result == ProviderFailed(code)
    else
      var usage := world.calls(n, attempts[n].count).usage;
      var (recorded, told) := RecordEffect(reserved, listings, world, input, targets[n], usage, active);
      after == recorded && result == if told.Some? then Answered(n, usage, told.value) else InternalError
  }

  // ----- The same in the columns of the tables ------------------------------------------

  /** `total` is the price of the usage at the active version of the target's model. */
  ghost predicate Billed(listings: map<Id, Pricing.Listing>, org: Id, target: Target, usage: Usage, total: int) {
    exists price :: Metering.PriceInForce(listings, org, target.model.id, price)
                 && Calculator.Priced(total, usage.prompt, usage.completion, price)
  }

  /** The request is a valid success without a log row, and its price fits everywhere. */
  ghost predicate CanCharge(db: Tables, listings: map<Id, Pricing.Listing>, world: World, input: ChatInput, target: Target,
                            usage: Usage, total: int) {
    && input.request != NIL && input.org != NIL && input.apiKey != NIL && target.provider != NIL && target.model.id != NIL
    && input.verb != "" && input.path != "" && world.latency >= 0
    && usage.prompt >= 0 && usage.completion >= 0 && usage.prompt + usage.completion <= 0x7FFF_FFFF
    && input.request !in db.logs
    && Billed(listings, input.org, target, usage, total) && total <= INT64_MAX && CostFits(db, input.request, total)
  }

  /** One cost record of `total`, one log row, and the request's live rows settled at it. */
  ghost predicate Paid(before: Tables, after: Tables, world: World, input: ChatInput, total: int) {
    && after.costs == before.costs + [CostRecord(input.request, input.org, input.apiKey, world.completedAt, total)]
    && after.logs == before.logs + {input.request}
    && Ended(before.(costs := after.costs, logs := after.logs), after, input.request, Some(total))
  }

  /** Nothing is charged; an active reservation is released. */
  ghost predicate GivenBack(before: Tables, after: Tables, request: Id, active: bool) {
    && after.costs == before.costs
    && if active then Ended(before.(logs := after.logs), after, request, None) else after == before.(logs := after.logs)
  }

  /**
   * A served request is paid if it can be charged and the transaction is committed, and its caller hears
   * of it unless the acknowledgement is lost.
   */
  ghost predicate PaidOrGivenBack(before: Tables, after: Tables, listings: map<Id, Pricing.Listing>, world: World, input: ChatInput,
                                  target: Target, usage: Usage, active: bool, told: Option<int>) {
    if world.record != RollsBack && exists total :: CanCharge(before, listings, world, input, target, usage, total) then
      exists total ::
        && CanCharge(before, listings, world, input, target, usage, total) && Paid(before, after, world, input, total)
        && told == if world.record == Works then Some(total) else None
    else told == None && after.logs == before.logs && GivenBack(before, after, input.request, active)
  }

  /** The log row of a request that failed: none if the request is not fit to be logged. */
  ghost function LoggedIf(world: World, input: ChatInput): set<Id> {
    if input.request != NIL && input.org != NIL && input.verb != "" && input.path != "" && world.latency >= 0 then {input.request} else {}
  }

  /** Nobody served the request: it is logged as failed, if it can be, and its reservation released. */
  ghost predicate GaveUp(before: Tables, after: Tables, world: World, input: ChatInput, active: bool) {
    && GivenBack(before, after, input.request, active)
    && after.logs == before.logs + LoggedIf(world, input)
  }

  /** `cost` is the positive estimate of the request, and reserving it in these tables is answered with `outcome`. */
  ghost predicate Reserving(before: Tables, after: Tables, outcome: Outcome, world: World, policy: Policy, input: ChatInput,
                            models: seq<Estimate.Model>, cost: int) {
    && cost > 0 && Estimated(Some(cost), input, models)
    && Ledger.Reserve(before, policy, ReserveInput(input.request, input.org, input.apiKey, cost), world.reservedAt) == (after, outcome)
  }

  /**
   * A reservation is active if the estimate was let in and held. A request goes on without one only if it is
   * estimated to cost nothing, and is refused only if it cannot be estimated, is not let in, or the transaction fails.
   */
  ghost predicate ReservedRight(before: Tables, after: Tables, world: World, policy: Policy, input: ChatInput,
                                models: seq<Estimate.Model>, active: bool, ok: bool) {
    && (active ==> ok && exists cost :: Reserving(before, after, Allowed, world, policy, input, models, cost))
    && (ok && !active ==> after == before && Estimated(Some(0), input, models))
    && (!ok ==>
          && !active && !Estimated(Some(0), input, models)
          && after.costs == before.costs && before.logs <= after.logs <= before.logs + {input.request})
    && (!ok && world.reserve != AckLost ==> after == before.(logs := after.logs))
    && (!ok && world.reserve == Works ==> Estimated(None, input, models) || exists cost, outcome ::
          && Reserving(before, before, outcome, world, policy, input, models, cost) && outcome != Allowed
          && after.logs == before.logs + if outcome.Blocked? then LoggedIf(world, input) else {})
  }

  /** What becomes of a request after its reservation, by the last attempt. */
  ghost predicate ConcludedRight(before: Tables, after: Tables, listings: map<Id, Pricing.Listing>, world: World, input: ChatInput,
                                 targets: seq<Target>, fallback: bool, active: bool, attempts: seq<Attempt>, result: ChatResult) {
    var n := |attempts| - 1;
    if attempts != [] && attempts[n].error.None? then
      && n < |targets| && world.calls(n, attempts[n].count).Response?
      && var usage := world.calls(n, attempts[n].count).usage;
         var told := if result.Answered? then Some(result.cost) else None;
         && PaidOrGivenBack(before, after, listings, world, input, targets[n], usage, active, told)
         && result == if told.Some? then Answered(n, usage, told.value) else InternalError
    else
      var exhausted := attempts == [] || (fallback && |attempts| == |targets| && attempts[n].retryable);
      && GaveUp(before, after, world, input, active)
      && result == ProviderFailed(if exhausted then ProviderUnavailable else attempts[n].error.value)
  }

  /** The cost records since `before`: none, or the one of the request with this total. */
  ghost predicate BilledOnce(before: Tables, after: Tables, listings: map<Id, Pricing.Listing>, world: World, input: ChatInput,
                             target: Target, usage: Usage, total: int) {
    && Billed(listings, input.org, target, usage, total)
    && after.costs == before.costs + [CostRecord(input.request, input.org, input.apiKey, world.completedAt, total)]
  }

  /**
   * A cost is told exactly if the request can be charged and its record is committed; it is then that of the one new
   * cost record. Otherwise there is none, unless the acknowledgement is lost.
   */
  ghost predicate BilledRight(before: Tables, after: Tables, listings: map<Id, Pricing.Listing>, world: World, input: ChatInput,
                              target: Target, usage: Usage, told: Option<int>) {
    && (told.Some? ==> BilledOnce(before, after, listings, world, input, target, usage, told.value))
    && (told.None? && world.record != AckLost ==> after.costs == before.costs)
    && (world.record == Works ==> (told.Some? <==> exists total :: CanCharge(before, listings, world, input, target, usage, total)))
  }

  /** The same for `Chat`, from its reservation on: a request that no target served has no cost record. */
  ghost predicate ChatBilled(reserved: Tables, after: Tables, listings: map<Id, Pricing.Listing>, world: World,
                             input: ChatInput, targets: seq<Target>, attempts: seq<Attempt>, result: ChatResult) {
    var n := |attempts| - 1;
    if 0 <= n < |targets| && attempts[n].error.None? && world.calls(n, attempts[n].count).Response? then
      var usage := world.calls(n, attempts[n].count).usage;
      && BilledRight(reserved, after, listings, world, input, targets[n], usage, if result.Answered? then Some(result.cost) else None)
      && (result.Answered? ==> result.target == n && result.usage == usage)
    else after.costs == reserved.costs && !result.Answered?
  }

  ghost predicate Priceable(listings: map<Id, Pricing.Listing>) {
    forall m :: m in listings ==> Pricing.Timeline(listings[m])
  }

  lemma ChargeableExactly(db: Tables, listings: map<Id, Pricing.Listing>, world: World, input: ChatInput, target: Target, usage: Usage, total: int)
    ensures var success := Success(world, input, target, usage);
            CanCharge(db, listings, world, input, target, usage, total)
            <==> && Metering.Valid(success) && success.request !in db.logs
                 && Metering.Chargeable(listings, success, total) && CostFits(db, success.request, total)
  {
  }

  /** The transaction commits exactly if the request can be charged, and then it is paid. */
  lemma CommitPays(db: Tables, listings: map<Id, Pricing.Listing>, world: World, input: ChatInput, target: Target, usage: Usage)
    requires Conserved(db) && Priceable(listings)
    ensures var success := Success(world, input, target, usage);
            var r := Metering.RecordSuccessTx(db, listings, success);
            && (r.Some? <==> exists total :: CanCharge(db, listings, world, input, target, usage, total))
            && (r.Some? ==>
                  var total := Metering.Charge(listings, success).value.total;
                  CanCharge(db, listings, world, input, target, usage, total) && Paid(db, r.value, world, input, total))
  {
    Metering.RecordedExactly(db, listings, Success(world, input, target, usage));
    forall total { ChargeableExactly(db, listings, world, input, target, usage, total); }
  }

  lemma EndedLeavesNothing(before: Tables, after: Tables, request: Id, cost: Option<int>)
    requires Ended(before, after, request, cost)
    ensures NothingLeft(after, request)
  {
    forall i | 0 <= i < |after.rows| ensures !Live(after.rows[i], request) {
      assert Open(before.rows, request, i) || !Open(before.rows, request, i);
    }
  }

  lemma ReleaseGivesBack(db: Tables, request: Id, active: bool)
    requires Conserved(db) && (active ==> request != NIL)
    ensures GivenBack(db, ReleaseEffect(db, request, active), request, active) && ReleaseEffect(db, request, active).logs == db.logs
  {
    FinishedExactly(db, request, Release);
  }

  /** Recording a served request pays for it, or gives its reservation back. */
  lemma RecordingMeans(db: Tables, listings: map<Id, Pricing.Listing>, world: World, input: ChatInput, target: Target,
                       usage: Usage, active: bool)
    requires Conserved(db) && Priceable(listings) && (active ==> input.request != NIL)
    ensures var (after, told) := RecordEffect(db, listings, world, input, target, usage, active);
            PaidOrGivenBack(db, after, listings, world, input, target, usage, active, told)
  {
    CommitPays(db, listings, world, input, target, usage);
    ReleaseGivesBack(db, input.request, active);
    var r := Metering.RecordSuccessTx(db, listings, Success(world, input, target, usage));
    if world.record == AckLost && r.Some? && active { PaidStays(db, r.value, world, input); }
  }

  /** Releasing a request that has been paid changes nothing. */
  lemma PaidStays(db: Tables, after: Tables, world: World, input: ChatInput)
    requires input.request != NIL && exists total :: Paid(db, after, world, input, total)
    ensures ReleaseEffect(after, input.request, true) == after
  {
    var total :| Paid(db, after, world, input, total);
    EndedLeavesNothing(db.(costs := after.costs, logs := after.logs), after, input.request, Some(total));
    ReleaseNothing(after, input.request);
  }

  /** A failed request is logged and gives its reservation back. */
  lemma FailingMeans(db: Tables, world: World, input: ChatInput, status: Metering.FailureStatus, statusCode: int, active: bool)
    requires Conserved(db) && (active ==> input.request != NIL) && status != Metering.OtherStatus && 100 <= statusCode <= 599
    ensures GaveUp(db, ReleaseEffect(LoggedFailure(db, Failed(world, input, status, statusCode)), input.request, active), world, input, active)
  {
    var logged := LoggedFailure(db, Failed(world, input, status, statusCode));
    assert Conserved(logged) by { assert forall k :: k in db.counters ==> Balanced(db, k) && Balanced(logged, k); }
    ReleaseGivesBack(logged, input.request, active);
  }

  lemma ConcludedMeans(reserved: Tables, after: Tables, listings: map<Id, Pricing.Listing>, world: World, input: ChatInput,
                       targets: seq<Target>, fallback: bool, active: bool, attempts: seq<Attempt>, result: ChatResult, maxRetries: int)
    requires Conserved(reserved) && Priceable(listings) && (active ==> input.request != NIL)
    requires TriedInOrder(attempts, fallback, |targets|)
    requires forall i :: 0 <= i < |attempts| ==> Truthful(world, maxRetries, attempts[i])
    requires Concluded(reserved, after, listings, world, input, targets, fallback, active, attempts, result)
    ensures ConcludedRight(reserved, after, listings, world, input, targets, fallback, active, attempts, result)
  {
    var n := |attempts| - 1;
    if attempts != [] && attempts[n].error.None? {
      assert Truthful(world, maxRetries, attempts[n]);
      RecordingMeans(reserved, listings, world, input, targets[n], world.calls(n, attempts[n].count).usage, active);
    } else {
      var code := FinalCode(LastCode(attempts), attempts, fallback, |targets|);
      FailingMeans(reserved, world, input, Metering.ErrorStatus, HttpStatus(code), active);
    }
  }

  lemma ReservingMeans(db: Tables, world: World, policy: Policy, input: ChatInput, models: seq<Estimate.Model>, cost: Option<int>)
    requires Estimated(cost, input, models)
    ensures var r := ReserveEffect(db, world, policy, input, cost); ReservedRight(db, r.db, world, policy, input, models, r.active, r.ok)
  {
    if cost.Some? && cost.value > 0 {
      var asked := ReserveInput(input.request, input.org, input.apiKey, cost.value);
      var r := Ledger.Reserve(db, policy, asked, world.reservedAt);
      ReserveInserts(db, policy, asked, world.reservedAt);
      assert Reserving(db, r.0, r.1, world, policy, input, models, cost.value);
    }
  }

  lemma RecordingBills(db: Tables, listings: map<Id, Pricing.Listing>, world: World, input: ChatInput, target: Target,
                       usage: Usage, active: bool)
    requires Conserved(db) && Priceable(listings) && (active ==> input.request != NIL)
    ensures var (after, told) := RecordEffect(db, listings, world, input, target, usage, active);
            BilledRight(db, after, listings, world, input, target, usage, told)
  {
    RecordingMeans(db, listings, world, input, target, usage, active);
  }

  class ChatService {
    const store: ReservationService.Store
    const metering: Metering.Service
    const maxRetries: int

    constructor (metering: Metering.Service, maxRetries: int)
      ensures this.metering == metering && store == metering.store && this.maxRetries == maxRetries
    {
      this.metering, this.store, this.maxRetries := metering, metering.store, maxRetries;
    }

    ghost predicate Ready()
      reads store
    {
      metering.store == store && Conserved(store.View())
    }

    /** `reserveProviderCost`: whether a reservation is active, and whether the request may go on. */
    method ReserveProviderCost(world: World, policy: Policy, input: ChatInput, models: seq<Estimate.Model>)
      returns (active: bool, ok: bool, ghost cost: Option<int>)
      requires Ready()
      modifies store
      ensures Ready() && (active ==> ok) && store.costs == old(store.costs)
      ensures Inserted(old(store.View()), store.View(), input.request, Status.Reserved)
      ensures !active && world.reserve != AckLost ==> store.View().(logs := old(store.logs)) == old(store.View())
      ensures world.reserve == AckLost ==> !active && MaybeReserved(old(store.View()), store.View(), world, policy, input, models)
      ensures active ==> input.request != NIL && world.reserve == Works && store.logs == old(store.logs)
      ensures Estimated(cost, input, models)
      ensures Reservation(store.View(), active, ok) == ReserveEffect(old(store.View()), world, policy, input, cost)
      ensures ReservedRight(old(store.View()), store.View(), world, policy, input, models, active, ok)
    {
      ghost var db := store.View();
      var estimate := Estimate.EstimateReservationCost(input.messages, input.maxTokens, models);
      assert Estimated(estimate, input, models);
      ReservingMeans(db, world, policy, input, models, estimate);
      cost := estimate;
      if estimate.None? { return false, false, cost; }
      if estimate.value <= 0 { return false, true, cost; }
      if world.reserve == RollsBack { return false, false, cost; }
      var asked := ReserveInput(input.request, input.org, input.apiKey, estimate.value);
      ReserveInserts(db, policy, asked, world.reservedAt);
      var outcome := store.Reserve(policy, asked, world.reservedAt);
      if world.reserve == AckLost { return false, false, cost; }
      match outcome {
        case Error => return false, false, cost;
        case Allowed => return true, true, cost;
        case Blocked(_, _, _, _, _) =>
          var logged := LogFailure(Failed(world, input, Metering.BudgetBlocked, 402));
          return false, false, cost;
      }
    }

    /** `recordFailure`; its own outcome is not looked at. */
    method LogFailure(failure: Metering.FailureInput) returns (ok: bool)
      requires Ready()
      modifies store`logs
      ensures Ready() && store.View() == LoggedFailure(old(store.View()), failure)
    {
      ok := metering.RecordFailure(failure);
      assert forall k :: k in store.counters ==> Balanced(old(store.View()), k) && Balanced(store.View(), k);
    }

    /** RecordSuccess for a served request; `told` is what its caller hears, `charged` what was committed. */
    method Record(world: World, input: ChatInput, target: Target, usage: Usage)
      returns (told: Option<int>, ghost charged: Option<CostRecord>)
      requires Ready()
      modifies store
      ensures Ready()
      ensures charged.None? ==> store.View() == old(store.View())
      ensures charged.Some? ==> charged.value.request == input.request && Some(store.View()) == RecordCost(old(store.View()), charged.value)
      ensures told == if charged.Some? && world.record != AckLost then Some(charged.value.total) else None
      ensures var after := Metering.RecordSuccessTx(old(store.View()), metering.pricing.listings, Success(world, input, target, usage));
              charged == if world.record == RollsBack || after.None? then None
                         else Metering.Charge(metering.pricing.listings, Success(world, input, target, usage))
    {
      if world.record == RollsBack { return None, None; }
      var record := metering.RecordSuccess(Success(world, input, target, usage));
      charged := record;
      told := if record.Some? && world.record != AckLost then Some(record.value.total) else None;
    }

    /** The disposition of a reservation that was made in good order, by what is told to the caller. */
    ghost predicate Disposed(world: World, before: Tables, request: Id, told: Option<int>)
      reads store
    {
      if told.Some? then AllSettled(before, store.View(), request, told.value)
      else
        || AllReleased(before, store.View(), request)
        || (world.record == AckLost && exists cost :: AllSettled(before, store.View(), request, cost))
    }

    /** The outcome of a served request: record it, or give the reservation back. */
    method RecordOrRelease(world: World, input: ChatInput, target: Target, usage: Usage, active: bool, ghost before: Tables)
      returns (told: Option<int>)
      requires Ready()
      requires active ==> input.request != NIL && Inserted(before, store.View(), input.request, Status.Reserved)
      modifies store
      ensures Ready() && |store.rows| == |old(store.rows)|
      ensures active ==> Disposed(world, before, input.request, told)
      ensures (store.View(), told) == RecordEffect(old(store.View()), metering.pricing.listings, world, input, target, usage, active)
      ensures Priceable(metering.pricing.listings) ==>
                BilledRight(old(store.View()), store.View(), metering.pricing.listings, world, input, target, usage, told)
    {
      ghost var charged;
      ghost var reserved := store.View();
      told, charged := Record(world, input, target, usage);
      if active && charged.Some? { RecordSettles(before, reserved, charged.value); }
      if active && told.None? {
        ghost var now := store.View();
        if charged.Some? { ReleaseNothing(now, input.request); }
        else { ReleaseReleases(before, now, input.request); }
        var ok := store.Release(input.request);
      }
      if Priceable(metering.pricing.listings) {
        RecordingBills(reserved, metering.pricing.listings, world, input, target, usage, active);
      }
    }

    /** The outcome of a request no provider served: log it, and give the reservation back. */
    method FailAndRelease(failure: Metering.FailureInput, request: Id, active: bool, ghost before: Tables)
      requires Ready()
      requires active ==> request != NIL && Inserted(before, store.View(), request, Status.Reserved)
      modifies store
      ensures Ready() && |store.rows| == |old(store.rows)|
      ensures active ==> AllReleased(before, store.View(), request)
      ensures store.View() == ReleaseEffect(LoggedFailure(old(store.View()), failure), request, active)
    {
      var logged := LogFailure(failure);
      if active {
        ReleaseReleases(before, store.View(), request);
        var ok := store.Release(request);
      }
    }

    /** `Chat` after the reservation: the loop over the targets, and the record or the release. */
    method Serve(world: World, input: ChatInput, targets: seq<Target>, fallback: bool, active: bool, ghost before: Tables)
      returns (result: ChatResult, attempts: seq<Attempt>)
      requires Ready()
      requires active ==> input.request != NIL && Inserted(before, store.View(), input.request, Status.Reserved)
      modifies store
      ensures Ready() && |store.rows| == |old(store.rows)| && result != Refused
      ensures active ==> Disposed(world, before, input.request, if result.Answered? then Some(result.cost) else None)
      ensures TriedInOrder(attempts, fallback, |targets|)
      ensures forall i :: 0 <= i < |attempts| ==> Truthful(world, maxRetries, attempts[i])
      ensures AdapterCalls(world, attempts) <= MaxAttempts(maxRetries) * |attempts|
      ensures Concluded(old(store.View()), store.View(), metering.pricing.listings, world, input, targets, fallback, active, attempts, result)
      ensures Priceable(metering.pricing.listings) ==>
                ChatBilled(old(store.View()), store.View(), metering.pricing.listings, world, input, targets, attempts, result)
    {
      var served;
      served, attempts := TryTargets(world, |targets|, fallback, maxRetries);
      if served.NotServed? {
        var code := FinalCode(served.code, attempts, fallback, |targets|);
        FailAndRelease(Failed(world, input, Metering.ErrorStatus, HttpStatus(code)), input.request, active, before);
        return ProviderFailed(code), attempts;
      }
      var told := RecordOrRelease(world, input, targets[served.target], served.usage, active, before);
      result := if told.Some? then Answered(served.target, served.usage, told.value) else InternalError;
    }

    /**
     * `Chat`: whatever happens after the reservation, its rows end settled at the cost answered, if
     * the answer was recorded, or released; the only way to leave them reserved is to lose the
     * acknowledgement of the reservation itself.
     */
    method Chat(world: World, policy: Policy, input: ChatInput, targets: seq<Target>, fallback: bool)
      returns (result: ChatResult, active: bool, attempts: seq<Attempt>, ghost reserved: Tables, ghost cost: Option<int>)
      requires Ready()
      modifies store
      ensures Ready()
      ensures reserved.costs == old(store.costs)
      ensures Priceable(metering.pricing.listings) ==>
                ChatBilled(reserved, store.View(), metering.pricing.listings, world, input, targets, attempts, result)
      ensures active ==> Disposed(world, old(store.View()), input.request, if result.Answered? then Some(result.cost) else None)
      ensures !active && world.reserve != AckLost ==> |store.rows| == |old(store.rows)|
      ensures result.Refused? ==> Inserted(old(store.View()), store.View(), input.request, Status.Reserved)
      ensures result.Refused? && world.reserve == AckLost ==>
                MaybeReserved(old(store.View()), store.View(), world, policy, input, ModelsOf(targets))
      ensures TriedInOrder(attempts, fallback, |targets|)
      ensures forall i :: 0 <= i < |attempts| ==> Truthful(world, maxRetries, attempts[i])
      ensures result.Answered? ==>
                && result.target == |attempts| - 1
                && world.calls(result.target, attempts[result.target].count) == Response(result.usage)
      ensures AdapterCalls(world, attempts) <= MaxAttempts(maxRetries) * |attempts|
      ensures Estimated(cost, input, ModelsOf(targets))
      ensures Reservation(reserved, active, !result.Refused?) == ReserveEffect(old(store.View()), world, policy, input, cost)
      ensures result.Refused? ==> attempts == [] && store.View() == reserved
      ensures !result.Refused? ==>
                Concluded(reserved, store.View(), metering.pricing.listings, world, input, targets, fallback, active, attempts, result)
      ensures NothingLeft(old(store.View()), input.request) ==>
                LeftExactly(old(store.View()), store.View(), world, policy, input, cost)
    {
      attempts := [];
      var ok;
      active, ok, cost := ReserveProviderCost(world, policy, input, ModelsOf(targets));
      reserved := store.View();
      ghost var db := old(store.View());
      if !ok {
        if NothingLeft(db, input.request) { ReserveLeaves(db, world, policy, input, cost); }
        return Refused, active, attempts, reserved, cost;
      }
      result, attempts := Serve(world, input, targets, fallback, active, old(store.View()));
      if NothingLeft(db, input.request) {
        ReserveLeaves(db, world, policy, input, cost);
      }
      if NothingLeft(db, input.request) && !active {
        ConcludedLeaves(reserved, store.View(), metering.pricing.listings, world, input, targets, fallback, attempts, result);
      }
    }
  }

  // ----- Streams ----------------------------------------------------------------

  /** `ChatStreamResult`: the stream owns the reservation from here on. */
  datatype Stream = Stream(active: bool, input: ChatInput, target: Target)

  /** A stream that ended without usage is logged with the status its client has already got. */
  function StreamFailed(world: World, stream: Stream, streamError: Option<CallError>): Metering.FailureInput {
    Failed(world, stream.input, Metering.ErrorStatus, if streamError.Some? then HttpStatus(ErrorStatus(streamError.value)) else 200)
  }

  function NotOpened(world: World, input: ChatInput): Metering.FailureInput {
    var failure := if world.reachable(0) then world.calls(0, 1) else Failure(NO_CALL);
    Failed(world, input, Metering.ErrorStatus, if failure.Failure? then HttpStatus(ErrorStatus(failure.error)) else 200)
  }

  /** Ending a stream: a failed one, or one without usage, is released; any other is recorded. */
  ghost function FinalizeEffect(db: Tables, listings: map<Id, Pricing.Listing>, world: World, stream: Stream, usage: Option<Usage>,
                                streamError: Option<CallError>): (Tables, Option<int>) {
    if streamError.Some? || usage.None?
    then (ReleaseEffect(LoggedFailure(db, StreamFailed(world, stream, streamError)), stream.input.request, stream.active), None)
    else RecordEffect(db, listings, world, stream.input, stream.target, usage.value, stream.active)
  }

  /** What opening a stream does: reserve, and release again unless there is a stream to own the reservation. */
  ghost predicate Opened(db: Tables, after: Tables, world: World, policy: Policy, input: ChatInput, cost: Option<int>,
                         streams: bool, active: bool) {
    var r := ReserveEffect(db, world, policy, input, cost);
    && active == r.active && (streams <==> r.ok && world.reachable(0) && world.calls(0, 1).Response?)
    && after == if streams || !r.ok then r.db else ReleaseEffect(LoggedFailure(r.db, NotOpened(world, input)), input.request, r.active)
  }

  /** A stream that ended well with a usage is paid or given back; any other gives up. */
  ghost predicate FinalizedRight(before: Tables, after: Tables, listings: map<Id, Pricing.Listing>, world: World, stream: Stream,
                                 usage: Option<Usage>, streamError: Option<CallError>, told: Option<int>) {
    if streamError.None? && usage.Some?
    then PaidOrGivenBack(before, after, listings, world, stream.input, stream.target, usage.value, stream.active, told)
    else told == None && GaveUp(before, after, world, stream.input, stream.active)
  }

  /** A stream's cost records: the one its caller hears of, or none as long as the acknowledgement is not lost. */
  ghost predicate StreamBilled(before: Tables, after: Tables, listings: map<Id, Pricing.Listing>, world: World, input: ChatInput,
                               target: Target, usage: Option<Usage>, streamError: Option<CallError>, told: Option<int>) {
    && (told.Some? ==> streamError.None? && usage.Some? && world.record == Works
                       && BilledOnce(before, after, listings, world, input, target, usage.value, told.value))
    && (told.None? && world.record != AckLost ==> after.costs == before.costs)
  }

  lemma FinalizingMeans(db: Tables, listings: map<Id, Pricing.Listing>, world: World, stream: Stream, usage: Option<Usage>,
                        streamError: Option<CallError>)
    requires Conserved(db) && Priceable(listings) && (stream.active ==> stream.input.request != NIL)
    ensures var (after, told) := FinalizeEffect(db, listings, world, stream, usage, streamError);
            && FinalizedRight(db, after, listings, world, stream, usage, streamError, told)
            && StreamBilled(db, after, listings, world, stream.input, stream.target, usage, streamError, told)
  {
    if streamError.None? && usage.Some? {
      RecordingMeans(db, listings, world, stream.input, stream.target, usage.value, stream.active);
    } else {
      var failure := StreamFailed(world, stream, streamError);
      FailingMeans(db, world, stream.input, failure.status, failure.statusCode, stream.active);
    }
  }

  /** What opening a stream leaves: the reservation to the stream, or the failure logged and the reservation given back. */
  lemma OpeningMeans(db: Tables, after: Tables, world: World, policy: Policy, input: ChatInput, cost: Option<int>, streams: bool, active: bool)
    requires Opened(db, after, world, policy, input, cost, streams, active)
    requires Conserved(ReserveEffect(db, world, policy, input, cost).db) && (active ==> input.request != NIL)
    ensures var reserved := ReserveEffect(db, world, policy, input, cost);
            && (streams <==> reserved.ok && world.reachable(0) && world.calls(0, 1).Response?)
            && if streams || !reserved.ok then after == reserved.db else GaveUp(reserved.db, after, world, input, active)
  {
    var reserved, failure := ReserveEffect(db, world, policy, input, cost), NotOpened(world, input);
    FailingMeans(reserved.db, world, input, failure.status, failure.statusCode, active);
  }

  class StreamService {
    const chat: ChatService

    constructor (chat: ChatService)
      ensures this.chat == chat
    {
      this.chat := chat;
    }

    /** Opens a stream on the first resolved target; without a stream the reservation is released here. */
    method StreamChat(world: World, policy: Policy, input: ChatInput, target: Target)
      returns (stream: Option<Stream>, active: bool, ghost cost: Option<int>)
      requires chat.Ready()
      modifies chat.store
      ensures chat.Ready()
      ensures stream.Some? ==> stream.value == Stream(active, input, target)
      ensures stream.Some? && active ==>
                input.request != NIL && Inserted(old(chat.store.View()), chat.store.View(), input.request, Status.Reserved)
      ensures stream.None? && active ==> AllReleased(old(chat.store.View()), chat.store.View(), input.request)
      ensures !active && world.reserve != AckLost ==> |chat.store.rows| == |old(chat.store.rows)|
      ensures Estimated(cost, input, [target.model])
                && Opened(old(chat.store.View()), chat.store.View(), world, policy, input, cost, stream.Some?, active)
      ensures chat.store.costs == old(chat.store.costs)
    {
      var ok;
      active, ok, cost := chat.ReserveProviderCost(world, policy, input, [target.model]);
      if !ok { return None, active, cost; }
      var reservationTransferred := false;
      if world.reachable(0) && world.calls(0, 1).Response? {
        stream := Some(Stream(active, input, target));
        reservationTransferred := true;
      } else {
        stream := None;
        var logged := chat.LogFailure(NotOpened(world, input));
      }
      if active && !reservationTransferred {
        ReleaseReleases(old(chat.store.View()), chat.store.View(), input.request);
        var released := chat.store.Release(input.request);
      }
    }

    /** Ends a stream: an error or a missing usage releases the reservation, a usage settles it. */
    method FinalizeStream(world: World, stream: Stream, usage: Option<Usage>, streamError: Option<CallError>, ghost before: Tables)
      returns (told: Option<int>)
      requires chat.Ready()
      requires stream.active ==>
                 stream.input.request != NIL && Inserted(before, chat.store.View(), stream.input.request, Status.Reserved)
      modifies chat.store
      ensures chat.Ready() && |chat.store.rows| == |old(chat.store.rows)|
      ensures stream.active ==> chat.Disposed(world, before, stream.input.request, told)
      ensures (chat.store.View(), told) == FinalizeEffect(old(chat.store.View()), chat.metering.pricing.listings, world, stream, usage, streamError)
      ensures Priceable(chat.metering.pricing.listings) ==>
                && FinalizedRight(old(chat.store.View()), chat.store.View(), chat.metering.pricing.listings, world, stream, usage, streamError, told)
                && StreamBilled(old(chat.store.View()), chat.store.View(), chat.metering.pricing.listings, world, stream.input, stream.target,
                                usage, streamError, told)
    {
      if Priceable(chat.metering.pricing.listings) {
        FinalizingMeans(chat.store.View(), chat.metering.pricing.listings, world, stream, usage, streamError);
      }
      if streamError.Some? || usage.None? {
        chat.FailAndRelease(StreamFailed(world, stream, streamError), stream.input.request, stream.active, before);
        return None;
      }
      told := chat.RecordOrRelease(world, stream.input, stream.target, usage.value, stream.active, before);
    }

    /** StreamChat, followed by FinalizeStream if it returned a stream, disposes of the reservation once. */
    method StreamRequest(world: World, policy: Policy, input: ChatInput, target: Target,
                         usage: Option<Usage>, streamError: Option<CallError>)
      returns (told: Option<int>, active: bool, ghost cost: Option<int>)
      requires chat.Ready()
      modifies chat.store
      ensures chat.Ready()
      ensures active ==> chat.Disposed(world, old(chat.store.View()), input.request, told)
      ensures !active && world.reserve != AckLost ==> |chat.store.rows| == |old(chat.store.rows)|
      ensures Estimated(cost, input, [target.model])
      ensures NothingLeft(old(chat.store.View()), input.request) ==>
                LeftExactly(old(chat.store.View()), chat.store.View(), world, policy, input, cost)
      ensures Priceable(chat.metering.pricing.listings) ==>
                StreamBilled(old(chat.store.View()), chat.store.View(), chat.metering.pricing.listings, world, input, target,
                             usage, streamError, told)
    {
      var stream;
      stream, active, cost := StreamChat(world, policy, input, target);
      ghost var db, reserved := old(chat.store.View()), chat.store.View();
      if NothingLeft(db, input.request) { ReserveLeaves(db, world, policy, input, cost); }
      told := None;
      if stream.Some? {
        told := FinalizeStream(world, stream.value, usage, streamError, old(chat.store.View()));
      }
    }
  }

  /** The error code answered when no target served the request. */
  function FinalCode(last: Code, attempts: seq<Attempt>, fallback: bool, count: nat): Code {
    if fallback && attempts != [] && attempts[|attempts| - 1].retryable && |attempts| == count then ProviderUnavailable else last
  }

  // ----- A lost acknowledgement -----------------------------------------------------

  const NO_CALL: CallError := CallError(ProviderUnavailable, false, false)

  /** Everything fails, and the reservation's commit is reported as failed although it happened. */
  function LostAck(): World {
    World(_ => false, (_, _) => Failure(NO_CALL), (_, _) => false, NO_CALL, AckLost, Works, 0, 0, 0)
  }

  function OneWord(n: nat): ChatInput {
    ChatInput(1, EndToEnd.ORG, EndToEnd.ORG, "POST", "/", ["x"], Some(n))
  }

  /** In empty tables, under any limit: a request whose reservation is committed unnoticed leaves a live row for good. */
  lemma LostAckLeavesRow(limit: int) returns (policy: Policy, n: nat)
    requires 0 < limit < Metering.INT32_MAX - 1
    ensures Estimated(Some(n), OneWord(n), [EndToEnd.MODEL])
    ensures var r := ReserveEffect(Overspend.NOTHING, LostAck(), policy, OneWord(n), Some(n));
            !r.active && !r.ok && |r.db.rows| == 1 && Live(r.db.rows[0], OneWord(n).request)
    ensures NothingLeft(Overspend.NOTHING, OneWord(n).request) && LeavesRows(Overspend.NOTHING, LostAck(), policy, OneWord(n), Some(n))
  {
    n := limit + 1;
    policy := Overspend.OneOrgBudget(EndToEnd.ORG, EndToEnd.ORG, limit);
    EndToEnd.QuoteForIsQuoted(n);
    EndToEnd.CostIsTokens(n);
    var asked, c := ReserveInput(1, EndToEnd.ORG, EndToEnd.ORG, n), Constraint(OrgScope, EndToEnd.ORG, Daily, limit);
    Overspend.FirstReserve(asked, c, 0);
    assert Estimate.Expected(Some(n), 1, [EndToEnd.MODEL][0]).Costs?;
  }
}
