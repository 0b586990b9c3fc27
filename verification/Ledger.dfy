/**
 * The cost-reservation tables and what each committed transaction does to them.
 * `ReservationService` runs the same transactions statement by statement;
 * `Interleaving` runs them concurrently.
 */
module Ledger {
  import opened Base
  import opened Calendar

  // ----- Tables ---------------------------------------------------------------

  datatype Scope = OrgScope | KeyScope

  /** The UNIQUE key of `cost_limit_counters`. */
  datatype CounterKey = CounterKey(org: Id, scope: Scope, scopeId: Id, period: Period, windowStart: Time)

  /** A counter row; `seed` is the settled amount it was inserted with (history only). */
  datatype Counter = Counter(settled: int, reserved: int, windowEnd: Time, seed: int)

  datatype Status = Reserved | Settled | Released

  /** A row of `cost_reservations`. */
  datatype Row = Row(request: Id, apiKey: Id, counter: CounterKey, amount: int, settled: int, status: Status)

  /** A row of `cost_records` joined with its usage record. */
  datatype CostRecord = CostRecord(request: Id, org: Id, apiKey: Id, createdAt: Time, total: int)

  datatype Tables = Tables(
    counters: map<CounterKey, Counter>,
    rows: seq<Row>,
    costs: seq<CostRecord>,
    logs: set<Id>)  // primary keys of request_logs

  predicate Live(row: Row, request: Id) {
    row.request == request && row.status == Reserved
  }

  /** UNIQUE(request_id, scope_type, scope_id, period, window_start) clashes. */
  predicate SameSlot(a: Row, b: Row) {
    a.request == b.request && SameSlotKey(a.counter, b.counter)
  }

  predicate SameSlotKey(a: CounterKey, b: CounterKey) {
    a.scope == b.scope && a.scopeId == b.scopeId && a.period == b.period && a.windowStart == b.windowStart
  }

  // ----- Blocking constraints -------------------------------------------------

  datatype Budget = Budget(org: Id, period: Period, limit: int, active: bool, blocks: bool)
  datatype ApiKey = ApiKey(org: Id, daily: Option<int>, monthly: Option<int>, blocks: bool)
  datatype Policy = Policy(budgets: seq<Budget>, keys: map<Id, ApiKey>)
  datatype Constraint = Constraint(scope: Scope, scopeId: Id, period: Period, limit: int)

  predicate Blocking(b: Budget, org: Id, period: Period) {
    b.org == org && b.period == period && b.active && b.blocks
  }

  /** MIN(limit_micro_usd) over the organisation's active blocking budgets of one period. */
  function OrgLimit(budgets: seq<Budget>, org: Id, period: Period): Option<int> {
    if budgets == [] then None
    else
      var rest := OrgLimit(budgets[1..], org, period);
      var b := budgets[0];
      if !Blocking(b, org, period) then rest
      else if rest.None? || b.limit < rest.value then Some(b.limit)
      else rest
  }

  function Optional(scope: Scope, scopeId: Id, period: Period, limit: Option<int>): seq<Constraint> {
    if limit.None? then [] else [Constraint(scope, scopeId, period, limit.value)]
  }

  /** `loadBlockingConstraints`; None when the organisation has no such API key. */
  function LoadConstraints(policy: Policy, org: Id, apiKey: Id): Option<seq<Constraint>> {
    if apiKey !in policy.keys || policy.keys[apiKey].org != org then None
    else
      var key := policy.keys[apiKey];
      Some(Optional(OrgScope, org, Daily, OrgLimit(policy.budgets, org, Daily))
         + Optional(OrgScope, org, Monthly, OrgLimit(policy.budgets, org, Monthly))
         + (if key.blocks then Optional(KeyScope, apiKey, Daily, key.daily) + Optional(KeyScope, apiKey, Monthly, key.monthly) else []))
  }

  /** Position of a constraint in the order every Reserve follows. */
  function Rank(c: Constraint): nat {
    (if c.scope == OrgScope then 0 else 2) + (if c.period == Daily then 0 else 1)
  }

  // ----- Reserve --------------------------------------------------------------

  datatype ReserveInput = ReserveInput(request: Id, org: Id, apiKey: Id, estimate: int)

  datatype Outcome =
    | Allowed
    | Blocked(scope: Scope, period: Period, limit: int, used: int, reserved: int)
    | Error

  /** What an open Reserve has written so far: counters it inserted or updated, and rows it inserted. */
  datatype Delta =
    | Pending(writes: map<CounterKey, Counter>, rows: seq<Row>)
    | Stopped(outcome: Outcome)

  function KeyOf(org: Id, c: Constraint, now: Time): CounterKey {
    CounterKey(org, c.scope, c.scopeId, c.period, PeriodWindow(now, c.period).start)
  }

  /** Cost records that the seeding query of counter `k` adds up. */
  predicate InScope(cost: CostRecord, k: CounterKey, windowEnd: Time) {
    && cost.org == k.org
    && k.windowStart <= cost.createdAt < windowEnd
    && (k.scope == OrgScope || cost.apiKey == k.scopeId)
  }

  function LedgerSum(costs: seq<CostRecord>, k: CounterKey, windowEnd: Time): int {
    if costs == [] then 0
    else
      var n := |costs| - 1;
      LedgerSum(costs[..n], k, windowEnd) + if InScope(costs[n], k, windowEnd) then costs[n].total else 0
  }

  /** The counter row after INSERT ... ON CONFLICT DO NOTHING with this sum, as the open transaction sees it. */
  function Seeded(db: Tables, writes: map<CounterKey, Counter>, k: CounterKey, windowEnd: Time, sum: int): Counter {
    if k in writes then writes[k]
    else if k in db.counters then db.counters[k]
    else Counter(sum, 0, windowEnd, sum)
  }

  /** The same with the sum of the ledger as it is. */
  function Ensured(db: Tables, writes: map<CounterKey, Counter>, k: CounterKey, windowEnd: Time): Counter {
    Seeded(db, writes, k, windowEnd, LedgerSum(db.costs, k, windowEnd))
  }

  datatype Decision = Refuse(used: int) | Grant(amount: int)

  /** Lines 122-147 of the constraint loop, in Go's int64 arithmetic. */
  function Decide(counter: Counter, limit: int, estimate: int): Decision {
    var used := Wrap64(counter.settled + counter.reserved);
    var remaining := Wrap64(limit - used);
    if remaining <= 0 then Refuse(used)
    else if estimate <= remaining then Grant(estimate)
    else if used > 0 then Refuse(used)
    else Grant(remaining)
  }

  /** One turn of the constraint loop, once the sum for seeding the counter is known. */
  function AdmitStep(db: Tables, d: Delta, input: ReserveInput, c: Constraint, now: Time, sum: int): Delta
    requires d.Pending?
  {
    var k, windowEnd := KeyOf(input.org, c, now), PeriodWindow(now, c.period).end;
    var counter := Seeded(db, d.writes, k, windowEnd, sum);
    match Decide(counter, c.limit, input.estimate)
    case Refuse(used) => Stopped(Blocked(c.scope, c.period, c.limit, used, counter.reserved))
    case Grant(amount) =>
      if amount == 0 then Pending(d.writes[k := counter], d.rows)
      else if counter.reserved + amount > INT64_MAX then Stopped(Error)  // bigint out of range
      else
        var row := NewRow(input, k, amount);
        if Clashes(db.rows + d.rows, row) then Stopped(Error)            // unique violation
        else Pending(d.writes[k := Raised(counter, amount)], d.rows + [row])
  }

  /** One turn of the constraint loop. */
  function ReserveStep(db: Tables, d: Delta, input: ReserveInput, c: Constraint, now: Time): Delta
    requires d.Pending?
  {
    var sum := LedgerSum(db.costs, KeyOf(input.org, c, now), PeriodWindow(now, c.period).end);
    if sum > INT64_MAX then Stopped(Error)                               // SUM(...)::bigint out of range
    else AdmitStep(db, d, input, c, now, sum)
  }

  function NewRow(input: ReserveInput, k: CounterKey, amount: int): Row {
    Row(input.request, input.apiKey, k, amount, 0, Reserved)
  }

  function Raised(counter: Counter, amount: int): Counter {
    counter.(reserved := counter.reserved + amount)
  }

  predicate Clashes(rows: seq<Row>, row: Row) {
    exists i :: 0 <= i < |rows| && SameSlot(rows[i], row)
  }

  /** What a Reserve has written, or how it stopped, after its first `n` constraints. */
  function ReserveDelta(db: Tables, input: ReserveInput, cs: seq<Constraint>, now: Time, n: nat): Delta
    requires n <= |cs|
  {
    if n == 0 then Pending(map[], [])
    else
      var d := ReserveDelta(db, input, cs, now, n - 1);
      if d.Stopped? then d else ReserveStep(db, d, input, cs[n - 1], now)
  }

  /** A Reserve that has stopped does nothing more. */
  lemma {:induction false} StoppedStays(db: Tables, input: ReserveInput, cs: seq<Constraint>, now: Time, m: nat, n: nat)
    requires m <= n <= |cs| && ReserveDelta(db, input, cs, now, m).Stopped?
    ensures ReserveDelta(db, input, cs, now, n) == ReserveDelta(db, input, cs, now, m)
    decreases n
  {
    if m < n { StoppedStays(db, input, cs, now, m, n - 1); }
  }

  predicate AllLive(rows: seq<Row>, request: Id) {
    forall i :: 0 <= i < |rows| ==> Live(rows[i], request)
  }

  /** A Reserve inserts live rows, of its own request only. */
  lemma {:induction false} ReserveDeltaRows(db: Tables, input: ReserveInput, cs: seq<Constraint>, now: Time, n: nat)
    requires n <= |cs|
    ensures var d := ReserveDelta(db, input, cs, now, n);
            d.Pending? ==> AllLive(d.rows, input.request)
  {
    if n > 0 {
      ReserveDeltaRows(db, input, cs, now, n - 1);
      var d := ReserveDelta(db, input, cs, now, n - 1);
      if d.Pending? {
        assert ReserveDelta(db, input, cs, now, n) == ReserveStep(db, d, input, cs[n - 1], now);
        StepStaysLive(db, d, input, cs[n - 1], now);
      }
    }
  }

  lemma StepStaysLive(db: Tables, d: Delta, input: ReserveInput, c: Constraint, now: Time)
    requires d.Pending? && AllLive(d.rows, input.request)
    ensures var next := ReserveStep(db, d, input, c, now);
            next.Pending? ==> AllLive(next.rows, input.request)
  {
    var next := ReserveStep(db, d, input, c, now);
    if next.Pending? {
      StepRows(db, d, input, c, now);
      forall i | 0 <= i < |next.rows| ensures Live(next.rows[i], input.request) {
        if i < |d.rows| { assert next.rows[i] == d.rows[i]; }
      }
    }
  }

  /** One turn only appends, and only live rows of the request on the counter it locks. */
  lemma StepRows(db: Tables, d: Delta, input: ReserveInput, c: Constraint, now: Time)
    requires d.Pending? && ReserveStep(db, d, input, c, now).Pending?
    ensures var rows := ReserveStep(db, d, input, c, now).rows;
            && d.rows <= rows
            && (forall i :: |d.rows| <= i < |rows| ==> Live(rows[i], input.request))
            && (forall i :: |d.rows| <= i < |rows| ==> rows[i].counter == KeyOf(input.org, c, now))
  {
  }

  function Commit(db: Tables, d: Delta): Tables
    requires d.Pending?
  {
    db.(counters := db.counters + d.writes, rows := db.rows + d.rows)
  }

  /** The atomic effect of a Reserve whose constraints are already loaded. */
  function ReserveWith(db: Tables, input: ReserveInput, cs: seq<Constraint>, now: Time): (Tables, Outcome) {
    var d := ReserveDelta(db, input, cs, now, |cs|);
    if d.Stopped? then (db, d.outcome) else (Commit(db, d), Allowed)
  }

  predicate ValidInput(input: ReserveInput) {
    input.request != NIL && input.org != NIL && input.apiKey != NIL && input.estimate >= 0
  }

  function Reserve(db: Tables, policy: Policy, input: ReserveInput, now: Time): (Tables, Outcome) {
    if !ValidInput(input) then (db, Error)
    else
      var cs := LoadConstraints(policy, input.org, input.apiKey);
      if cs.None? then (db, Error) else ReserveWith(db, input, cs.value, now)
  }

  // ----- Settle and release ---------------------------------------------------

  datatype Finish = Settle(cost: int) | Release

  predicate HasLive(rows: seq<Row>, request: Id, k: CounterKey) {
    exists i :: 0 <= i < |rows| && Live(rows[i], request) && rows[i].counter == k
  }

  /** What the request still holds on a counter. */
  function Held(rows: seq<Row>, request: Id, k: CounterKey): int {
    if rows == [] then 0
    else
      var n := |rows| - 1;
      Held(rows[..n], request, k) + if Live(rows[n], request) && rows[n].counter == k then rows[n].amount else 0
  }

  /** The counter UPDATE, with its GREATEST(..., 0). */
  function FinishCounter(c: Counter, amount: int, how: Finish): Counter {
    c.(reserved := Max(c.reserved - amount, 0),
       settled := if how.Settle? then c.settled + how.cost else c.settled)
  }

  function FinishRow(row: Row, request: Id, how: Finish): Row {
    if !Live(row, request) then row
    else if how.Settle? then row.(status := Settled, settled := how.cost)
    else row.(status := Released)
  }

  function FinishRows(rows: seq<Row>, request: Id, how: Finish): (r: seq<Row>)
    ensures |r| == |rows|
    ensures forall i :: 0 <= i < |rows| ==> r[i] == FinishRow(rows[i], request, how)
  {
    if rows == [] then []
    else FinishRows(rows[..|rows| - 1], request, how) + [FinishRow(rows[|rows| - 1], request, how)]
  }

  function FinishCounters(db: Tables, request: Id, how: Finish): map<CounterKey, Counter> {
    map k | k in db.counters ::
      if HasLive(db.rows, request, k) then FinishCounter(db.counters[k], Held(db.rows, request, k), how)
      else db.counters[k]
  }

  /** settled_micro_usd + cost leaves the bigint range on some counter the request holds. */
  ghost predicate SettleOverflows(db: Tables, request: Id, how: Finish) {
    how.Settle? && exists k :: k in db.counters && HasLive(db.rows, request, k)
                            && db.counters[k].settled + how.cost > INT64_MAX
  }

  /** `SettleTx` and `ReleaseTx`; None is an error, after which the transaction is rolled back. */
  ghost function FinishTx(db: Tables, request: Id, how: Finish): Option<Tables> {
    if request == NIL || (how.Settle? && how.cost < 0) || SettleOverflows(db, request, how) then None
    else Some(db.(counters := FinishCounters(db, request, how), rows := FinishRows(db.rows, request, how)))
  }

  // ----- Metering -------------------------------------------------------------

  /** The writes of `RecordSuccess`: request log, cost record and settlement in one transaction. */
  ghost function RecordCost(db: Tables, record: CostRecord): Option<Tables> {
    if record.request in db.logs then None
    else FinishTx(db.(costs := db.costs + [record], logs := db.logs + {record.request}), record.request, Settle(record.total))
  }

  // ----- What the schema guarantees -------------------------------------------

  ghost predicate UniqueSlots(rows: seq<Row>) {
    forall i, j :: 0 <= i < j < |rows| ==> !SameSlot(rows[i], rows[j])
  }
}
