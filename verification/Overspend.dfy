/**
 * How far a counter can run past its limit. A Reserve that finds a counter unused
 * may be admitted with its amount capped to the limit; its settlement can then cost
 * the whole estimate. Nothing else overspends.
 */
module Overspend {
  import opened Base
  import opened Calendar
  import opened Ledger
  import opened Conservation

  /** The most the live reservations on `k` can still cost: their full estimates. */
  function Outstanding(rows: seq<Row>, k: CounterKey, est: Id -> int): int {
    if rows == [] then 0
    else
      var n := |rows| - 1;
      Outstanding(rows[..n], k, est) + if rows[n].status == Reserved && rows[n].counter == k then est(rows[n].request) else 0
  }

  predicate LiveOn(row: Row, k: CounterKey) {
    row.status == Reserved && row.counter == k
  }

  /** A live row reserves its estimate, unless it was capped: then it is the only claim on its counter. */
  ghost predicate Exact(db: Tables, k: CounterKey, limit: int, est: Id -> int)
    requires k in db.counters
  {
    forall i :: 0 <= i < |db.rows| && LiveOn(db.rows[i], k) ==>
      var row, c := db.rows[i], db.counters[k];
      && row.amount <= est(row.request)
      && (row.amount < est(row.request) ==> c.settled == 0 && c.reserved == row.amount == limit)
  }

  ghost predicate Bounded(db: Tables, k: CounterKey, limit: int, est: Id -> int, bound: int) {
    k in db.counters ==>
      Exact(db, k, limit, est) && db.counters[k].settled + Outstanding(db.rows, k, est) <= bound
  }

  // ----- Outstanding sums -----------------------------------------------------

  lemma OutstandingAppend(rows: seq<Row>, row: Row, k: CounterKey, est: Id -> int)
    ensures Outstanding(rows + [row], k, est) == Outstanding(rows, k, est) + if LiveOn(row, k) then est(row.request) else 0
  {
    assert (rows + [row])[..|rows|] == rows;
  }

  lemma {:induction false} OutstandingCovers(rows: seq<Row>, k: CounterKey, est: Id -> int)
    requires forall i :: 0 <= i < |rows| && LiveOn(rows[i], k) ==> rows[i].amount <= est(rows[i].request)
    ensures LiveSum(rows, k) <= Outstanding(rows, k, est)
    ensures (forall i :: 0 <= i < |rows| && LiveOn(rows[i], k) ==> rows[i].amount == est(rows[i].request))
            ==> LiveSum(rows, k) == Outstanding(rows, k, est)
  {
    if rows != [] {
      var n := |rows| - 1;
      assert forall i :: 0 <= i < n ==> rows[..n][i] == rows[i];
      OutstandingCovers(rows[..n], k, est);
    }
  }

  lemma {:induction false} OutstandingEmpty(rows: seq<Row>, k: CounterKey, est: Id -> int)
    requires forall i :: 0 <= i < |rows| ==> !LiveOn(rows[i], k)
    ensures Outstanding(rows, k, est) == 0
  {
    if rows != [] { OutstandingEmpty(rows[..|rows| - 1], k, est); }
  }

  lemma {:induction false} OutstandingFinish(rows: seq<Row>, request: Id, how: Finish, k: CounterKey, est: Id -> int)
    requires UniqueSlots(rows)
    ensures Outstanding(FinishRows(rows, request, how), k, est)
         == Outstanding(rows, k, est) - if HasLive(rows, request, k) then est(request) else 0
  {
    if rows != [] {
      var n := |rows| - 1;
      OutstandingFinish(rows[..n], request, how, k, est);
      OutstandingAppend(FinishRows(rows[..n], request, how), FinishRow(rows[n], request, how), k, est);
      LiveInHeadOrLast(rows, request, k);
    }
  }

  /** A reservation that takes all of a positive live sum is the only live one. */
  lemma {:induction false} OnlyClaim(rows: seq<Row>, k: CounterKey, i: nat, j: nat)
    requires AmountsPositive(rows)
    requires i < |rows| && LiveOn(rows[i], k) && LiveSum(rows, k) == rows[i].amount
    requires j < |rows| && LiveOn(rows[j], k)
    ensures j == i
  {
    var n := |rows| - 1;
    SumsNonNegative(rows[..n], k);
    if i < n {
      PositiveWithin(rows[..n], k, i);
      assert !LiveOn(rows[n], k);
      OnlyClaim(rows[..n], k, i, j);
    }
  }

  lemma {:induction false} PositiveWithin(rows: seq<Row>, k: CounterKey, i: nat)
    requires AmountsPositive(rows) && i < |rows| && LiveOn(rows[i], k)
    ensures rows[i].amount <= LiveSum(rows, k)
  {
    var n := |rows| - 1;
    SumsNonNegative(rows[..n], k);
    if i < n { PositiveWithin(rows[..n], k, i); }
  }

  // ----- One Reserve step -----------------------------------------------------

  /** Nobody else gets in beside a capped reservation, so an admitted one finds only exact ones. */
  lemma AdmissionBounded(db: Tables, k: CounterKey, limit: int, est: Id -> int, bound: int, estimate: int)
    requires Conserved(db) && Bounded(db, k, limit, est, bound) && k in db.counters
    requires 0 <= limit <= bound <= INT64_MAX && 0 <= estimate
    requires Decide(db.counters[k], limit, estimate).Grant?
    ensures var c, amount := db.counters[k], Decide(db.counters[k], limit, estimate).amount;
            && amount <= estimate
            && (amount == estimate ==> c.settled + Outstanding(db.rows, k, est) + estimate <= limit)
            && (amount < estimate ==> c.settled == 0 && c.reserved == 0 && amount == limit && Outstanding(db.rows, k, est) == 0)
            && forall i :: 0 <= i < |db.rows| && LiveOn(db.rows[i], k) ==>
                 amount == estimate && db.rows[i].amount == est(db.rows[i].request)
  {
    var c := db.counters[k];
    assert Balanced(db, k);
    OutstandingCovers(db.rows, k, est);
    SumsNonNegative(db.rows, k);
    var used := c.settled + c.reserved;
    assert 0 <= used <= INT64_MAX;
    forall i | 0 <= i < |db.rows| && LiveOn(db.rows[i], k) ensures db.rows[i].amount == est(db.rows[i].request) {}
    if Decide(c, limit, estimate).amount < estimate {
      assert used == 0;
      OutstandingEmpty(db.rows, k, est);
    }
  }

  /** Going from `db` to `after` creates `k`, if at all, and caps on `k`, if at all, within the bound. */
  ghost predicate EntersWithin(db: Tables, after: Tables, k: CounterKey, estimate: int, bound: int) {
    && (k in after.counters ==> after.counters[k].seed <= bound)
    && CappedEstimate(db, after, k, estimate) <= bound
  }

  /** Going from `db` to `after` inserted a row on `k` for less than the estimate. */
  ghost predicate Capped(db: Tables, after: Tables, k: CounterKey, estimate: int) {
    exists i :: |db.rows| <= i < |after.rows| && LiveOn(after.rows[i], k) && after.rows[i].amount < estimate
  }

  /** The estimate, if it was capped on `k`; 0 otherwise. */
  ghost function CappedEstimate(db: Tables, after: Tables, k: CounterKey, estimate: int): int {
    if Capped(db, after, k, estimate) then estimate else 0
  }

  lemma EnsureBounded(db: Tables, key: CounterKey, windowEnd: Time, k: CounterKey, limit: int, est: Id -> int, bound: int)
    requires Conserved(db) && Bounded(db, k, limit, est, bound)
    requires var c := Ensured(db, map[], key, windowEnd); key == k ==> c.seed <= bound
    ensures Bounded(db.(counters := db.counters[key := Ensured(db, map[], key, windowEnd)]), k, limit, est, bound)
  {
    if key == k && k !in db.counters { OutstandingEmpty(db.rows, k, est); }
  }

  lemma AddRowBounded(db: Tables, row: Row, k: CounterKey, limit: int, est: Id -> int, bound: int, applied: int)
    requires Conserved(db) && Bounded(db, k, limit, est, bound)
    requires 0 <= limit <= bound <= INT64_MAX && 0 <= est(row.request)
    requires row.counter in db.counters && row.status == Reserved
    requires Decide(db.counters[row.counter], applied, est(row.request)) == Grant(row.amount)
    requires row.counter == k ==> applied == limit
    requires row.counter == k && row.amount < est(row.request) ==> est(row.request) <= bound
    ensures Bounded(WithRow(db, row), k, limit, est, bound)
  {
    if row.counter == k {
      AddHereBounded(db, row, k, limit, est, bound);
    } else {
      OutstandingAppend(db.rows, row, k, est);
    }
  }

  lemma AddHereBounded(db: Tables, row: Row, k: CounterKey, limit: int, est: Id -> int, bound: int)
    requires Conserved(db) && Bounded(db, k, limit, est, bound)
    requires 0 <= limit <= bound <= INT64_MAX && 0 <= est(row.request)
    requires row.counter == k && k in db.counters && row.status == Reserved
    requires Decide(db.counters[k], limit, est(row.request)) == Grant(row.amount)
    requires row.amount < est(row.request) ==> est(row.request) <= bound
    ensures Bounded(WithRow(db, row), k, limit, est, bound)
  {
    AdmissionBounded(db, k, limit, est, bound, est(row.request));
    OutstandingAppend(db.rows, row, k, est);
    AddHereExact(db, row, k, limit, est);
  }

  /** Beside an exact new row all others are exact; beside a capped one there are none. */
  lemma AddHereExact(db: Tables, row: Row, k: CounterKey, limit: int, est: Id -> int)
    requires row.counter == k && k in db.counters && row.status == Reserved && row.amount <= est(row.request)
    requires forall i :: 0 <= i < |db.rows| && LiveOn(db.rows[i], k) ==>
               row.amount == est(row.request) && db.rows[i].amount == est(db.rows[i].request)
    requires row.amount < est(row.request) ==> db.counters[k].settled == 0 && db.counters[k].reserved == 0 && row.amount == limit
    ensures Exact(WithRow(db, row), k, limit, est)
  {
    var after := WithRow(db, row);
    forall i | 0 <= i < |after.rows| && LiveOn(after.rows[i], k)
      ensures after.rows[i].amount <= est(after.rows[i].request)
      ensures after.rows[i].amount < est(after.rows[i].request) ==> after.rows[i] == row
    {
      if i < |db.rows| { assert after.rows[i] == db.rows[i]; }
    }
  }

  lemma ReserveStepBounded(start: Tables, db: Tables, d: Delta, input: ReserveInput, c: Constraint, now: Time,
                           k: CounterKey, limit: int, est: Id -> int, bound: int)
    requires d.Pending? && ReserveStep(db, d, input, c, now).Pending? && |start.rows| <= |Commit(db, d).rows|
    requires Conserved(Commit(db, d)) && Bounded(Commit(db, d), k, limit, est, bound)
    requires 0 <= limit <= bound <= INT64_MAX && input.estimate == est(input.request) >= 0
    requires KeyOf(input.org, c, now) == k ==> c.limit == limit
    requires EntersWithin(start, Commit(db, ReserveStep(db, d, input, c, now)), k, input.estimate, bound)
    ensures Bounded(Commit(db, ReserveStep(db, d, input, c, now)), k, limit, est, bound)
  {
    ReserveStepShape(db, d, input, c, now);
    var key, windowEnd := KeyOf(input.org, c, now), PeriodWindow(now, c.period).end;
    var before, after := Commit(db, d), Commit(db, ReserveStep(db, d, input, c, now));
    StepBounded(start, before, after, input, c, key, windowEnd, k, limit, est, bound);
  }

  lemma StepBounded(start: Tables, before: Tables, after: Tables, input: ReserveInput, c: Constraint,
                    key: CounterKey, windowEnd: Time, k: CounterKey, limit: int, est: Id -> int, bound: int)
    requires Conserved(before) && Bounded(before, k, limit, est, bound) && |start.rows| <= |before.rows|
    requires 0 <= limit <= bound <= INT64_MAX && input.estimate == est(input.request) >= 0
    requires key == k ==> c.limit == limit
    requires LedgerSum(before.costs, key, windowEnd) <= INT64_MAX
    requires EntersWithin(start, after, k, input.estimate, bound)
    requires var counter := Ensured(before, map[], key, windowEnd);
             var ensured := before.(counters := before.counters[key := counter]);
             var decision := Decide(counter, c.limit, input.estimate);
             && decision.Grant?
             && (decision.amount == 0 ==> after == ensured)
             && (decision.amount != 0 ==> after == WithRow(ensured, NewRow(input, key, decision.amount)))
    ensures Bounded(after, k, limit, est, bound)
  {
    var counter := Ensured(before, map[], key, windowEnd);
    var ensured := before.(counters := before.counters[key := counter]);
    var amount := Decide(counter, c.limit, input.estimate).amount;
    assert after.counters[key].seed == counter.seed;
    EnsureConserves(before, key, windowEnd);
    EnsureBounded(before, key, windowEnd, k, limit, est, bound);
    if amount != 0 {
      var row := NewRow(input, key, amount);
      assert after.rows[|before.rows|] == row;
      AddRowBounded(ensured, row, k, limit, est, bound, c.limit);
    }
  }

  // ----- A whole Reserve ------------------------------------------------------

  lemma DeltaGrows(db: Tables, d: Delta, input: ReserveInput, c: Constraint, now: Time)
    requires d.Pending? && ReserveStep(db, d, input, c, now).Pending?
    ensures d.rows <= ReserveStep(db, d, input, c, now).rows
    ensures forall k :: k in d.writes ==>
              var writes := ReserveStep(db, d, input, c, now).writes;
              k in writes && writes[k].seed == d.writes[k].seed
  {
  }

  /** The limit a Reserve applies to `k`, if it applies one at all, is `limit`. */
  ghost predicate LimitIs(org: Id, cs: seq<Constraint>, now: Time, k: CounterKey, limit: int) {
    forall i :: 0 <= i < |cs| && KeyOf(org, cs[i], now) == k ==> cs[i].limit == limit
  }

  /** Whether the Reserve goes through, creating and capping `k` within the bound, judged after `n` constraints. */
  ghost predicate Enters(db: Tables, input: ReserveInput, cs: seq<Constraint>, now: Time, n: nat, k: CounterKey, bound: int)
    requires n <= |cs|
  {
    var d := ReserveDelta(db, input, cs, now, n);
    d.Pending? && EntersWithin(db, Commit(db, d), k, input.estimate, bound)
  }

  /** What is known after `n` constraints was already so one constraint earlier. */
  lemma PrefixEnters(db: Tables, input: ReserveInput, cs: seq<Constraint>, now: Time, n: nat, k: CounterKey, bound: int)
    requires 0 < n <= |cs| && 0 <= bound && Enters(db, input, cs, now, n, k, bound)
    ensures Enters(db, input, cs, now, n - 1, k, bound)
  {
    var d, d' := ReserveDelta(db, input, cs, now, n - 1), ReserveDelta(db, input, cs, now, n);
    DeltaGrows(db, d, input, cs[n - 1], now);
    var before, after := Commit(db, d), Commit(db, d');
    if k in db.counters {
      SeedKept(db, input, cs, now, n - 1, k);
      SeedKept(db, input, cs, now, n, k);
    }
    if i :| |db.rows| <= i < |before.rows| && LiveOn(before.rows[i], k) && before.rows[i].amount < input.estimate {
      assert after.rows[i] == before.rows[i];
    }
  }

  lemma CommitNothing(db: Tables)
    ensures Commit(db, Pending(map[], [])) == db
  {
  }

  lemma {:induction false} ReserveDeltaBounded(db: Tables, input: ReserveInput, cs: seq<Constraint>, now: Time, n: nat,
                                               k: CounterKey, limit: int, est: Id -> int, bound: int)
    requires Conserved(db) && Bounded(db, k, limit, est, bound) && n <= |cs|
    requires 0 <= limit <= bound <= INT64_MAX && input.estimate == est(input.request) >= 0
    requires LimitIs(input.org, cs, now, k, limit)
    requires Enters(db, input, cs, now, n, k, bound)
    ensures Bounded(Commit(db, ReserveDelta(db, input, cs, now, n)), k, limit, est, bound)
  {
    if n == 0 {
      CommitNothing(db);
    } else {
      PrefixEnters(db, input, cs, now, n, k, bound);
      ReserveDeltaBounded(db, input, cs, now, n - 1, k, limit, est, bound);
      ReserveDeltaConserves(db, input, cs, now, n - 1);
      TurnBounded(db, ReserveDelta(db, input, cs, now, n - 1), ReserveDelta(db, input, cs, now, n), input, cs[n - 1], now, k, limit, est, bound);
    }
  }

  lemma TurnBounded(db: Tables, d: Delta, next: Delta, input: ReserveInput, c: Constraint, now: Time,
                    k: CounterKey, limit: int, est: Id -> int, bound: int)
    requires d.Pending? && next.Pending? && next == ReserveStep(db, d, input, c, now)
    requires Conserved(Commit(db, d)) && Bounded(Commit(db, d), k, limit, est, bound)
    requires 0 <= limit <= bound <= INT64_MAX && input.estimate == est(input.request) >= 0
    requires KeyOf(input.org, c, now) == k ==> c.limit == limit
    requires EntersWithin(db, Commit(db, next), k, input.estimate, bound)
    ensures Bounded(Commit(db, next), k, limit, est, bound)
  {
    ReserveStepBounded(db, db, d, input, c, now, k, limit, est, bound);
  }

  // ----- Runs -----------------------------------------------------------------

  /** The largest estimate the run admitted on `k` through the cap; 0 if there was none. */
  ghost function LargestCapped(db: Tables, es: seq<Event>, k: CounterKey): int {
    if es == [] then 0
    else
      var n := |es| - 1;
      Max(LargestCapped(db, es[..n], k),
          if es[n].Admit? then CappedEstimate(Run(db, es[..n]), Run(db, es), k, es[n].input.estimate) else 0)
  }

  ghost predicate Inserts(before: Tables, after: Tables, k: CounterKey) {
    exists i :: |before.rows| <= i < |after.rows| && after.rows[i].counter == k
  }

  /**
   * What each request's reservation on `k` was estimated at, by the Reserve that inserted it. Other
   * Reserves may use the same id with other estimates.
   */
  ghost function Estimates(db: Tables, es: seq<Event>, k: CounterKey): Id -> int {
    if es == [] then (_: Id) => 0
    else
      var n := |es| - 1;
      NextEstimates(Estimates(db, es[..n], k), Run(db, es[..n]), Run(db, es), es[n], k)
  }

  ghost function NextEstimates(est: Id -> int, before: Tables, after: Tables, e: Event, k: CounterKey): Id -> int {
    if e.Admit? && Inserts(before, after, k) then Estimating(est, e.input) else est
  }

  ghost function Estimating(est: Id -> int, input: ReserveInput): Id -> int {
    (r: Id) => if r == input.request then input.estimate else est(r)
  }

  /** Every Reserve in the run that constrains `k` does so with the same limit. */
  ghost predicate FixedLimit(e: Event, k: CounterKey, limit: int) {
    e.Admit? ==>
      var cs := LoadConstraints(e.policy, e.input.org, e.input.apiKey);
      cs.Some? ==> LimitIs(e.input.org, cs.value, e.now, k, limit)
  }

  /** Estimates are int64, and no settlement on `k` costs more than its reservation was estimated at. */
  ghost predicate WithinEstimate(db: Tables, est: Id -> int, e: Event, k: CounterKey) {
    match e
    case Admit(_, input, _) => input.estimate <= INT64_MAX
    case Meter(record) => HasLive(db.rows, record.request, k) ==> record.total <= est(record.request)
    case Close(request, how) => how.Settle? && HasLive(db.rows, request, k) ==> how.cost <= est(request)
    case LogFailure(_) => true
  }

  /** A run in which `k` is only ever limited to `limit`, and settlements stay within estimates. */
  ghost predicate Honest(db: Tables, es: seq<Event>, k: CounterKey, limit: int) {
    forall i :: 0 <= i < |es| ==>
      WellTyped(es[i]) && FixedLimit(es[i], k, limit) && WithinEstimate(Run(db, es[..i]), Estimates(db, es[..i], k), es[i], k)
  }

  /** Beside a live row of the request being finished, every other live row is exact. */
  lemma OthersExact(db: Tables, k: CounterKey, limit: int, est: Id -> int, i: nat, j: nat)
    requires Conserved(db) && k in db.counters && Exact(db, k, limit, est)
    requires i < |db.rows| && LiveOn(db.rows[i], k) && j < |db.rows| && LiveOn(db.rows[j], k) && i != j
    ensures db.rows[j].amount == est(db.rows[j].request)
  {
    assert Balanced(db, k);
    if db.rows[j].amount < est(db.rows[j].request) { OnlyClaim(db.rows, k, j, i); }
  }

  lemma FinishExact(db: Tables, request: Id, how: Finish, k: CounterKey, limit: int, est: Id -> int)
    requires Conserved(db) && k in db.counters && Exact(db, k, limit, est) && FinishTx(db, request, how).Some?
    ensures Exact(FinishTx(db, request, how).value, k, limit, est)
  {
    var after := FinishTx(db, request, how).value;
    forall j | 0 <= j < |after.rows| && LiveOn(after.rows[j], k)
      ensures after.rows[j] == db.rows[j]
      ensures HasLive(db.rows, request, k) ==> db.rows[j].amount == est(db.rows[j].request)
    {
      if HasLive(db.rows, request, k) {
        var i :| 0 <= i < |db.rows| && Live(db.rows[i], request) && db.rows[i].counter == k;
        OthersExact(db, k, limit, est, i, j);
      }
    }
  }

  lemma FinishBounded(db: Tables, request: Id, how: Finish, k: CounterKey, limit: int, est: Id -> int, bound: int)
    requires Conserved(db) && Bounded(db, k, limit, est, bound)
    requires how.Settle? && HasLive(db.rows, request, k) ==> how.cost <= est(request)
    ensures var r := FinishTx(db, request, how); r.Some? ==> Bounded(r.value, k, limit, est, bound)
  {
    if FinishTx(db, request, how).Some? && k in db.counters {
      FinishExact(db, request, how, k, limit, est);
      OutstandingFinish(db.rows, request, how, k, est);
      if HasLive(db.rows, request, k) {
        var i :| 0 <= i < |db.rows| && Live(db.rows[i], request) && db.rows[i].counter == k;
        assert 0 < db.rows[i].amount <= est(request);
      }
    }
  }

  // ----- Estimates from run to run ----------------------------------------------

  /** Only the estimates of live rows on `k` matter. */
  lemma {:induction false} OutstandingSame(rows: seq<Row>, k: CounterKey, est: Id -> int, est': Id -> int)
    requires forall i :: 0 <= i < |rows| && LiveOn(rows[i], k) ==> est(rows[i].request) == est'(rows[i].request)
    ensures Outstanding(rows, k, est) == Outstanding(rows, k, est')
  {
    if rows != [] { OutstandingSame(rows[..|rows| - 1], k, est, est'); }
  }

  lemma BoundedSame(db: Tables, k: CounterKey, limit: int, est: Id -> int, est': Id -> int, bound: int)
    requires Bounded(db, k, limit, est, bound)
    requires forall i :: 0 <= i < |db.rows| && LiveOn(db.rows[i], k) ==> est(db.rows[i].request) == est'(db.rows[i].request)
    ensures Bounded(db, k, limit, est', bound)
  {
    OutstandingSame(db.rows, k, est, est');
  }

  lemma {:induction false} OutstandingElsewhere(rows: seq<Row>, more: seq<Row>, k: CounterKey, est: Id -> int)
    requires forall i :: 0 <= i < |more| ==> more[i].counter != k
    ensures Outstanding(rows + more, k, est) == Outstanding(rows, k, est)
  {
    if more == [] {
      assert rows + more == rows;
    } else {
      var n := |more| - 1;
      OutstandingElsewhere(rows, more[..n], k, est);
      OutstandingAppend(rows + more[..n], more[n], k, est);
      assert rows + more == rows + more[..n] + [more[n]];
    }
  }

  /** A Reserve that inserts no row on an existing counter leaves the counter as it is. */
  lemma {:induction false} DeltaUntouched(db: Tables, input: ReserveInput, cs: seq<Constraint>, now: Time, n: nat, k: CounterKey)
    requires n <= |cs| && k in db.counters && ReserveDelta(db, input, cs, now, n).Pending?
    requires forall i :: 0 <= i < |ReserveDelta(db, input, cs, now, n).rows| ==> ReserveDelta(db, input, cs, now, n).rows[i].counter != k
    ensures k in ReserveDelta(db, input, cs, now, n).writes ==> ReserveDelta(db, input, cs, now, n).writes[k] == db.counters[k]
  {
    if n > 0 {
      var d := ReserveDelta(db, input, cs, now, n - 1);
      StepUntouched(db, d, input, cs[n - 1], now, k);
      DeltaUntouched(db, input, cs, now, n - 1, k);
    }
  }

  lemma StepUntouched(db: Tables, d: Delta, input: ReserveInput, c: Constraint, now: Time, k: CounterKey)
    requires d.Pending? && k in db.counters && ReserveStep(db, d, input, c, now).Pending?
    requires forall i :: 0 <= i < |ReserveStep(db, d, input, c, now).rows| ==> ReserveStep(db, d, input, c, now).rows[i].counter != k
    ensures forall i :: 0 <= i < |d.rows| ==> d.rows[i].counter != k
    ensures var next := ReserveStep(db, d, input, c, now);
            k in next.writes ==> next.writes[k] == if k in d.writes then d.writes[k] else db.counters[k]
  {
    var next := ReserveStep(db, d, input, c, now);
    StepRows(db, d, input, c, now);
    assert forall i :: 0 <= i < |d.rows| ==> d.rows[i] == next.rows[i];
    assert |next.rows| > |d.rows| ==> next.rows[|d.rows|].counter == KeyOf(input.org, c, now);
  }

  lemma UntouchedBounded(db: Tables, d: Delta, k: CounterKey, limit: int, est: Id -> int, bound: int)
    requires Conserved(db) && Bounded(db, k, limit, est, bound) && d.Pending? && Conserved(Commit(db, d))
    requires forall i :: 0 <= i < |d.rows| ==> d.rows[i].counter != k
    requires k in db.counters && k in d.writes ==> d.writes[k] == db.counters[k]
    requires k in Commit(db, d).counters ==> Commit(db, d).counters[k].seed <= bound
    ensures Bounded(Commit(db, d), k, limit, est, bound)
  {
    var after := Commit(db, d);
    OutstandingElsewhere(db.rows, d.rows, k, est);
    assert forall i :: 0 <= i < |after.rows| && LiveOn(after.rows[i], k) ==> i < |db.rows| && after.rows[i] == db.rows[i];
    if k in after.counters && k !in db.counters {
      forall i | 0 <= i < |after.rows| ensures after.rows[i].counter != k {
        if i < |db.rows| { assert db.rows[i].counter in db.counters; }
      }
      assert Balanced(after, k);
      NoRowsNoSums(after.rows, k);
      OutstandingEmpty(after.rows, k, est);
    }
  }

  /** A request that gets a row on `k` had none before, so no other reservation's estimate changes. */
  lemma InsertedIsNew(db: Tables, rows: seq<Row>, request: Id, k: CounterKey, j: nat)
    requires UniqueSlots(db.rows + rows) && AllLive(rows, request)
    requires exists i :: 0 <= i < |rows| && rows[i].counter == k
    requires j < |db.rows| && LiveOn(db.rows[j], k)
    ensures db.rows[j].request != request
  {
    var i :| 0 <= i < |rows| && rows[i].counter == k;
    var all := db.rows + rows;
    assert all[j] == db.rows[j] && all[|db.rows| + i] == rows[i] && Live(rows[i], request);
    assert !SameSlot(all[j], all[|db.rows| + i]);
  }

  lemma AdmitBounded(db: Tables, input: ReserveInput, cs: seq<Constraint>, now: Time,
                     k: CounterKey, limit: int, est: Id -> int, bound: int)
    requires Conserved(db) && Bounded(db, k, limit, est, bound) && ReserveDelta(db, input, cs, now, |cs|).Pending?
    requires 0 <= limit <= bound <= INT64_MAX && 0 <= input.estimate && LimitIs(input.org, cs, now, k, limit)
    requires Enters(db, input, cs, now, |cs|, k, bound)
    ensures var after := Commit(db, ReserveDelta(db, input, cs, now, |cs|));
            Bounded(after, k, limit, if Inserts(db, after, k) then Estimating(est, input) else est, bound)
  {
    ReserveDeltaConserves(db, input, cs, now, |cs|);
    if Inserts(db, Commit(db, ReserveDelta(db, input, cs, now, |cs|)), k) {
      InsertingBounded(db, input, cs, now, k, limit, est, bound);
    } else {
      ElsewhereBounded(db, input, cs, now, k, limit, est, bound);
    }
  }

  lemma InsertingBounded(db: Tables, input: ReserveInput, cs: seq<Constraint>, now: Time,
                         k: CounterKey, limit: int, est: Id -> int, bound: int)
    requires Conserved(db) && Bounded(db, k, limit, est, bound) && ReserveDelta(db, input, cs, now, |cs|).Pending?
    requires 0 <= limit <= bound <= INT64_MAX && 0 <= input.estimate && LimitIs(input.org, cs, now, k, limit)
    requires Enters(db, input, cs, now, |cs|, k, bound)
    requires Conserved(Commit(db, ReserveDelta(db, input, cs, now, |cs|)))
    requires Inserts(db, Commit(db, ReserveDelta(db, input, cs, now, |cs|)), k)
    ensures Bounded(Commit(db, ReserveDelta(db, input, cs, now, |cs|)), k, limit, Estimating(est, input), bound)
  {
    ReserveDeltaRows(db, input, cs, now, |cs|);
    OthersEstimated(db, ReserveDelta(db, input, cs, now, |cs|), input, k, est);
    BoundedSame(db, k, limit, est, Estimating(est, input), bound);
    ReserveDeltaBounded(db, input, cs, now, |cs|, k, limit, Estimating(est, input), bound);
  }

  lemma OthersEstimated(db: Tables, d: Delta, input: ReserveInput, k: CounterKey, est: Id -> int)
    requires d.Pending? && AllLive(d.rows, input.request) && UniqueSlots(db.rows + d.rows)
    requires Inserts(db, Commit(db, d), k)
    ensures forall j :: 0 <= j < |db.rows| && LiveOn(db.rows[j], k) ==> est(db.rows[j].request) == Estimating(est, input)(db.rows[j].request)
  {
    var i :| |db.rows| <= i < |Commit(db, d).rows| && Commit(db, d).rows[i].counter == k;
    assert d.rows[i - |db.rows|].counter == k;
    forall j | 0 <= j < |db.rows| && LiveOn(db.rows[j], k) ensures db.rows[j].request != input.request {
      InsertedIsNew(db, d.rows, input.request, k, j);
    }
  }

  lemma ElsewhereBounded(db: Tables, input: ReserveInput, cs: seq<Constraint>, now: Time,
                         k: CounterKey, limit: int, est: Id -> int, bound: int)
    requires Conserved(db) && Bounded(db, k, limit, est, bound) && ReserveDelta(db, input, cs, now, |cs|).Pending?
    requires Enters(db, input, cs, now, |cs|, k, bound)
    requires Conserved(Commit(db, ReserveDelta(db, input, cs, now, |cs|)))
    requires !Inserts(db, Commit(db, ReserveDelta(db, input, cs, now, |cs|)), k)
    ensures Bounded(Commit(db, ReserveDelta(db, input, cs, now, |cs|)), k, limit, est, bound)
  {
    var d := ReserveDelta(db, input, cs, now, |cs|);
    forall i | 0 <= i < |d.rows| ensures d.rows[i].counter != k { assert Commit(db, d).rows[|db.rows| + i] == d.rows[i]; }
    if k in db.counters { DeltaUntouched(db, input, cs, now, |cs|, k); }
    UntouchedBounded(db, d, k, limit, est, bound);
  }

  lemma ApplyBounded(db: Tables, e: Event, k: CounterKey, limit: int, est: Id -> int, bound: int)
    requires Conserved(db) && Bounded(db, k, limit, est, bound) && WellTyped(e)
    requires FixedLimit(e, k, limit) && WithinEstimate(db, est, e, k)
    requires 0 <= limit <= bound <= INT64_MAX
    requires e.Admit? ==> EntersWithin(db, Apply(db, e), k, e.input.estimate, bound)
    ensures Bounded(Apply(db, e), k, limit, NextEstimates(est, db, Apply(db, e), e, k), bound)
  {
    match e
    case Admit(policy, input, now) =>
      var cs := LoadConstraints(policy, input.org, input.apiKey);
      if ValidInput(input) && cs.Some? && ReserveDelta(db, input, cs.value, now, |cs.value|).Pending? {
        AdmitBounded(db, input, cs.value, now, k, limit, est, bound);
      }
    case Close(request, how) => FinishBounded(db, request, how, k, limit, est, bound);
    case LogFailure(request) =>
    case Meter(record) => MeterBounded(db, record, k, limit, est, bound);
  }

  lemma MeterBounded(db: Tables, record: CostRecord, k: CounterKey, limit: int, est: Id -> int, bound: int)
    requires Conserved(db) && Bounded(db, k, limit, est, bound) && record.total >= 0
    requires HasLive(db.rows, record.request, k) ==> record.total <= est(record.request)
    ensures Bounded(Apply(db, Meter(record)), k, limit, est, bound)
  {
    var logged := db.(costs := db.costs + [record], logs := db.logs + {record.request});
    assert Conserved(logged) by {
      assert forall q :: q in db.counters ==> Balanced(db, q) && Balanced(logged, q);
    }
    FinishBounded(logged, record.request, Settle(record.total), k, limit, est, bound);
  }

  /** Counters stay, with the seed they were created with. */
  lemma SeedsStay(db: Tables, e: Event, k: CounterKey)
    requires k in db.counters && WellTyped(e) && Conserved(db)
    ensures k in Apply(db, e).counters && Apply(db, e).counters[k].seed == db.counters[k].seed
  {
    if e.Admit? {
      var cs := LoadConstraints(e.policy, e.input.org, e.input.apiKey);
      if ValidInput(e.input) && cs.Some? { SeedKept(db, e.input, cs.value, e.now, |cs.value|, k); }
    }
  }

  lemma {:induction false} SeedKept(db: Tables, input: ReserveInput, cs: seq<Constraint>, now: Time, n: nat, k: CounterKey)
    requires k in db.counters && n <= |cs|
    ensures var d := ReserveDelta(db, input, cs, now, n);
            d.Pending? && k in d.writes ==> d.writes[k].seed == db.counters[k].seed
  {
    if n > 0 { SeedKept(db, input, cs, now, n - 1, k); }
  }

  ghost predicate Empty(db: Tables) {
    db.counters == map[] && db.rows == [] && forall i :: 0 <= i < |db.costs| ==> db.costs[i].total >= 0
  }

  lemma HonestPrefix(db: Tables, es: seq<Event>, k: CounterKey, limit: int, n: nat)
    requires Honest(db, es, k, limit) && n <= |es|
    ensures Honest(db, es[..n], k, limit)
  {
    forall i | 0 <= i < n
      ensures var e := es[..n][i];
              WellTyped(e) && FixedLimit(e, k, limit) && WithinEstimate(Run(db, es[..n][..i]), Estimates(db, es[..n][..i], k), e, k)
    {
      assert es[..n][..i] == es[..i];
    }
  }

  lemma {:induction false} RunBounded(db: Tables, es: seq<Event>, k: CounterKey, limit: int, bound: int)
    requires Empty(db) && 0 <= limit <= bound <= INT64_MAX && Honest(db, es, k, limit)
    requires k in Run(db, es).counters ==> Run(db, es).counters[k].seed <= bound
    requires LargestCapped(db, es, k) <= bound
    ensures Conserved(Run(db, es)) && Bounded(Run(db, es), k, limit, Estimates(db, es, k), bound)
  {
    RunConserves(db, es);
    if es != [] {
      var n := |es| - 1;
      HonestPrefix(db, es, k, limit, n);
      RunConserves(db, es[..n]);
      if k in Run(db, es[..n]).counters { SeedsStay(Run(db, es[..n]), es[n], k); }
      RunBounded(db, es[..n], k, limit, bound);
      ApplyBounded(Run(db, es[..n]), es[n], k, limit, Estimates(db, es[..n], k), bound);
    }
  }

  lemma LargestCappedIsInt64(db: Tables, es: seq<Event>, k: CounterKey, limit: int)
    requires Honest(db, es, k, limit)
    ensures 0 <= LargestCapped(db, es, k) <= INT64_MAX
  {
    forall i | 0 <= i < |es| && es[i].Admit? ensures es[i].input.estimate <= INT64_MAX {
      assert WithinEstimate(Run(db, es[..i]), Estimates(db, es[..i], k), es[i], k);
    }
    LargestOfInt64(db, es, k);
  }

  lemma {:induction false} LargestOfInt64(db: Tables, es: seq<Event>, k: CounterKey)
    requires forall i :: 0 <= i < |es| && es[i].Admit? ==> es[i].input.estimate <= INT64_MAX
    ensures 0 <= LargestCapped(db, es, k) <= INT64_MAX
  {
    if es != [] { LargestOfInt64(db, es[..|es| - 1], k); }
  }

  /** What is settled on `k`, and what the reservations outstanding on it can still cost. */
  ghost function Exposure(db: Tables, es: seq<Event>, k: CounterKey): int
    requires k in Run(db, es).counters
  {
    Run(db, es).counters[k].settled + Outstanding(Run(db, es).rows, k, Estimates(db, es, k))
  }

  /**
   * Starting from empty tables, whatever the run: settled plus reserved, and even settled plus
   * everything still outstanding, stays within the limit, the seed, or the largest estimate
   * that was admitted through the cap.
   */
  lemma OverspendBound(db: Tables, es: seq<Event>, k: CounterKey, limit: int)
    requires Empty(db) && 0 <= limit <= INT64_MAX && Honest(db, es, k, limit)
    requires k in Run(db, es).counters
    ensures var c := Run(db, es).counters[k];
            c.settled + c.reserved <= Exposure(db, es, k) <= Max(Max(limit, c.seed), LargestCapped(db, es, k))
  {
    var after := Run(db, es);
    RunConserves(db, es);
    LargestCappedIsInt64(db, es, k, limit);
    assert Balanced(after, k);
    SumsNonNegative(after.rows, k);
    RunBounded(db, es, k, limit, Max(Max(limit, after.counters[k].seed), LargestCapped(db, es, k)));
    OutstandingCovers(after.rows, k, Estimates(db, es, k));
  }

  // ----- Exactly when the limit holds ---------------------------------------------

  /** The `i`th step of the run admitted a request on `k` through the cap. */
  ghost predicate CappedAt(db: Tables, es: seq<Event>, k: CounterKey, i: nat)
    requires i < |es|
  {
    es[i].Admit? && Capped(Run(db, es[..i]), Run(db, es[..i + 1]), k, es[i].input.estimate)
  }

  ghost predicate Within(db: Tables, es: seq<Event>, k: CounterKey, limit: int) {
    k in Run(db, es).counters ==> Exposure(db, es, k) <= limit
  }

  lemma {:induction false} NoneCapped(db: Tables, es: seq<Event>, k: CounterKey)
    requires forall i :: 0 <= i < |es| ==> !CappedAt(db, es, k, i)
    ensures LargestCapped(db, es, k) == 0
  {
    if es != [] {
      var n := |es| - 1;
      forall i | 0 <= i < n ensures !CappedAt(db, es[..n], k, i) {
        assert es[..n][..i] == es[..i] && es[..n][..i + 1] == es[..i + 1];
        assert !CappedAt(db, es, k, i);
      }
      NoneCapped(db, es[..n], k);
      assert !CappedAt(db, es, k, n) && es[..n + 1] == es;
    }
  }

  lemma {:induction false} OutstandingAtLeast(rows: seq<Row>, k: CounterKey, est: Id -> int, i: nat)
    requires AmountsPositive(rows) && i < |rows| && LiveOn(rows[i], k)
    requires forall j :: 0 <= j < |rows| && LiveOn(rows[j], k) ==> rows[j].amount <= est(rows[j].request)
    ensures Outstanding(rows, k, est) >= est(rows[i].request)
  {
    var n := |rows| - 1;
    OutstandingCovers(rows[..n], k, est);
    SumsNonNegative(rows[..n], k);
    if i < n { OutstandingAtLeast(rows[..n], k, est, i); }
  }

  /** A live reservation below its estimate takes the whole limit, so its estimate exceeds the limit. */
  lemma CappedRowExceeds(db: Tables, k: CounterKey, limit: int, est: Id -> int, i: nat)
    requires Conserved(db) && k in db.counters && Exact(db, k, limit, est)
    requires i < |db.rows| && LiveOn(db.rows[i], k) && db.rows[i].amount < est(db.rows[i].request)
    ensures db.counters[k].settled + Outstanding(db.rows, k, est) > limit
  {
    assert Balanced(db, k);
    OutstandingAtLeast(db.rows, k, est, i);
  }

  /** As soon as a request has been admitted through the cap, the exposure exceeds the limit. */
  lemma CapExceeds(db: Tables, es: seq<Event>, k: CounterKey, limit: int)
    requires Empty(db) && 0 <= limit <= INT64_MAX && Honest(db, es, k, limit) && es != [] && es[|es| - 1].Admit?
    requires Capped(Run(db, es[..|es| - 1]), Run(db, es), k, es[|es| - 1].input.estimate)
    ensures k in Run(db, es).counters && Exposure(db, es, k) > limit
  {
    var before, after := Run(db, es[..|es| - 1]), Run(db, es);
    var i :| |before.rows| <= i < |after.rows| && LiveOn(after.rows[i], k) && after.rows[i].amount < es[|es| - 1].input.estimate;
    RunConserves(db, es);
    assert after.rows[i].counter in after.counters;
    RunExact(db, es, k, limit);
    InsertedBy(db, es, k, i);
    CappedRowExceeds(after, k, limit, Estimates(db, es, k), i);
  }

  lemma RunExact(db: Tables, es: seq<Event>, k: CounterKey, limit: int)
    requires Empty(db) && 0 <= limit <= INT64_MAX && Honest(db, es, k, limit) && k in Run(db, es).counters
    ensures Exact(Run(db, es), k, limit, Estimates(db, es, k))
  {
    RunConserves(db, es);
    LargestCappedIsInt64(db, es, k, limit);
    assert Balanced(Run(db, es), k);
    SumsNonNegative(Run(db, es).rows, k);
    RunBounded(db, es, k, limit, Max(Max(limit, Run(db, es).counters[k].seed), LargestCapped(db, es, k)));
  }

  /** The estimate of a row that the last step of a run inserted is that step's. */
  lemma InsertedBy(db: Tables, es: seq<Event>, k: CounterKey, i: nat)
    requires es != [] && es[|es| - 1].Admit?
    requires |Run(db, es[..|es| - 1]).rows| <= i < |Run(db, es).rows| && Run(db, es).rows[i].counter == k
    ensures Estimates(db, es, k)(Run(db, es).rows[i].request) == es[|es| - 1].input.estimate
  {
    var before, e := Run(db, es[..|es| - 1]), es[|es| - 1];
    AppliedRow(before, e, i);
    assert Inserts(before, Run(db, es), k);
  }

  /** Whatever a Reserve inserts is for its own request. */
  lemma AppliedRow(before: Tables, e: Event, i: nat)
    requires e.Admit? && |before.rows| <= i < |Apply(before, e).rows|
    ensures Apply(before, e).rows[i].request == e.input.request
  {
    var cs := LoadConstraints(e.policy, e.input.org, e.input.apiKey).value;
    ReserveDeltaRows(before, e.input, cs, e.now, |cs|);
    var d := ReserveDelta(before, e.input, cs, e.now, |cs|);
    assert Apply(before, e).rows[i] == d.rows[i - |before.rows|] && Live(d.rows[i - |before.rows|], e.input.request);
  }

  /**
   * With a seed within the limit, the limit holds throughout the run, whatever the outstanding
   * requests will cost, if and only if no request was admitted through the cap.
   */
  lemma LimitHoldsExactly(db: Tables, es: seq<Event>, k: CounterKey, limit: int)
    requires Empty(db) && 0 <= limit <= INT64_MAX && Honest(db, es, k, limit)
    requires k in Run(db, es).counters ==> Run(db, es).counters[k].seed <= limit
    ensures (forall n :: 0 <= n <= |es| ==> Within(db, es[..n], k, limit)) <==> (forall i :: 0 <= i < |es| ==> !CappedAt(db, es, k, i))
  {
    if forall i :: 0 <= i < |es| ==> !CappedAt(db, es, k, i) {
      forall n | 0 <= n <= |es| ensures Within(db, es[..n], k, limit) { UncappedWithin(db, es, k, limit, n); }
    } else {
      var i :| 0 <= i < |es| && CappedAt(db, es, k, i);
      CappedBreaks(db, es, k, limit, i);
    }
  }

  lemma CappedBreaks(db: Tables, es: seq<Event>, k: CounterKey, limit: int, i: nat)
    requires Empty(db) && 0 <= limit <= INT64_MAX && Honest(db, es, k, limit) && i < |es| && CappedAt(db, es, k, i)
    ensures !Within(db, es[..i + 1], k, limit)
  {
    HonestPrefix(db, es, k, limit, i + 1);
    assert es[..i + 1][..i] == es[..i];
    CapExceeds(db, es[..i + 1], k, limit);
  }

  lemma UncappedWithin(db: Tables, es: seq<Event>, k: CounterKey, limit: int, n: nat)
    requires Empty(db) && 0 <= limit <= INT64_MAX && Honest(db, es, k, limit) && n <= |es|
    requires k in Run(db, es).counters ==> Run(db, es).counters[k].seed <= limit
    requires forall i :: 0 <= i < |es| ==> !CappedAt(db, es, k, i)
    ensures Within(db, es[..n], k, limit)
  {
    if k in Run(db, es[..n]).counters {
      HonestPrefix(db, es, k, limit, n);
      forall i | 0 <= i < n ensures !CappedAt(db, es[..n], k, i) {
        assert es[..n][..i] == es[..i] && es[..n][..i + 1] == es[..i + 1];
        assert !CappedAt(db, es, k, i);
      }
      NoneCapped(db, es[..n], k);
      SeedOfPrefix(db, es, k, n);
      OverspendBound(db, es[..n], k, limit);
    }
  }

  lemma {:induction false} SeedOfPrefix(db: Tables, es: seq<Event>, k: CounterKey, n: nat)
    requires Conserved(db) && n <= |es| && k in Run(db, es[..n]).counters
    requires forall i :: 0 <= i < |es| ==> WellTyped(es[i])
    ensures k in Run(db, es).counters && Run(db, es).counters[k].seed == Run(db, es[..n]).counters[k].seed
  {
    if n == |es| {
      assert es[..n] == es;
    } else {
      var m := |es| - 1;
      assert es[..m][..n] == es[..n];
      SeedOfPrefix(db, es[..m], k, n);
      RunConserves(db, es[..m]);
      SeedsStay(Run(db, es[..m]), es[m], k);
    }
  }

  // ----- The cap really overshoots --------------------------------------------

  const NOTHING: Tables := Tables(map[], [], [], {})

  lemma OneOrgBudget(org: Id, apiKey: Id, limit: int) returns (policy: Policy)
    ensures LoadConstraints(policy, org, apiKey) == Some([Constraint(OrgScope, org, Daily, limit)])
  {
    policy := Policy([Budget(org, Daily, limit, true, true)], map[apiKey := ApiKey(org, None, None, false)]);
    assert policy.budgets[1..] == [];
    assert OrgLimit([], org, Daily) == None && OrgLimit([], org, Monthly) == None;
    assert OrgLimit(policy.budgets, org, Daily) == Some(limit);
    assert OrgLimit(policy.budgets, org, Monthly) == None;
    assert [Constraint(OrgScope, org, Daily, limit)] + [] + [] == [Constraint(OrgScope, org, Daily, limit)];
  }

  lemma FirstReserve(input: ReserveInput, c: Constraint, now: Time)
    requires ValidInput(input) && 0 < c.limit < input.estimate && c.limit <= INT64_MAX
    ensures var k := KeyOf(input.org, c, now);
            var counter := Counter(0, c.limit, PeriodWindow(now, c.period).end, 0);
            ReserveDelta(NOTHING, input, [c], now, 1) == Pending(map[k := counter], [NewRow(input, k, c.limit)])
  {
    var none: Delta, k := Pending(map[], []), KeyOf(input.org, c, now);
    var row := NewRow(input, k, c.limit);
    assert ReserveDelta(NOTHING, input, [c], now, 0) == none;
    var blank := Counter(0, 0, PeriodWindow(now, c.period).end, 0);
    assert Ensured(NOTHING, none.writes, k, PeriodWindow(now, c.period).end) == blank;
    assert Decide(blank, c.limit, input.estimate) == Grant(c.limit);
    assert !Clashes(NOTHING.rows + none.rows, row);
    assert none.rows + [row] == [row];
    assert none.writes[k := Raised(blank, c.limit)] == map[k := Raised(blank, c.limit)];
    assert ReserveStep(NOTHING, none, input, c, now) == Pending(map[k := Raised(blank, c.limit)], [row]);
    assert [c][0] == c;
  }

  lemma FirstSettle(db: Tables, k: CounterKey, row: Row, cost: int)
    requires db.rows == [row] && row.counter == k && row.status == Reserved && row.request != NIL
    requires k in db.counters && db.counters[k].settled == 0 && 0 <= cost <= INT64_MAX
    requires db.counters.Keys == {k}
    ensures var r := FinishTx(db, row.request, Settle(cost));
            r.Some? && k in r.value.counters && r.value.counters[k].settled == cost
  {
    assert Live(db.rows[0], row.request);
  }

  /**
   * The cap term of the bound is needed, and is reached: under any positive limit, a first request
   * with a larger estimate is admitted and may settle all of it.
   */
  lemma CapOvershoots(org: Id, limit: int, estimate: int, request: Id, now: Time) returns (es: seq<Event>, k: CounterKey)
    requires org != NIL && request != NIL && 0 < limit < estimate <= INT64_MAX
    ensures Empty(NOTHING)
    ensures Honest(NOTHING, es, k, limit)
    ensures k in Run(NOTHING, es).counters && Run(NOTHING, es).counters[k].settled == estimate > limit
  {
    var policy := OneOrgBudget(org, org, limit);
    var c, input := Constraint(OrgScope, org, Daily, limit), ReserveInput(request, org, org, estimate);
    k := KeyOf(org, c, now);
    var reserve, settle := Admit(policy, input, now), Close(request, Settle(estimate));
    es := [reserve, settle];
    assert es[..1] == [reserve] && [reserve][..0] == [];
    var db := Run(NOTHING, [reserve]);
    assert db == Apply(Run(NOTHING, []), reserve) == Reserve(NOTHING, policy, input, now).0;
    FirstReserve(input, c, now);
    var row := NewRow(input, k, limit);
    assert db == Commit(NOTHING, Pending(map[k := Counter(0, limit, PeriodWindow(now, Daily).end, 0)], [row]));
    assert db.rows == [row];
    FirstSettle(db, k, row, estimate);
  }
}
