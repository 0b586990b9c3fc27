/**
 * The reservation service statement by statement. Each method is one transaction of
 * `internal/limits/reservation_service.go`, proved to have the effect `Ledger` specifies.
 */
module ReservationService {
  import opened Base
  import opened Calendar
  import opened Ledger
  import opened Constraints
  import opened Conservation
  import opened Admission

  const NO_WRITES: Delta := Pending(map[], [])

  /** A step taken on what the transaction sees is a step taken on the tables with its writes pending. */
  lemma StepOnView(db: Tables, d: Delta, input: ReserveInput, c: Constraint, now: Time)
    requires d.Pending?
    ensures var step, view := ReserveStep(db, d, input, c, now), ReserveStep(Commit(db, d), NO_WRITES, input, c, now);
            && (step.Stopped? <==> view.Stopped?)
            && (step.Stopped? ==> step == view)
            && (step.Pending? ==> step == Pending(d.writes + view.writes, d.rows + view.rows))
  {
    var view := Commit(db, d);
    assert view.rows + [] == db.rows + d.rows;
  }

  /** One turn of the loop takes the transaction from its `i`th view to the next, or stops it for good. */
  lemma TurnOnView(db: Tables, input: ReserveInput, cs: seq<Constraint>, now: Time, i: nat, d: Delta)
    requires i < |cs| && d.Pending? && d == ReserveDelta(db, input, cs, now, i)
    ensures var step, next := ReserveStep(Commit(db, d), NO_WRITES, input, cs[i], now), ReserveDelta(db, input, cs, now, i + 1);
            && (step.Stopped? ==> ReserveDelta(db, input, cs, now, |cs|) == step)
            && (step.Pending? ==> next.Pending? && Commit(Commit(db, d), step) == Commit(db, next))
  {
    StepOnView(db, d, input, cs[i], now);
    var step := ReserveStep(Commit(db, d), NO_WRITES, input, cs[i], now);
    assert ReserveDelta(db, input, cs, now, i + 1) == ReserveStep(db, d, input, cs[i], now);
    if step.Stopped? { StoppedStays(db, input, cs, now, i + 1, |cs|); }
    else { CommitTwice(db, d, step); }
  }

  lemma CommitTwice(db: Tables, d: Delta, e: Delta)
    requires d.Pending? && e.Pending?
    ensures Commit(Commit(db, d), e) == Commit(db, Pending(d.writes + e.writes, d.rows + e.rows))
  {
    assert (db.counters + d.writes) + e.writes == db.counters + (d.writes + e.writes);
    assert (db.rows + d.rows) + e.rows == db.rows + (d.rows + e.rows);
  }

  /** SELECT period, MIN(limit) ... GROUP BY period ORDER BY period. */
  function StrictestBudgets(budgets: seq<Budget>, org: Id): seq<(Period, int)> {
    var daily, monthly := OrgLimit(budgets, org, Daily), OrgLimit(budgets, org, Monthly);
    (if daily.Some? then [(Daily, daily.value)] else []) + (if monthly.Some? then [(Monthly, monthly.value)] else [])
  }

  class Store {
    var counters: map<CounterKey, Counter>
    var rows: seq<Row>
    var costs: seq<CostRecord>
    var logs: set<Id>

    constructor (costs: seq<CostRecord>, logs: set<Id>)
      ensures View() == Tables(map[], [], costs, logs)
    {
      this.counters, this.rows, this.costs, this.logs := map[], [], costs, logs;
    }

    /** The committed tables between transactions; what the open one sees inside a transaction. */
    function View(): Tables
      reads this
    {
      Tables(counters, rows, costs, logs)
    }

    /** The organisation's blocking budgets, then the key's own limits. */
    method LoadBlockingConstraints(policy: Policy, org: Id, apiKey: Id) returns (items: Option<seq<Constraint>>)
      ensures items == LoadConstraints(policy, org, apiKey)
    {
      var loaded := [];
      var rows := StrictestBudgets(policy.budgets, org);
      for i := 0 to |rows|
        invariant |loaded| == i
        invariant forall j :: 0 <= j < i ==> loaded[j] == Constraint(OrgScope, org, rows[j].0, rows[j].1)
      {
        loaded := loaded + [Constraint(OrgScope, org, rows[i].0, rows[i].1)];
      }
      assert loaded == Optional(OrgScope, org, Daily, OrgLimit(policy.budgets, org, Daily))
                     + Optional(OrgScope, org, Monthly, OrgLimit(policy.budgets, org, Monthly));
      if apiKey !in policy.keys || policy.keys[apiKey].org != org { return None; }
      var key := policy.keys[apiKey];
      ghost var ofOrg := loaded;
      if key.blocks {
        if key.daily.Some? { loaded := loaded + [Constraint(KeyScope, apiKey, Daily, key.daily.value)]; }
        if key.monthly.Some? { loaded := loaded + [Constraint(KeyScope, apiKey, Monthly, key.monthly.value)]; }
      }
      assert loaded == ofOrg + if key.blocks then Optional(KeyScope, apiKey, Daily, key.daily) + Optional(KeyScope, apiKey, Monthly, key.monthly) else [];
      items := Some(loaded);
    }

    /** INSERT ... ON CONFLICT DO NOTHING, then SELECT ... FOR UPDATE; None when the seed is out of range. */
    method EnsureAndLockCounter(k: CounterKey, windowEnd: Time) returns (state: Option<Counter>)
      modifies this`counters
      ensures state.None? <==> LedgerSum(costs, k, windowEnd) > INT64_MAX
      ensures state.None? ==> counters == old(counters)
      ensures state.Some? && k in old(counters) ==> state.value == old(counters)[k]
      ensures state.Some? && k !in old(counters) ==>
                state.value == Counter(LedgerSum(costs, k, windowEnd), 0, windowEnd, LedgerSum(costs, k, windowEnd))
      ensures state.Some? ==> counters == old(counters)[k := state.value]
    {
      var seed := LedgerSum(costs, k, windowEnd);
      if seed > INT64_MAX { return None; }
      if k !in counters {
        counters := counters[k := Counter(seed, 0, windowEnd, seed)];
      }
      state := Some(counters[k]);
    }

    /** The body of the constraint loop; None to go on to the next constraint. */
    method AdmitOne(input: ReserveInput, c: Constraint, now: Time) returns (stop: Option<Outcome>)
      modifies this`counters, this`rows
      ensures var step := ReserveStep(old(View()), NO_WRITES, input, c, now);
              && (stop.Some? ==> step == Stopped(stop.value))
              && (stop.None? ==> step.Pending? && View() == Commit(old(View()), step))
    {
      var k, windowEnd := KeyOf(input.org, c, now), PeriodWindow(now, c.period).end;
      var state := EnsureAndLockCounter(k, windowEnd);
      if state.None? { return Some(Error); }
      var used := Wrap64(state.value.settled + state.value.reserved);
      var remaining := Wrap64(c.limit - used);
      if remaining <= 0 {
        return Some(Blocked(c.scope, c.period, c.limit, used, state.value.reserved));
      }
      var amount := input.estimate;
      if amount > remaining {
        if used > 0 {
          return Some(Blocked(c.scope, c.period, c.limit, used, state.value.reserved));
        }
        amount := remaining;
      }
      if amount == 0 {
        return None;
      }
      if counters[k].reserved + amount > INT64_MAX { return Some(Error); }
      counters := counters[k := Raised(counters[k], amount)];
      var row := NewRow(input, k, amount);
      assert old(rows) + [] == rows;
      if exists i :: 0 <= i < |rows| && SameSlot(rows[i], row) { return Some(Error); }
      rows := rows + [row];
      stop := None;
    }

    /** Walks the constraints in order; any refusal or error rolls back whatever was written. */
    method AdmitAll(input: ReserveInput, cs: seq<Constraint>, now: Time) returns (outcome: Outcome)
      modifies this`counters, this`rows
      ensures (View(), outcome) == ReserveWith(old(View()), input, cs, now)
    {
      var savedCounters, savedRows := counters, rows;
      ghost var db, d := View(), NO_WRITES;
      for i := 0 to |cs|
        invariant d == ReserveDelta(db, input, cs, now, i) && d.Pending?
        invariant View() == Commit(db, d)
        invariant savedCounters == db.counters && savedRows == db.rows
      {
        TurnOnView(db, input, cs, now, i, d);
        var stop := AdmitOne(input, cs[i], now);
        if stop.Some? {
          counters, rows := savedCounters, savedRows;
          return stop.value;
        }
        d := ReserveDelta(db, input, cs, now, i + 1);
      }
      outcome := Allowed;
    }

    /** Checks the input, loads the constraints and walks them in one transaction. */
    method Reserve(policy: Policy, input: ReserveInput, now: Time) returns (outcome: Outcome)
      modifies this`counters, this`rows
      ensures (View(), outcome) == Ledger.Reserve(old(View()), policy, input, now)
      ensures outcome != Allowed ==> View() == old(View())
      ensures Answered(old(View()), View(), outcome, policy, input, now)
      ensures Conserved(old(View())) ==> Conserved(View())
    {
      if Conserved(View()) { ReserveConserves(View(), policy, input, now); }
      AdmittedExactly(View(), policy, input, now);
      if input.request == NIL || input.org == NIL || input.apiKey == NIL || input.estimate < 0 {
        return Error;
      }
      var cs := LoadBlockingConstraints(policy, input.org, input.apiKey);
      if cs.None? { return Error; }
      outcome := AdmitAll(input, cs.value, now);
    }

    /** The counter updates for the selected rows, in whatever order the query returned them. */
    method FinishTx(request: Id, how: Finish) returns (ok: bool)
      requires UniqueSlots(rows)
      modifies this`counters, this`rows
      ensures ok <==> Ledger.FinishTx(old(View()), request, how).Some?
      ensures ok ==> Some(View()) == Ledger.FinishTx(old(View()), request, how)
    {
      if request == NIL || (how.Settle? && how.cost < 0) { return false; }
      var selected := set i | 0 <= i < |rows| && Live(rows[i], request);
      var todo := selected;
      ghost var db := View();
      while todo != {}
        invariant todo <= selected && rows == db.rows
        invariant Halfway(db, request, how, selected - todo, counters)
        decreases todo
      {
        var i :| i in todo;
        var k := rows[i].counter;
        NextRow(db, request, how, selected, todo, i, counters);
        if k in counters {
          if how.Settle? && counters[k].settled + how.cost > INT64_MAX {
            return false;
          }
          counters := counters[k := FinishCounter(counters[k], rows[i].amount, how)];
        }
        todo := todo - {i};
      }
      assert selected - todo == selected;
      HalfwayDone(db, request, how, selected, counters);
      rows := FinishRows(rows, request, how);
      ok := true;
    }

    method Settle(request: Id, cost: int) returns (ok: bool)
      requires UniqueSlots(rows)
      modifies this`counters, this`rows
      ensures ok <==> Ledger.FinishTx(old(View()), request, Finish.Settle(cost)).Some?
      ensures View() == if ok then Ledger.FinishTx(old(View()), request, Finish.Settle(cost)).value else old(View())
      ensures Conserved(old(View())) ==>
                && Conserved(View())
                && (ok <==> request != NIL && cost >= 0 && CostFits(old(View()), request, cost))
                && (ok ==> Ended(old(View()), View(), request, Some(cost)))
    {
      var savedCounters, savedRows := counters, rows;
      if Conserved(View()) {
        FinishConserves(View(), request, Finish.Settle(cost));
        FinishedExactly(View(), request, Finish.Settle(cost));
      }
      ok := FinishTx(request, Finish.Settle(cost));
      if !ok { counters, rows := savedCounters, savedRows; }
    }

    method Release(request: Id) returns (ok: bool)
      requires UniqueSlots(rows)
      modifies this`counters, this`rows
      ensures ok <==> request != NIL
      ensures View() == if ok then Ledger.FinishTx(old(View()), request, Finish.Release).value else old(View())
      ensures Conserved(old(View())) ==> Conserved(View()) && (ok ==> Ended(old(View()), View(), request, None))
    {
      var savedCounters, savedRows := counters, rows;
      if Conserved(View()) {
        FinishConserves(View(), request, Finish.Release);
        FinishedExactly(View(), request, Finish.Release);
      }
      ok := FinishTx(request, Finish.Release);
      if !ok { counters, rows := savedCounters, savedRows; }
    }
  }

  // ----- The settle/release loop ----------------------------------------------

  ghost predicate Touched(db: Tables, done: set<int>, k: CounterKey) {
    exists i :: i in done && 0 <= i < |db.rows| && db.rows[i].counter == k
  }

  /** `counters` has the updates for the rows in `done`, and no others. */
  ghost predicate Halfway(db: Tables, request: Id, how: Finish, done: set<int>, counters: map<CounterKey, Counter>) {
    && counters.Keys == db.counters.Keys
    && forall k :: k in counters ==>
         && counters[k] == (if Touched(db, done, k) then FinishCounter(db.counters[k], Held(db.rows, request, k), how) else db.counters[k])
         && (Touched(db, done, k) && how.Settle? ==> db.counters[k].settled + how.cost <= INT64_MAX)
  }

  lemma NotYetTouched(db: Tables, request: Id, selected: set<int>, todo: set<int>, i: int)
    requires UniqueSlots(db.rows) && i in todo && todo <= selected
    requires forall j :: j in selected <==> 0 <= j < |db.rows| && Live(db.rows[j], request)
    ensures !Touched(db, selected - todo, db.rows[i].counter)
  {
    if j :| j in selected - todo && 0 <= j < |db.rows| && db.rows[j].counter == db.rows[i].counter {
      assert SameSlot(db.rows[i], db.rows[j]) && SameSlot(db.rows[j], db.rows[i]);
      assert false;
    }
  }

  lemma HalfwayOn(db: Tables, request: Id, how: Finish, done: set<int>, i: int, counters: map<CounterKey, Counter>)
    requires 0 <= i < |db.rows| && !Touched(db, done, db.rows[i].counter)
    requires var k := db.rows[i].counter;
             && counters.Keys == db.counters.Keys
             && (k in counters ==>
                   && counters[k] == FinishCounter(db.counters[k], Held(db.rows, request, k), how)
                   && (how.Settle? ==> db.counters[k].settled + how.cost <= INT64_MAX)
                   && Halfway(db, request, how, done, counters[k := db.counters[k]]))
             && (k !in counters ==> Halfway(db, request, how, done, counters))
    ensures Halfway(db, request, how, done + {i}, counters)
  {
    var k := db.rows[i].counter;
    forall q | q != k ensures Touched(db, done + {i}, q) <==> Touched(db, done, q) {
      if Touched(db, done, q) {
        var j :| j in done && 0 <= j < |db.rows| && db.rows[j].counter == q;
        assert j in done + {i};
      }
    }
    assert i in done + {i} && Touched(db, done + {i}, k);
  }

  /** Before updating for row `i`: its counter is untouched, and the update or the refusal is what the whole finish does. */
  lemma NextRow(db: Tables, request: Id, how: Finish, selected: set<int>, todo: set<int>, i: int, counters: map<CounterKey, Counter>)
    requires UniqueSlots(db.rows) && i in todo && todo <= selected
    requires forall j :: j in selected <==> 0 <= j < |db.rows| && Live(db.rows[j], request)
    requires Halfway(db, request, how, selected - todo, counters)
    ensures var k := db.rows[i].counter;
            && (k !in counters ==> Halfway(db, request, how, selected - (todo - {i}), counters))
            && (k in counters ==>
                  var c := counters[k];
                  && (how.Settle? && c.settled + how.cost > INT64_MAX ==> SettleOverflows(db, request, how))
                  && (!(how.Settle? && c.settled + how.cost > INT64_MAX) ==>
                        Halfway(db, request, how, selected - (todo - {i}), counters[k := FinishCounter(c, db.rows[i].amount, how)])))
  {
    var k := db.rows[i].counter;
    HeldIsTheRow(db.rows, i, k);
    NotYetTouched(db, request, selected, todo, i);
    assert HasLive(db.rows, request, k);
    assert selected - (todo - {i}) == selected - todo + {i};
    if k in counters {
      var c := counters[k];
      if !(how.Settle? && c.settled + how.cost > INT64_MAX) {
        var updated := counters[k := FinishCounter(c, db.rows[i].amount, how)];
        assert updated[k := db.counters[k]] == counters;
        HalfwayOn(db, request, how, selected - todo, i, updated);
      }
    } else {
      HalfwayOn(db, request, how, selected - todo, i, counters);
    }
  }

  lemma HalfwayDone(db: Tables, request: Id, how: Finish, selected: set<int>, counters: map<CounterKey, Counter>)
    requires Halfway(db, request, how, selected, counters)
    requires forall j :: j in selected <==> 0 <= j < |db.rows| && Live(db.rows[j], request)
    ensures counters == FinishCounters(db, request, how) && !SettleOverflows(db, request, how)
  {
    forall k ensures Touched(db, selected, k) <==> HasLive(db.rows, request, k) {
      if HasLive(db.rows, request, k) {
        var i :| 0 <= i < |db.rows| && Live(db.rows[i], request) && db.rows[i].counter == k;
        assert i in selected;
      }
    }
    assert counters == FinishCounters(db, request, how);
  }
}
