/**
 * Money conservation: a counter's reserved amount is what its live reservations hold,
 * and its settled amount is its seed plus what its settled reservations cost.
 */
module Conservation {
  import opened Base
  import opened Calendar
  import opened Ledger

  // ----- Sums over the reservation table --------------------------------------

  function LiveSum(rows: seq<Row>, k: CounterKey): int {
    if rows == [] then 0
    else
      var n := |rows| - 1;
      LiveSum(rows[..n], k) + if rows[n].status == Reserved && rows[n].counter == k then rows[n].amount else 0
  }

  function SettledSum(rows: seq<Row>, k: CounterKey): int {
    if rows == [] then 0
    else
      var n := |rows| - 1;
      SettledSum(rows[..n], k) + if rows[n].status == Settled && rows[n].counter == k then rows[n].settled else 0
  }

  ghost predicate AmountsPositive(rows: seq<Row>) {
    forall i :: 0 <= i < |rows| ==> rows[i].amount > 0 && rows[i].settled >= 0
  }

  /** The invariant of every reachable state. */
  ghost predicate Conserved(db: Tables) {
    && UniqueSlots(db.rows)
    && AmountsPositive(db.rows)
    && (forall i :: 0 <= i < |db.rows| ==> db.rows[i].counter in db.counters)
    && (forall k :: k in db.counters ==> Balanced(db, k))
    && (forall i :: 0 <= i < |db.costs| ==> db.costs[i].total >= 0)
  }

  ghost predicate Balanced(db: Tables, k: CounterKey)
    requires k in db.counters
  {
    var c := db.counters[k];
    && c.reserved == LiveSum(db.rows, k) <= INT64_MAX
    && c.settled == c.seed + SettledSum(db.rows, k) <= INT64_MAX
    && 0 <= c.seed
  }

  // ----- Sums under one appended row and under finishing ----------------------

  lemma SumsAppend(rows: seq<Row>, row: Row, k: CounterKey)
    ensures LiveSum(rows + [row], k) == LiveSum(rows, k) + if row.status == Reserved && row.counter == k then row.amount else 0
    ensures SettledSum(rows + [row], k) == SettledSum(rows, k) + if row.status == Settled && row.counter == k then row.settled else 0
  {
    assert (rows + [row])[..|rows|] == rows;
  }

  lemma {:induction false} SumsNonNegative(rows: seq<Row>, k: CounterKey)
    requires AmountsPositive(rows)
    ensures 0 <= LiveSum(rows, k) && 0 <= SettledSum(rows, k)
    ensures forall r :: 0 <= Held(rows, r, k) <= LiveSum(rows, k)
    ensures LiveSum(rows, k) == 0 ==> forall i :: 0 <= i < |rows| ==> !(rows[i].status == Reserved && rows[i].counter == k)
  {
    if rows != [] { SumsNonNegative(rows[..|rows| - 1], k); }
  }

  lemma {:induction false} HeldNothing(rows: seq<Row>, request: Id, k: CounterKey)
    requires !HasLive(rows, request, k)
    ensures Held(rows, request, k) == 0
  {
    if rows != [] {
      var n := |rows| - 1;
      assert !(Live(rows[n], request) && rows[n].counter == k);
      assert forall i :: 0 <= i < n ==> rows[..n][i] == rows[i];
      HeldNothing(rows[..n], request, k);
    }
  }

  /** A request holds at most one live row per counter, so what it holds is that row's amount. */
  lemma {:induction false} HeldIsTheRow(rows: seq<Row>, i: nat, k: CounterKey)
    requires UniqueSlots(rows)
    requires i < |rows| && rows[i].status == Reserved && rows[i].counter == k
    ensures Held(rows, rows[i].request, k) == rows[i].amount
  {
    var n, request := |rows| - 1, rows[i].request;
    if i == n {
      forall j | 0 <= j < n ensures !(Live(rows[..n][j], request) && rows[..n][j].counter == k) {
        assert !SameSlot(rows[j], rows[n]);
      }
      HeldNothing(rows[..n], request, k);
    } else {
      assert !SameSlot(rows[i], rows[n]);
      HeldIsTheRow(rows[..n], i, k);
    }
  }

  lemma LiveInHeadOrLast(rows: seq<Row>, request: Id, k: CounterKey)
    requires rows != []
    ensures var n := |rows| - 1;
            HasLive(rows, request, k) <==> HasLive(rows[..n], request, k) || (Live(rows[n], request) && rows[n].counter == k)
    ensures UniqueSlots(rows) && HasLive(rows[..|rows| - 1], request, k)
            ==> !(Live(rows[|rows| - 1], request) && rows[|rows| - 1].counter == k)
  {
    var n := |rows| - 1;
    assert forall i :: 0 <= i < n ==> rows[..n][i] == rows[i];
    if HasLive(rows[..n], request, k) {
      var i :| 0 <= i < n && Live(rows[..n][i], request) && rows[..n][i].counter == k;
      assert Live(rows[i], request) && rows[i].counter == k;
      if UniqueSlots(rows) { assert !SameSlot(rows[i], rows[n]); }
    }
  }

  /** Finishing a request moves what it holds out of the live sum and into the settled sum. */
  lemma {:induction false} FinishSums(rows: seq<Row>, request: Id, how: Finish, k: CounterKey)
    requires UniqueSlots(rows)
    ensures LiveSum(FinishRows(rows, request, how), k) == LiveSum(rows, k) - Held(rows, request, k)
    ensures SettledSum(FinishRows(rows, request, how), k)
         == SettledSum(rows, k) + if how.Settle? && HasLive(rows, request, k) then how.cost else 0
  {
    if rows != [] {
      var n := |rows| - 1;
      FinishSums(rows[..n], request, how, k);
      SumsAppend(FinishRows(rows[..n], request, how), FinishRow(rows[n], request, how), k);
      LiveInHeadOrLast(rows, request, k);
    }
  }

  // ----- Every transaction keeps the invariant --------------------------------

  lemma {:induction false} LedgerSumNonNegative(costs: seq<CostRecord>, k: CounterKey, windowEnd: Time)
    requires forall i :: 0 <= i < |costs| ==> costs[i].total >= 0
    ensures LedgerSum(costs, k, windowEnd) >= 0
  {
    if costs != [] { LedgerSumNonNegative(costs[..|costs| - 1], k, windowEnd); }
  }

  /** No row refers to a counter that does not exist, so a fresh counter starts with empty sums. */
  lemma {:induction false} NoRowsNoSums(rows: seq<Row>, k: CounterKey)
    requires forall i :: 0 <= i < |rows| ==> rows[i].counter != k
    ensures LiveSum(rows, k) == 0 && SettledSum(rows, k) == 0
  {
    if rows != [] { NoRowsNoSums(rows[..|rows| - 1], k); }
  }

  /** Inserting a seeded counter, or leaving an existing one, keeps the balance. */
  lemma EnsureConserves(db: Tables, k: CounterKey, windowEnd: Time)
    requires Conserved(db) && LedgerSum(db.costs, k, windowEnd) <= INT64_MAX
    ensures Conserved(db.(counters := db.counters[k := Ensured(db, map[], k, windowEnd)]))
  {
    var after := db.(counters := db.counters[k := Ensured(db, map[], k, windowEnd)]);
    if k !in db.counters {
      LedgerSumNonNegative(db.costs, k, windowEnd);
      NoRowsNoSums(db.rows, k);
    }
    forall q | q in after.counters ensures Balanced(after, q) {
      if q in db.counters { assert Balanced(db, q); }
    }
  }

  function WithRow(db: Tables, row: Row): Tables
    requires row.counter in db.counters
  {
    db.(counters := db.counters[row.counter := Raised(db.counters[row.counter], row.amount)], rows := db.rows + [row])
  }

  /** Inserting a reservation row together with its counter update keeps the balance. */
  lemma AddRowConserves(db: Tables, row: Row)
    requires Conserved(db) && row.counter in db.counters && !Clashes(db.rows, row)
    requires row.status == Reserved && row.amount > 0 && row.settled == 0
    requires db.counters[row.counter].reserved + row.amount <= INT64_MAX
    ensures Conserved(WithRow(db, row))
  {
    var after := WithRow(db, row);
    forall q | q in after.counters ensures Balanced(after, q) {
      assert Balanced(db, q);
      SumsAppend(db.rows, row, q);
    }
  }

  /** A step that goes on ensures its counter and, unless it reserves nothing, adds one row to it. */
  lemma ReserveStepShape(db: Tables, d: Delta, input: ReserveInput, c: Constraint, now: Time)
    requires d.Pending? && ReserveStep(db, d, input, c, now).Pending?
    ensures var k, windowEnd := KeyOf(input.org, c, now), PeriodWindow(now, c.period).end;
            var before, after := Commit(db, d), Commit(db, ReserveStep(db, d, input, c, now));
            var counter := Ensured(before, map[], k, windowEnd);
            var ensured := before.(counters := before.counters[k := counter]);
            var decision := Decide(counter, c.limit, input.estimate);
            && LedgerSum(before.costs, k, windowEnd) <= INT64_MAX
            && decision.Grant?
            && (decision.amount == 0 ==> after == ensured)
            && (decision.amount != 0 ==>
                  && counter.reserved + decision.amount <= INT64_MAX
                  && !Clashes(before.rows, NewRow(input, k, decision.amount))
                  && after == WithRow(ensured, NewRow(input, k, decision.amount)))
  {
    var k, windowEnd := KeyOf(input.org, c, now), PeriodWindow(now, c.period).end;
    var before, after := Commit(db, d), Commit(db, ReserveStep(db, d, input, c, now));
    var counter := Ensured(before, map[], k, windowEnd);
    assert counter == Ensured(db, d.writes, k, windowEnd);
    var amount := Decide(counter, c.limit, input.estimate).amount;
    var counter' := if amount == 0 then counter else Raised(counter, amount);
    assert db.counters + d.writes[k := counter'] == (db.counters + d.writes)[k := counter'];
    assert before.counters[k := counter][k := counter'] == before.counters[k := counter'];
    if amount != 0 {
      var row := NewRow(input, k, amount);
      assert db.rows + (d.rows + [row]) == (db.rows + d.rows) + [row];
    }
  }

  lemma ReserveStepConserves(db: Tables, d: Delta, input: ReserveInput, c: Constraint, now: Time)
    requires d.Pending? && Conserved(Commit(db, d))
    requires input.estimate >= 0
    ensures var d' := ReserveStep(db, d, input, c, now);
            d'.Pending? ==> Conserved(Commit(db, d'))
  {
    if ReserveStep(db, d, input, c, now).Pending? {
      ReserveStepShape(db, d, input, c, now);
      var k, windowEnd := KeyOf(input.org, c, now), PeriodWindow(now, c.period).end;
      var before := Commit(db, d);
      var counter := Ensured(before, map[], k, windowEnd);
      EnsureConserves(before, k, windowEnd);
      var amount := Decide(counter, c.limit, input.estimate).amount;
      if amount != 0 {
        AddRowConserves(before.(counters := before.counters[k := counter]), NewRow(input, k, amount));
      }
    }
  }

  lemma {:induction false} ReserveDeltaConserves(db: Tables, input: ReserveInput, cs: seq<Constraint>, now: Time, n: nat)
    requires Conserved(db) && n <= |cs| && input.estimate >= 0
    ensures var d := ReserveDelta(db, input, cs, now, n);
            d.Pending? ==> Conserved(Commit(db, d))
  {
    if n == 0 {
      assert Commit(db, Pending(map[], [])) == db;
    } else {
      ReserveDeltaConserves(db, input, cs, now, n - 1);
      var d := ReserveDelta(db, input, cs, now, n - 1);
      if d.Pending? { ReserveStepConserves(db, d, input, cs[n - 1], now); }
    }
  }

  lemma ReserveConserves(db: Tables, policy: Policy, input: ReserveInput, now: Time)
    requires Conserved(db)
    ensures Conserved(Reserve(db, policy, input, now).0)
  {
    var cs := LoadConstraints(policy, input.org, input.apiKey);
    if ValidInput(input) && cs.Some? { ReserveDeltaConserves(db, input, cs.value, now, |cs.value|); }
  }

  lemma FinishConserves(db: Tables, request: Id, how: Finish)
    requires Conserved(db)
    ensures var r := FinishTx(db, request, how); r.Some? ==> Conserved(r.value)
  {
    var r := FinishTx(db, request, how);
    if r.Some? {
      forall k | k in db.counters ensures Balanced(r.value, k) {
        assert Balanced(db, k);
        FinishBalances(db, request, how, k);
      }
      SlotsStay(db, request, how);
    }
  }

  lemma FinishBalances(db: Tables, request: Id, how: Finish, k: CounterKey)
    requires UniqueSlots(db.rows) && AmountsPositive(db.rows) && k in db.counters && Balanced(db, k)
    ensures var r := FinishTx(db, request, how); r.Some? ==> k in r.value.counters && Balanced(r.value, k)
  {
    FinishSums(db.rows, request, how, k);
    SumsNonNegative(db.rows, k);
    if !HasLive(db.rows, request, k) { HeldNothing(db.rows, request, k); }
  }

  lemma SlotsStay(db: Tables, request: Id, how: Finish)
    requires UniqueSlots(db.rows)
    ensures var r := FinishTx(db, request, how); r.Some? ==> UniqueSlots(r.value.rows)
  {
    var rows := FinishRows(db.rows, request, how);
    forall i, j | 0 <= i < j < |rows| ensures !SameSlot(rows[i], rows[j]) {
      assert !SameSlot(db.rows[i], db.rows[j]);
    }
  }

  // ----- Runs -----------------------------------------------------------------

  datatype Event =
    | Admit(policy: Policy, input: ReserveInput, now: Time)
    | Meter(record: CostRecord)
    | Close(request: Id, how: Finish)
    | LogFailure(request: Id)

  ghost predicate WellTyped(e: Event) {
    e.Meter? ==> e.record.total >= 0
  }

  /** One committed or rolled-back transaction. */
  ghost function Apply(db: Tables, e: Event): Tables {
    match e
    case Admit(policy, input, now) => Reserve(db, policy, input, now).0
    case Meter(record) => (var r := RecordCost(db, record); if r.Some? then r.value else db)
    case Close(request, how) => (var r := FinishTx(db, request, how); if r.Some? then r.value else db)
    case LogFailure(request) => db.(logs := db.logs + {request})
  }

  ghost function Run(db: Tables, es: seq<Event>): Tables {
    if es == [] then db else Apply(Run(db, es[..|es| - 1]), es[|es| - 1])
  }

  lemma ApplyConserves(db: Tables, e: Event)
    requires Conserved(db) && WellTyped(e)
    ensures Conserved(Apply(db, e))
  {
    match e
    case Admit(policy, input, now) => ReserveConserves(db, policy, input, now);
    case Close(request, how) => FinishConserves(db, request, how);
    case LogFailure(request) =>
      assert forall k :: k in db.counters ==> Balanced(db, k) && Balanced(Apply(db, e), k);
    case Meter(record) =>
      var logged := db.(costs := db.costs + [record], logs := db.logs + {record.request});
      assert Conserved(logged) by {
        assert forall k :: k in db.counters ==> Balanced(db, k) && Balanced(logged, k);
      }
      FinishConserves(logged, record.request, Settle(record.total));
  }

  /** Conservation holds after any run of Reserve, RecordSuccess, RecordFailure, Settle and Release. */
  lemma {:induction false} RunConserves(db: Tables, es: seq<Event>)
    requires Conserved(db) && forall i :: 0 <= i < |es| ==> WellTyped(es[i])
    ensures Conserved(Run(db, es))
  {
    if es != [] {
      RunConserves(db, es[..|es| - 1]);
      ApplyConserves(Run(db, es[..|es| - 1]), es[|es| - 1]);
    }
  }

  // ----- Consequences ---------------------------------------------------------

  /** In a reachable state GREATEST(reserved - amount, 0) never clamps. */
  lemma ClampNeverFires(db: Tables, i: nat)
    requires Conserved(db) && i < |db.rows| && db.rows[i].status == Reserved
    ensures db.rows[i].counter in db.counters
    ensures db.rows[i].amount <= db.counters[db.rows[i].counter].reserved
  {
    var row := db.rows[i];
    HeldIsTheRow(db.rows, i, row.counter);
    SumsNonNegative(db.rows, row.counter);
    assert Balanced(db, row.counter);
  }

  /** Row `i` is a live row of the request. */
  predicate Open(rows: seq<Row>, request: Id, i: nat)
    requires i < |rows|
  {
    rows[i].request == request && rows[i].status == Reserved
  }

  /** The `cost` fits on every counter the request has a live row on. */
  ghost predicate CostFits(db: Tables, request: Id, cost: int) {
    forall i :: 0 <= i < |db.rows| && Open(db.rows, request, i) && db.rows[i].counter in db.counters ==>
      db.counters[db.rows[i].counter].settled + cost <= INT64_MAX
  }

  /**
   * `after` is `db` with the request's live rows ended: each gives back its own amount, and a cost,
   * when there is one, is entered on the row and added to its counter. Nothing else has changed.
   */
  ghost predicate Ended(db: Tables, after: Tables, request: Id, cost: Option<int>) {
    && after.costs == db.costs && after.logs == db.logs
    && |after.rows| == |db.rows| && after.counters.Keys == db.counters.Keys
    && (forall i :: 0 <= i < |db.rows| && Open(db.rows, request, i) ==>
          var row, c := db.rows[i], db.rows[i].counter;
          && after.rows[i] == Row(request, row.apiKey, c, row.amount, if cost.Some? then cost.value else row.settled,
                                  if cost.Some? then Settled else Released)
          && c in db.counters && c in after.counters
          && after.counters[c].reserved == db.counters[c].reserved - row.amount
          && after.counters[c].settled == db.counters[c].settled + (if cost.Some? then cost.value else 0)
          && after.counters[c].windowEnd == db.counters[c].windowEnd && after.counters[c].seed == db.counters[c].seed)
    && (forall i :: 0 <= i < |db.rows| && !Open(db.rows, request, i) ==> after.rows[i] == db.rows[i])
    && (forall k :: k in db.counters && !(exists i :: 0 <= i < |db.rows| && Open(db.rows, request, i) && db.rows[i].counter == k) ==>
          k in after.counters && after.counters[k] == db.counters[k])
  }

  function CostOf(how: Finish): Option<int> {
    if how.Settle? then Some(how.cost) else None
  }

  /** When a finish goes through, and all that it changes. */
  lemma FinishedExactly(db: Tables, request: Id, how: Finish)
    requires Conserved(db)
    ensures var r := FinishTx(db, request, how);
            && (r.Some? <==> request != NIL && (how.Settle? ==> how.cost >= 0 && CostFits(db, request, how.cost)))
            && (r.Some? ==> Ended(db, r.value, request, CostOf(how)))
  {
    if how.Settle? { OverflowsExactly(db, request, how); }
    var r := FinishTx(db, request, how);
    if r.Some? {
      forall i | 0 <= i < |db.rows| && Open(db.rows, request, i)
        ensures var k := db.rows[i].counter;
                k in db.counters && r.value.counters[k].reserved == db.counters[k].reserved - db.rows[i].amount
                && r.value.counters[k] == FinishCounter(db.counters[k], db.rows[i].amount, how)
      {
        assert HasLive(db.rows, request, db.rows[i].counter) by { assert Live(db.rows[i], request); }
        HeldIsTheRow(db.rows, i, db.rows[i].counter);
        ClampNeverFires(db, i);
      }
      forall k | k in db.counters && !(exists i :: 0 <= i < |db.rows| && Open(db.rows, request, i) && db.rows[i].counter == k)
        ensures r.value.counters[k] == db.counters[k]
      {
        assert !HasLive(db.rows, request, k) by {
          assert forall i :: 0 <= i < |db.rows| ==> !(Open(db.rows, request, i) && db.rows[i].counter == k);
        }
      }
    }
  }

  lemma OverflowsExactly(db: Tables, request: Id, how: Finish)
    requires how.Settle?
    ensures SettleOverflows(db, request, how) <==> !CostFits(db, request, how.cost)
  {
    if SettleOverflows(db, request, how) {
      var k :| k in db.counters && HasLive(db.rows, request, k) && db.counters[k].settled + how.cost > INT64_MAX;
      var i :| 0 <= i < |db.rows| && Live(db.rows[i], request) && db.rows[i].counter == k;
      assert Open(db.rows, request, i);
    }
    if !CostFits(db, request, how.cost) {
      var i :| 0 <= i < |db.rows| && Open(db.rows, request, i) && db.rows[i].counter in db.counters
            && db.counters[db.rows[i].counter].settled + how.cost > INT64_MAX;
      assert Live(db.rows[i], request) && HasLive(db.rows, request, db.rows[i].counter);
    }
  }

  /** Once finished, a request stays finished: settling or releasing it again changes nothing. */
  lemma FinishTwice(db: Tables, request: Id, how: Finish, again: Finish)
    requires FinishTx(db, request, how).Some?
    requires again.Settle? ==> again.cost >= 0
    ensures FinishTx(FinishTx(db, request, how).value, request, again) == FinishTx(db, request, how)
  {
    var once := FinishTx(db, request, how).value;
    assert forall i :: 0 <= i < |once.rows| ==> !Live(once.rows[i], request);
    var twice := FinishTx(once, request, again).value;
    assert twice.counters == once.counters;
    assert twice.rows == once.rows;
  }

  // ----- Order independence ---------------------------------------------------

  datatype Closing = Closing(request: Id, how: Finish)

  /** Closes a batch in order; None as soon as one of the transactions fails. */
  ghost function CloseAll(db: Tables, batch: seq<Closing>): Option<Tables>
    decreases |batch|
  {
    if batch == [] then Some(db)
    else
      var r := FinishTx(db, batch[0].request, batch[0].how);
      if r.None? then None else CloseAll(r.value, batch[1..])
  }

  lemma {:induction false} HeldAfterOther(rows: seq<Row>, request: Id, how: Finish, other: Id, k: CounterKey)
    requires request != other
    ensures Held(FinishRows(rows, request, how), other, k) == Held(rows, other, k)
  {
    if rows != [] {
      var n := |rows| - 1;
      HeldAfterOther(rows[..n], request, how, other, k);
      assert FinishRows(rows, request, how)[..n] == FinishRows(rows[..n], request, how);
    }
  }

  lemma LiveAfterOther(rows: seq<Row>, request: Id, how: Finish, other: Id, k: CounterKey)
    requires request != other
    ensures HasLive(FinishRows(rows, request, how), other, k) <==> HasLive(rows, other, k)
  {
    var after := FinishRows(rows, request, how);
    assert forall i :: 0 <= i < |rows| ==> (Live(after[i], other) <==> Live(rows[i], other)) && after[i].counter == rows[i].counter;
  }

  lemma OthersUntouched(rows: seq<Row>, a: Closing, other: Id)
    requires a.request != other
    ensures forall k :: Held(FinishRows(rows, a.request, a.how), other, k) == Held(rows, other, k)
    ensures forall k :: HasLive(FinishRows(rows, a.request, a.how), other, k) <==> HasLive(rows, other, k)
  {
    forall k ensures Held(FinishRows(rows, a.request, a.how), other, k) == Held(rows, other, k) {
      HeldAfterOther(rows, a.request, a.how, other, k);
    }
    forall k ensures HasLive(FinishRows(rows, a.request, a.how), other, k) <==> HasLive(rows, other, k) {
      LiveAfterOther(rows, a.request, a.how, other, k);
    }
  }

  ghost function Close2(db: Tables, a: Closing, b: Closing): Option<Tables> {
    var r := FinishTx(db, a.request, a.how);
    if r.None? then None else FinishTx(r.value, b.request, b.how)
  }

  /** Two closings in order: what each counter and row becomes. */
  lemma Close2Tables(db: Tables, a: Closing, b: Closing)
    requires a.request != b.request && Close2(db, a, b).Some?
    ensures var ab := Close2(db, a, b).value;
            && ab.counters.Keys == db.counters.Keys
            && (forall k :: k in db.counters ==> ab.counters[k] == CloseCounter(db, k, b, CloseCounter(db, k, a, db.counters[k])))
            && ab == db.(counters := ab.counters, rows := FinishRows(FinishRows(db.rows, a.request, a.how), b.request, b.how))
  {
    OthersUntouched(db.rows, a, b.request);
  }

  function CloseCounter(db: Tables, k: CounterKey, a: Closing, c: Counter): Counter {
    if HasLive(db.rows, a.request, k) then FinishCounter(c, Held(db.rows, a.request, k), a.how) else c
  }

  /** Two closings succeed exactly when the final totals fit, which does not depend on the order. */
  lemma Close2Succeeds(db: Tables, a: Closing, b: Closing)
    requires a.request != b.request
    ensures Close2(db, a, b).Some? <==>
              && ClosableInput(a) && ClosableInput(b)
              && forall k :: k in db.counters ==> Fits(db, k, a) && Fits(db, k, b) && FitsBoth(db, k, a, b)
  {
    OthersUntouched(db.rows, a, b.request);
    assert SettleOverflows(db, a.request, a.how) <==> exists k :: k in db.counters && !Fits(db, k, a);
    if ClosableInput(a) && ClosableInput(b) && !SettleOverflows(db, a.request, a.how) {
      var dbA := FinishTx(db, a.request, a.how).value;
      forall k | k in db.counters
        ensures (b.how.Settle? && HasLive(dbA.rows, b.request, k) && dbA.counters[k].settled + b.how.cost > INT64_MAX)
           <==> !(Fits(db, k, b) && FitsBoth(db, k, a, b))
      {
        assert dbA.counters[k] == CloseCounter(db, k, a, db.counters[k]);
      }
      assert SettleOverflows(dbA, b.request, b.how) <==> exists k :: k in db.counters && !(Fits(db, k, b) && FitsBoth(db, k, a, b));
    }
  }

  predicate ClosableInput(a: Closing) {
    a.request != NIL && (a.how.Settle? ==> a.how.cost >= 0)
  }

  predicate Fits(db: Tables, k: CounterKey, a: Closing)
    requires k in db.counters
  {
    a.how.Settle? && HasLive(db.rows, a.request, k) ==> db.counters[k].settled + a.how.cost <= INT64_MAX
  }

  predicate FitsBoth(db: Tables, k: CounterKey, a: Closing, b: Closing)
    requires k in db.counters
  {
    a.how.Settle? && HasLive(db.rows, a.request, k) && b.how.Settle? && HasLive(db.rows, b.request, k)
    ==> db.counters[k].settled + a.how.cost + b.how.cost <= INT64_MAX
  }

  lemma CloseCountersCommute(db: Tables, k: CounterKey, a: Closing, b: Closing, c: Counter)
    requires AmountsPositive(db.rows)
    ensures CloseCounter(db, k, a, CloseCounter(db, k, b, c)) == CloseCounter(db, k, b, CloseCounter(db, k, a, c))
  {
    SumsNonNegative(db.rows, k);
    assert 0 <= Held(db.rows, a.request, k) && 0 <= Held(db.rows, b.request, k);
  }

  lemma CloseRowCommutes(row: Row, a: Closing, b: Closing)
    requires a.request != b.request
    ensures FinishRow(FinishRow(row, a.request, a.how), b.request, b.how) == FinishRow(FinishRow(row, b.request, b.how), a.request, a.how)
  {
  }

  lemma CloseRowsCommute(rows: seq<Row>, a: Closing, b: Closing)
    requires a.request != b.request
    ensures FinishRows(FinishRows(rows, a.request, a.how), b.request, b.how) == FinishRows(FinishRows(rows, b.request, b.how), a.request, a.how)
  {
    var ab := FinishRows(FinishRows(rows, a.request, a.how), b.request, b.how);
    var ba := FinishRows(FinishRows(rows, b.request, b.how), a.request, a.how);
    forall i | 0 <= i < |rows| ensures ab[i] == ba[i] { CloseRowCommutes(rows[i], a, b); }
  }

  lemma Close2Commutes(db: Tables, a: Closing, b: Closing)
    requires AmountsPositive(db.rows) && a.request != b.request
    ensures Close2(db, a, b) == Close2(db, b, a)
  {
    assert Close2(db, a, b).Some? <==> Close2(db, b, a).Some? by {
      Close2Succeeds(db, a, b);
      Close2Succeeds(db, b, a);
      assert forall k :: k in db.counters ==> (FitsBoth(db, k, a, b) <==> FitsBoth(db, k, b, a));
    }
    if Close2(db, a, b).Some? {
      Close2Tables(db, a, b);
      Close2Tables(db, b, a);
      CloseRowsCommute(db.rows, a, b);
      var ab, ba := Close2(db, a, b).value.counters, Close2(db, b, a).value.counters;
      forall k | k in db.counters ensures ab[k] == ba[k] {
        CloseCountersCommute(db, k, a, b, db.counters[k]);
      }
      assert ab == ba;
    }
  }

  ghost predicate DistinctRequests(batch: seq<Closing>) {
    forall i, j :: 0 <= i < j < |batch| ==> batch[i].request != batch[j].request
  }

  lemma CloseTwoFirst(db: Tables, a: Closing, b: Closing, tail: seq<Closing>)
    ensures CloseAll(db, [a, b] + tail) == if Close2(db, a, b).None? then None else CloseAll(Close2(db, a, b).value, tail)
  {
    assert ([a, b] + tail)[1..] == [b] + tail;
    assert ([b] + tail)[1..] == tail;
  }

  lemma SwapFirst(db: Tables, a: Closing, b: Closing, tail: seq<Closing>)
    requires AmountsPositive(db.rows) && a.request != b.request
    ensures CloseAll(db, [a, b] + tail) == CloseAll(db, [b, a] + tail)
  {
    Close2Commutes(db, a, b);
    CloseTwoFirst(db, a, b, tail);
    CloseTwoFirst(db, b, a, tail);
  }

  /** Moving one closing to the front of a batch changes nothing. */
  lemma {:induction false} CloseFirst(db: Tables, batch: seq<Closing>, i: nat)
    requires Conserved(db) && DistinctRequests(batch) && i < |batch|
    ensures CloseAll(db, batch) == CloseAll(db, [batch[i]] + batch[..i] + batch[i + 1..])
    decreases i
  {
    if i == 0 {
      assert [batch[0]] + batch[..0] + batch[1..] == batch;
    } else {
      var a, x, rest, tail := batch[0], batch[i], batch[1..], batch[1..i] + batch[i + 1..];
      assert [rest[i - 1]] + rest[..i - 1] + rest[i..] == [x] + tail;
      assert [batch[i]] + batch[..i] + batch[i + 1..] == [x, a] + tail;
      assert ([a, x] + tail)[1..] == [x] + tail;
      var r := FinishTx(db, a.request, a.how);
      if r.Some? {
        FinishConserves(db, a.request, a.how);
        CloseFirst(r.value, rest, i - 1);
      }
      assert CloseAll(db, batch) == CloseAll(db, [a, x] + tail);
      SwapFirst(db, a, x, tail);
    }
  }

  lemma TakeOut(xs: seq<Closing>, i: nat)
    requires i < |xs|
    ensures multiset(xs[..i] + xs[i + 1..]) == multiset(xs) - multiset{xs[i]}
  {
    assert xs == xs[..i] + [xs[i]] + xs[i + 1..];
  }

  /** A batch of distinct requests ends in the same tables, or fails, whatever the order. */
  lemma {:induction false} OrderIndependent(db: Tables, xs: seq<Closing>, ys: seq<Closing>)
    requires Conserved(db) && DistinctRequests(xs) && DistinctRequests(ys)
    requires multiset(xs) == multiset(ys)
    ensures CloseAll(db, xs) == CloseAll(db, ys)
    decreases |xs|
  {
    if xs == [] {
      assert |multiset(ys)| == 0;
    } else {
      var x, i, rest := SameFirst(xs, ys);
      CloseFirst(db, ys, i);
      assert [x] + ys[..i] + ys[i + 1..] == [x] + rest;
      var r := FinishTx(db, x.request, x.how);
      if r.Some? {
        FinishConserves(db, x.request, x.how);
        OrderIndependent(r.value, xs[1..], rest);
        assert ([x] + rest)[1..] == rest;
      }
    }
  }

  lemma SameFirst(xs: seq<Closing>, ys: seq<Closing>) returns (x: Closing, i: nat, rest: seq<Closing>)
    requires xs != [] && multiset(xs) == multiset(ys) && DistinctRequests(ys)
    ensures x == xs[0] && i < |ys| && ys[i] == x && rest == ys[..i] + ys[i + 1..]
    ensures multiset(xs[1..]) == multiset(rest) && DistinctRequests(rest)
  {
    x := xs[0];
    assert x in multiset(xs);
    i :| 0 <= i < |ys| && ys[i] == x;
    rest := ys[..i] + ys[i + 1..];
    TakeOut(xs, 0);
    TakeOut(ys, i);
    assert xs[..0] + xs[1..] == xs[1..];
    StillDistinct(ys, i);
  }

  lemma StillDistinct(ys: seq<Closing>, i: nat)
    requires i < |ys| && DistinctRequests(ys)
    ensures DistinctRequests(ys[..i] + ys[i + 1..])
  {
    var rest := ys[..i] + ys[i + 1..];
    forall p, q | 0 <= p < q < |rest| ensures rest[p].request != rest[q].request {
      var p', q' := if p < i then p else p + 1, if q < i then q else q + 1;
      assert rest[p] == ys[p'] && rest[q] == ys[q'];
    }
  }
}
