/** When a Reserve admits a request for less than its estimate, as a condition that can be read off before the call. */
module Capping {
  import opened Base
  import opened Calendar
  import opened Ledger
  import opened Constraints
  import opened Conservation
  import opened Interleaving
  import opened Overspend
  import opened Admission
  import Serializability

  /** What is used of a counter as the Reserve will find it: a missing one is seeded from the ledger. */
  function Used(db: Tables, k: CounterKey, windowEnd: Time): int {
    var c := Ensured(db, map[], k, windowEnd);
    c.settled + c.reserved
  }

  /** Constraints in rank order are on different counters. */
  lemma {:induction false} NotLockedBefore(org: Id, cs: seq<Constraint>, now: Time, n: nat, j: nat)
    requires RankOrdered(cs) && n <= j < |cs|
    ensures KeyOf(org, cs[j], now) !in LockedKeys(org, cs, now, n)
  {
    if n > 0 {
      NotLockedBefore(org, cs, now, n - 1, j);
      assert Rank(cs[n - 1]) < Rank(cs[j]);
    }
  }

  /** The turns from `m` on append rows on their own counters only. */
  lemma {:induction false} LaterRows(db: Tables, input: ReserveInput, cs: seq<Constraint>, now: Time, m: nat, n: nat, k: CounterKey)
    requires m <= n <= |cs| && ReserveDelta(db, input, cs, now, n).Pending?
    requires forall q :: m <= q < n ==> KeyOf(input.org, cs[q], now) != k
    ensures ReserveDelta(db, input, cs, now, m).Pending?
    ensures var early, late := ReserveDelta(db, input, cs, now, m).rows, ReserveDelta(db, input, cs, now, n).rows;
            early <= late && forall i :: |early| <= i < |late| ==> late[i].counter != k
    decreases n
  {
    if m < n {
      var d := ReserveDelta(db, input, cs, now, n - 1);
      assert ReserveDelta(db, input, cs, now, n) == ReserveStep(db, d, input, cs[n - 1], now);
      StepRows(db, d, input, cs[n - 1], now);
      LaterRows(db, input, cs, now, m, n - 1, k);
    }
  }

  /** The rows a Reserve inserts on the counter of its `j`th constraint: the one its `j`th turn appends, if any. */
  lemma OwnRows(db: Tables, input: ReserveInput, cs: seq<Constraint>, now: Time, j: nat)
    requires RankOrdered(cs) && j < |cs| && ReserveDelta(db, input, cs, now, |cs|).Pending?
    ensures ReserveDelta(db, input, cs, now, j).Pending? && ReserveDelta(db, input, cs, now, j + 1).Pending?
    ensures var k, rows := KeyOf(input.org, cs[j], now), ReserveDelta(db, input, cs, now, |cs|).rows;
            var before, after := ReserveDelta(db, input, cs, now, j).rows, ReserveDelta(db, input, cs, now, j + 1).rows;
            && after <= rows
            && forall i :: 0 <= i < |rows| && rows[i].counter == k ==> |before| <= i < |after|
  {
    var k := KeyOf(input.org, cs[j], now);
    forall q | j + 1 <= q < |cs| ensures KeyOf(input.org, cs[q], now) != k {
      assert Rank(cs[j]) < Rank(cs[q]);
    }
    LaterRows(db, input, cs, now, j + 1, |cs|, k);
    NotLockedBefore(input.org, cs, now, j, j);
    Serializability.RowsOnLocked(db, input, cs, now, j);
    NoneBefore(ReserveDelta(db, input, cs, now, j).rows, LockedKeys(input.org, cs, now, j), k);
    var d := ReserveDelta(db, input, cs, now, j);
    StepRows(db, d, input, cs[j], now);
  }

  lemma NoneBefore(rows: seq<Row>, keys: set<CounterKey>, k: CounterKey)
    requires Serializability.AllOn(rows, keys) && k !in keys
    ensures forall i :: 0 <= i < |rows| ==> rows[i].counter != k
  {
  }

  /** What the `j`th turn decides, it decides on the counter as it was before the Reserve. */
  lemma TurnDecides(db: Tables, input: ReserveInput, cs: seq<Constraint>, now: Time, j: nat)
    requires RankOrdered(cs) && j < |cs| && ReserveDelta(db, input, cs, now, j + 1).Pending?
    ensures ReserveDelta(db, input, cs, now, j).Pending?
    ensures var k, d := KeyOf(input.org, cs[j], now), ReserveDelta(db, input, cs, now, j);
            var counter := Ensured(db, map[], k, PeriodWindow(now, cs[j].period).end);
            var decision := Decide(counter, cs[j].limit, input.estimate);
            && decision.Grant?
            && ReserveDelta(db, input, cs, now, j + 1).rows
               == if decision.amount == 0 then d.rows else d.rows + [NewRow(input, k, decision.amount)]
  {
    var d := ReserveDelta(db, input, cs, now, j);
    NotLockedBefore(input.org, cs, now, j, j);
    DeltaKeys(db, input, cs, now, j);
    assert ReserveDelta(db, input, cs, now, j + 1) == ReserveStep(db, d, input, cs[j], now);
  }

  /** The code's guards: nothing is used, and the estimate exceeds the limit. */
  lemma DecideCaps(c: Counter, limit: int, estimate: int)
    requires 0 <= c.settled + c.reserved <= INT64_MAX && 0 <= limit <= INT64_MAX && 0 <= estimate
    requires Decide(c, limit, estimate).Grant?
    ensures Decide(c, limit, estimate).amount < estimate <==> c.settled + c.reserved == 0 && limit < estimate
    ensures Decide(c, limit, estimate).amount < estimate ==> Decide(c, limit, estimate).amount == limit > 0
  {
  }

  /**
   * A Reserve that goes through admits the request capped on a counter it is limited by exactly when
   * nothing of the counter is used and the estimate exceeds the limit.
   */
  lemma CappedExactly(db: Tables, input: ReserveInput, cs: seq<Constraint>, now: Time, j: nat)
    requires RankOrdered(cs) && j < |cs| && input.estimate >= 0 && 0 <= cs[j].limit <= INT64_MAX
    requires ReserveDelta(db, input, cs, now, |cs|).Pending?
    requires 0 <= Used(db, KeyOf(input.org, cs[j], now), PeriodWindow(now, cs[j].period).end) <= INT64_MAX
    ensures Capped(db, Commit(db, ReserveDelta(db, input, cs, now, |cs|)), KeyOf(input.org, cs[j], now), input.estimate)
            <==> Used(db, KeyOf(input.org, cs[j], now), PeriodWindow(now, cs[j].period).end) == 0 && cs[j].limit < input.estimate
  {
    var k := KeyOf(input.org, cs[j], now);
    var counter := Ensured(db, map[], k, PeriodWindow(now, cs[j].period).end);
    OwnRows(db, input, cs, now, j);
    TurnDecides(db, input, cs, now, j);
    DecideCaps(counter, cs[j].limit, input.estimate);
    CappedRow(db, ReserveDelta(db, input, cs, now, |cs|), ReserveDelta(db, input, cs, now, j).rows, input, k,
              Decide(counter, cs[j].limit, input.estimate).amount);
  }

  lemma CappedRow(db: Tables, d: Delta, before: seq<Row>, input: ReserveInput, k: CounterKey, amount: int)
    requires d.Pending?
    requires var after := if amount == 0 then before else before + [NewRow(input, k, amount)];
             after <= d.rows && forall i :: 0 <= i < |d.rows| && d.rows[i].counter == k ==> |before| <= i < |after|
    requires amount < input.estimate ==> amount != 0
    ensures Capped(db, Commit(db, d), k, input.estimate) <==> amount < input.estimate
  {
    var all := Commit(db, d).rows;
    if i :| |db.rows| <= i < |all| && LiveOn(all[i], k) && all[i].amount < input.estimate {
      assert all[i] == d.rows[i - |db.rows|];
    }
    if amount < input.estimate {
      assert all[|db.rows| + |before|] == d.rows[|before|] == NewRow(input, k, amount);
    }
  }

  // ----- In a run -----------------------------------------------------------------

  predicate LimitedBy(e: Event, k: CounterKey, j: nat)
    requires e.Admit?
  {
    var cs := LoadConstraints(e.policy, e.input.org, e.input.apiKey);
    cs.Some? && j < |cs.value| && KeyOf(e.input.org, cs.value[j], e.now) == k
  }

  /** The Reserve goes through, is limited by `k`, finds `k` unused, and asks for more than the limit. */
  ghost predicate CapGuard(before: Tables, e: Event, k: CounterKey, limit: int)
    requires e.Admit?
  {
    && Reserve(before, e.policy, e.input, e.now).1 == Allowed
    && (exists j: nat :: LimitedBy(e, k, j))
    && Used(before, k, PeriodWindow(e.now, k.period).end) == 0 && limit < e.input.estimate
  }

  /** In an honest run, what is used of a counter is an int64 that the code's additions do not wrap. */
  lemma UsedFits(db: Tables, es: seq<Event>, k: CounterKey, limit: int, windowEnd: Time)
    requires Empty(db) && 0 <= limit <= INT64_MAX && Honest(db, es, k, limit)
    requires LedgerSum(Run(db, es).costs, k, windowEnd) <= INT64_MAX
    ensures 0 <= Used(Run(db, es), k, windowEnd) <= INT64_MAX
  {
    var after := Run(db, es);
    RunConserves(db, es);
    if k in after.counters {
      assert Balanced(after, k);
      SumsNonNegative(after.rows, k);
      LargestCappedIsInt64(db, es, k, limit);
      OverspendBound(db, es, k, limit);
    } else {
      LedgerSumNonNegative(after.costs, k, windowEnd);
    }
  }

  /** The int64 operations of a Reserve's turn on `k` do not wrap around in an honest run. */
  lemma TurnsNeverWrap(db: Tables, es: seq<Event>, input: ReserveInput, c: Constraint, now: Time)
    requires Empty(db) && 0 <= c.limit <= INT64_MAX && Honest(db, es, Place(input, c, now), c.limit)
    ensures NoWrap(Run(db, es), input, c, now)
  {
    if Charged(Run(db, es), input, c, now) <= INT64_MAX {
      UsedFits(db, es, Place(input, c, now), c.limit, PeriodWindow(now, c.period).end);
    }
  }

  lemma CapsAtTurn(db: Tables, es: seq<Event>, k: CounterKey, limit: int, e: Event, j: nat)
    requires Empty(db) && 0 <= limit <= INT64_MAX && Honest(db, es, k, limit)
    requires e.Admit? && WellTyped(e) && FixedLimit(e, k, limit) && ValidInput(e.input) && LimitedBy(e, k, j)
    requires Reserve(Run(db, es), e.policy, e.input, e.now).1 == Allowed
    ensures Capped(Run(db, es), Apply(Run(db, es), e), k, e.input.estimate)
            <==> Used(Run(db, es), k, PeriodWindow(e.now, k.period).end) == 0 && limit < e.input.estimate
  {
    var before, cs := Run(db, es), LoadConstraints(e.policy, e.input.org, e.input.apiKey).value;
    LoadedInRankOrder(e.policy, e.input.org, e.input.apiKey);
    assert ReserveDelta(before, e.input, cs, e.now, |cs|).Pending? by { ReserveErrs(before, e.input, cs, e.now, |cs|); }
    Serializability.SumsFit(before, e.input, cs, e.now, |cs|, j);
    UsedFits(db, es, k, limit, PeriodWindow(e.now, k.period).end);
    CappedExactly(before, e.input, cs, e.now, j);
  }

  /** A Reserve that stopped was not allowed. */
  lemma {:induction false} ReserveErrs(db: Tables, input: ReserveInput, cs: seq<Constraint>, now: Time, n: nat)
    requires n <= |cs|
    ensures var d := ReserveDelta(db, input, cs, now, n); d.Stopped? ==> d.outcome != Allowed
  {
    if n > 0 { ReserveErrs(db, input, cs, now, n - 1); }
  }

  /** Rows appear on a counter only through a Reserve that goes through and is limited by it. */
  lemma OnlyLimited(before: Tables, e: Event, k: CounterKey) returns (j: nat)
    requires e.Admit? && Inserts(before, Apply(before, e), k)
    ensures ValidInput(e.input) && LimitedBy(e, k, j) && Reserve(before, e.policy, e.input, e.now).1 == Allowed
  {
    var cs := LoadConstraints(e.policy, e.input.org, e.input.apiKey).value;
    var d, after := ReserveDelta(before, e.input, cs, e.now, |cs|), Apply(before, e);
    var i :| |before.rows| <= i < |after.rows| && after.rows[i].counter == k;
    assert after.rows[i] == d.rows[i - |before.rows|];
    Serializability.RowsOnLocked(before, e.input, cs, e.now, |cs|);
    j := LockedFrom(e.input.org, cs, e.now, |cs|, k);
  }

  lemma {:induction false} LockedFrom(org: Id, cs: seq<Constraint>, now: Time, n: nat, k: CounterKey) returns (j: nat)
    requires n <= |cs| && k in LockedKeys(org, cs, now, n)
    ensures j < n && KeyOf(org, cs[j], now) == k
  {
    if KeyOf(org, cs[n - 1], now) == k { j := n - 1; } else { j := LockedFrom(org, cs, now, n - 1, k); }
  }

  /** The step that breaks the limit can be recognized before it is taken. */
  lemma CapsExactly(db: Tables, es: seq<Event>, k: CounterKey, limit: int, i: nat)
    requires Empty(db) && 0 <= limit <= INT64_MAX && Honest(db, es, k, limit) && i < |es| && es[i].Admit?
    ensures CappedAt(db, es, k, i) <==> CapGuard(Run(db, es[..i]), es[i], k, limit)
  {
    var before, e := Run(db, es[..i]), es[i];
    HonestPrefix(db, es, k, limit, i);
    assert es[..i + 1][..i] == es[..i] && Run(db, es[..i + 1]) == Apply(before, e);
    if CappedAt(db, es, k, i) {
      assert Inserts(before, Apply(before, e), k);
      var j := OnlyLimited(before, e, k);
      CapsAtTurn(db, es[..i], k, limit, e, j);
    }
    if CapGuard(before, e, k, limit) {
      var j: nat :| LimitedBy(e, k, j);
      CapsAtTurn(db, es[..i], k, limit, e, j);
    }
  }

  /** Estimates within the limit never overshoot it, however many requests there are. */
  lemma SmallEstimatesWithin(db: Tables, es: seq<Event>, k: CounterKey, limit: int, n: nat)
    requires Empty(db) && 0 <= limit <= INT64_MAX && Honest(db, es, k, limit) && n <= |es|
    requires k in Run(db, es).counters ==> Run(db, es).counters[k].seed <= limit
    requires forall i :: 0 <= i < |es| && es[i].Admit? && (exists j: nat :: LimitedBy(es[i], k, j)) ==> es[i].input.estimate <= limit
    ensures Within(db, es[..n], k, limit)
  {
    forall i | 0 <= i < |es| ensures !CappedAt(db, es, k, i) {
      if es[i].Admit? { CapsExactly(db, es, k, limit, i); }
    }
    UncappedWithin(db, es, k, limit, n);
  }
}
