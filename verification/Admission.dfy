/** When a Reserve lets a request in, what it writes, and which constraint it answers with, in plain sums and fields. */
module Admission {
  import opened Base
  import opened Calendar
  import opened Ledger
  import opened Constraints

  /** The counter a constraint is enforced on: of the window that `now` falls into. */
  function Place(input: ReserveInput, c: Constraint, now: Time): CounterKey {
    CounterKey(input.org, c.scope, c.scopeId, c.period, PeriodWindow(now, c.period).start)
  }

  /** What has been charged in the window so far. */
  function Charged(db: Tables, input: ReserveInput, c: Constraint, now: Time): int {
    LedgerSum(db.costs, Place(input, c, now), PeriodWindow(now, c.period).end)
  }

  /** The stored counter, or the one inserted with what has been charged. */
  function Found(db: Tables, input: ReserveInput, c: Constraint, now: Time): Counter {
    var k, charged := Place(input, c, now), Charged(db, input, c, now);
    if k in db.counters then db.counters[k] else Counter(charged, 0, PeriodWindow(now, c.period).end, charged)
  }

  function InUse(db: Tables, input: ReserveInput, c: Constraint, now: Time): int {
    Found(db, input, c, now).settled + Found(db, input, c, now).reserved
  }

  /** The two int64 operations of the turn, if it gets to them, do not wrap around. */
  predicate NoWrap(db: Tables, input: ReserveInput, c: Constraint, now: Time) {
    Charged(db, input, c, now) <= INT64_MAX ==>
      IsInt64(InUse(db, input, c, now)) && IsInt64(c.limit - InUse(db, input, c, now))
  }

  ghost predicate NeverWraps(db: Tables, input: ReserveInput, cs: seq<Constraint>, now: Time) {
    forall i :: 0 <= i < |cs| ==> NoWrap(db, input, cs[i], now)
  }

  /** Something of the limit is left, and it is all of it or enough for the estimate. */
  predicate HasRoom(db: Tables, input: ReserveInput, c: Constraint, now: Time) {
    var used := InUse(db, input, c, now);
    used < c.limit && (used <= 0 || used + input.estimate <= c.limit)
  }

  /** The estimate, or what is left if that is less. */
  function Share(db: Tables, input: ReserveInput, c: Constraint, now: Time): int {
    var left := c.limit - InUse(db, input, c, now);
    if input.estimate < left then input.estimate else left
  }

  /** The request has a row in the constraint's slot already. */
  ghost predicate SlotTaken(db: Tables, input: ReserveInput, c: Constraint, now: Time) {
    exists i :: 0 <= i < |db.rows| && db.rows[i].request == input.request
             && db.rows[i].counter.scope == c.scope && db.rows[i].counter.scopeId == c.scopeId
             && db.rows[i].counter.period == c.period && db.rows[i].counter.windowStart == PeriodWindow(now, c.period).start
  }

  /** The statements of the turn succeed: the sum and the new reserved amount are bigints, and the row is unique. */
  ghost predicate Writable(db: Tables, input: ReserveInput, c: Constraint, now: Time) {
    input.estimate != 0 ==>
      Found(db, input, c, now).reserved + Share(db, input, c, now) <= INT64_MAX && !SlotTaken(db, input, c, now)
  }

  ghost predicate Passes(db: Tables, input: ReserveInput, c: Constraint, now: Time) {
    Charged(db, input, c, now) <= INT64_MAX && HasRoom(db, input, c, now) && Writable(db, input, c, now)
  }

  /** What a Reserve answers when `c` is the first constraint it does not pass. */
  function Refusal(db: Tables, input: ReserveInput, c: Constraint, now: Time): Outcome {
    if Charged(db, input, c, now) > INT64_MAX || HasRoom(db, input, c, now) then Error
    else Blocked(c.scope, c.period, c.limit, InUse(db, input, c, now), Found(db, input, c, now).reserved)
  }

  /** The counters after the first `n` constraints: found, and raised by the share. */
  ghost predicate CountersTaken(db: Tables, after: map<CounterKey, Counter>, input: ReserveInput, cs: seq<Constraint>, now: Time, n: nat)
    requires n <= |cs|
  {
    && (forall j :: 0 <= j < n ==>
          var k, found := Place(input, cs[j], now), Found(db, input, cs[j], now);
          && k in after
          && after[k] == Counter(found.settled, found.reserved + Share(db, input, cs[j], now), found.windowEnd, found.seed))
    && (forall k :: k in after ==> exists j :: 0 <= j < n && k == Place(input, cs[j], now))
  }

  /** One row for each of the first `n` constraints, in their order, unless nothing is asked for. */
  function RowsTaken(db: Tables, input: ReserveInput, cs: seq<Constraint>, now: Time, n: nat): seq<Row>
    requires n <= |cs|
  {
    if input.estimate == 0 then []
    else seq(n, j requires 0 <= j < n => Row(input.request, input.apiKey, Place(input, cs[j], now), Share(db, input, cs[j], now), 0, Reserved))
  }

  ghost predicate Taken(db: Tables, d: Delta, input: ReserveInput, cs: seq<Constraint>, now: Time, n: nat)
    requires n <= |cs|
  {
    d.Pending? && CountersTaken(db, d.writes, input, cs, now, n) && d.rows == RowsTaken(db, input, cs, now, n)
  }

  /** A turn that has not written the counter yet passes or refuses by these sums. */
  lemma Turn(db: Tables, d: Delta, input: ReserveInput, c: Constraint, now: Time)
    requires d.Pending? && input.estimate >= 0 && NoWrap(db, input, c, now)
    requires Place(input, c, now) !in d.writes
    requires forall i :: 0 <= i < |d.rows| ==> !SameSlotKey(d.rows[i].counter, Place(input, c, now))
    ensures var step, k, found := ReserveStep(db, d, input, c, now), Place(input, c, now), Found(db, input, c, now);
            && (step.Pending? <==> Passes(db, input, c, now))
            && (step.Stopped? ==> step.outcome == Refusal(db, input, c, now))
            && (step.Pending? ==>
                  && step.writes == d.writes[k := Counter(found.settled, found.reserved + Share(db, input, c, now), found.windowEnd, found.seed)]
                  && step.rows == d.rows + if input.estimate == 0 then []
                                           else [Row(input.request, input.apiKey, k, Share(db, input, c, now), 0, Reserved)])
  {
    var row := NewRow(input, Place(input, c, now), Share(db, input, c, now));
    assert Clashes(db.rows + d.rows, row) <==> SlotTaken(db, input, c, now) by { OwnRowsApart(db, d, input, c, now, row); }
    assert d.rows + [] == d.rows;
  }

  lemma OwnRowsApart(db: Tables, d: Delta, input: ReserveInput, c: Constraint, now: Time, row: Row)
    requires d.Pending? && row.request == input.request && row.counter == Place(input, c, now)
    requires forall i :: 0 <= i < |d.rows| ==> !SameSlotKey(d.rows[i].counter, row.counter)
    ensures Clashes(db.rows + d.rows, row) <==> SlotTaken(db, input, c, now)
  {
    var all := db.rows + d.rows;
    forall i | |db.rows| <= i < |all| ensures !SameSlot(all[i], row) {
      assert all[i] == d.rows[i - |db.rows|];
    }
    if i :| 0 <= i < |all| && SameSlot(all[i], row) {
      assert i < |db.rows| && all[i] == db.rows[i];
    }
    if SlotTaken(db, input, c, now) {
      var i :| 0 <= i < |db.rows| && db.rows[i].request == input.request
            && db.rows[i].counter.scope == c.scope && db.rows[i].counter.scopeId == c.scopeId
            && db.rows[i].counter.period == c.period && db.rows[i].counter.windowStart == PeriodWindow(now, c.period).start;
      assert all[i] == db.rows[i] && SameSlot(all[i], row);
    }
  }

  lemma TakeOne(db: Tables, d: Delta, input: ReserveInput, cs: seq<Constraint>, now: Time, n: nat)
    requires RankOrdered(cs) && n < |cs| && Taken(db, d, input, cs, now, n)
    requires input.estimate >= 0 && NoWrap(db, input, cs[n], now)
    ensures var step := ReserveStep(db, d, input, cs[n], now);
            if Passes(db, input, cs[n], now) then Taken(db, step, input, cs, now, n + 1)
            else step == Stopped(Refusal(db, input, cs[n], now))
  {
    var k := Place(input, cs[n], now);
    forall j | 0 <= j < n ensures !SameSlotKey(Place(input, cs[j], now), k) {
      assert Rank(cs[j]) < Rank(cs[n]);
    }
    Turn(db, d, input, cs[n], now);
    var step := ReserveStep(db, d, input, cs[n], now);
    if step.Pending? { TakenGrows(db, d, step, input, cs, now, n); }
  }

  lemma TakenGrows(db: Tables, d: Delta, step: Delta, input: ReserveInput, cs: seq<Constraint>, now: Time, n: nat)
    requires n < |cs| && Taken(db, d, input, cs, now, n) && step.Pending?
    requires forall j :: 0 <= j < n ==> Place(input, cs[j], now) != Place(input, cs[n], now)
    requires var k, found := Place(input, cs[n], now), Found(db, input, cs[n], now);
             && step.writes == d.writes[k := Counter(found.settled, found.reserved + Share(db, input, cs[n], now), found.windowEnd, found.seed)]
             && step.rows == d.rows + if input.estimate == 0 then []
                                      else [Row(input.request, input.apiKey, k, Share(db, input, cs[n], now), 0, Reserved)]
    ensures Taken(db, step, input, cs, now, n + 1)
  {
    RowsGrow(db, input, cs, now, n);
    forall q | q in step.writes ensures exists j :: 0 <= j < n + 1 && q == Place(input, cs[j], now) {
      if q == Place(input, cs[n], now) { assert q == Place(input, cs[n], now); }
    }
  }

  lemma RowsGrow(db: Tables, input: ReserveInput, cs: seq<Constraint>, now: Time, n: nat)
    requires n < |cs|
    ensures RowsTaken(db, input, cs, now, n + 1)
            == RowsTaken(db, input, cs, now, n)
             + if input.estimate == 0 then []
               else [Row(input.request, input.apiKey, Place(input, cs[n], now), Share(db, input, cs[n], now), 0, Reserved)]
  {
  }

  lemma TakenNothing(db: Tables, input: ReserveInput, cs: seq<Constraint>, now: Time)
    ensures Taken(db, ReserveDelta(db, input, cs, now, 0), input, cs, now, 0)
  {
  }

  lemma NextDelta(db: Tables, input: ReserveInput, cs: seq<Constraint>, now: Time, n: nat)
    requires n < |cs| && ReserveDelta(db, input, cs, now, n).Pending?
    ensures ReserveDelta(db, input, cs, now, n + 1) == ReserveStep(db, ReserveDelta(db, input, cs, now, n), input, cs[n], now)
  {
  }

  lemma TakeNext(db: Tables, input: ReserveInput, cs: seq<Constraint>, now: Time, n: nat)
    requires RankOrdered(cs) && n < |cs| && Taken(db, ReserveDelta(db, input, cs, now, n), input, cs, now, n)
    requires input.estimate >= 0 && NoWrap(db, input, cs[n], now) && Passes(db, input, cs[n], now)
    ensures Taken(db, ReserveDelta(db, input, cs, now, n + 1), input, cs, now, n + 1)
  {
    TakeOne(db, ReserveDelta(db, input, cs, now, n), input, cs, now, n);
    NextDelta(db, input, cs, now, n);
  }

  ghost predicate AllPass(db: Tables, input: ReserveInput, cs: seq<Constraint>, now: Time, n: nat)
    requires n <= |cs|
  {
    forall j :: 0 <= j < n ==> Passes(db, input, cs[j], now)
  }

  /** As long as every constraint is passed, the Reserve takes its share of each. */
  lemma {:induction false} TakesAll(db: Tables, input: ReserveInput, cs: seq<Constraint>, now: Time, n: nat)
    requires RankOrdered(cs) && n <= |cs| && input.estimate >= 0 && AllPass(db, input, cs, now, n) && NeverWraps(db, input, cs, now)
    ensures Taken(db, ReserveDelta(db, input, cs, now, n), input, cs, now, n)
  {
    if n == 0 {
      TakenNothing(db, input, cs, now);
    } else {
      TakesAll(db, input, cs, now, n - 1);
      assert Passes(db, input, cs[n - 1], now) && NoWrap(db, input, cs[n - 1], now);
      TakeNext(db, input, cs, now, n - 1);
    }
  }

  /** `j` is the first constraint that is not passed. */
  ghost predicate FirstFailing(db: Tables, input: ReserveInput, cs: seq<Constraint>, now: Time, j: nat) {
    j < |cs| && !Passes(db, input, cs[j], now) && AllPass(db, input, cs, now, j)
  }

  lemma StopsAtFirst(db: Tables, input: ReserveInput, cs: seq<Constraint>, now: Time, j: nat)
    requires RankOrdered(cs) && input.estimate >= 0 && FirstFailing(db, input, cs, now, j) && NeverWraps(db, input, cs, now)
    ensures ReserveDelta(db, input, cs, now, |cs|) == Stopped(Refusal(db, input, cs[j], now))
  {
    TakesAll(db, input, cs, now, j);
    TakeOne(db, ReserveDelta(db, input, cs, now, j), input, cs, now, j);
    NextDelta(db, input, cs, now, j);
    StoppedStays(db, input, cs, now, j + 1, |cs|);
  }

  lemma {:induction false} SomeFirst(db: Tables, input: ReserveInput, cs: seq<Constraint>, now: Time, n: nat) returns (j: nat)
    requires n <= |cs| && !AllPass(db, input, cs, now, n)
    ensures j < n && FirstFailing(db, input, cs, now, j)
  {
    if AllPass(db, input, cs, now, n - 1) { j := n - 1; } else { j := SomeFirst(db, input, cs, now, n - 1); }
  }

  /** The tables of an admitted request: a share of every counter is held, and a row says so. */
  ghost predicate Admitted(db: Tables, after: Tables, input: ReserveInput, cs: seq<Constraint>, now: Time) {
    && after.costs == db.costs && after.logs == db.logs
    && |after.rows| == |db.rows| + (if input.estimate == 0 then 0 else |cs|) && after.rows[..|db.rows|] == db.rows
    && (input.estimate != 0 ==> forall j :: 0 <= j < |cs| ==>
          after.rows[|db.rows| + j]
          == Row(input.request, input.apiKey, Place(input, cs[j], now), Share(db, input, cs[j], now), 0, Reserved))
    && (forall j :: 0 <= j < |cs| ==>
          var k, found := Place(input, cs[j], now), Found(db, input, cs[j], now);
          && k in after.counters
          && after.counters[k] == Counter(found.settled, found.reserved + Share(db, input, cs[j], now), found.windowEnd, found.seed))
    && (forall k :: (forall j :: 0 <= j < |cs| ==> k != Place(input, cs[j], now)) ==>
          (k in after.counters <==> k in db.counters) && (k in db.counters ==> after.counters[k] == db.counters[k]))
  }

  lemma TakenAdmitted(db: Tables, d: Delta, input: ReserveInput, cs: seq<Constraint>, now: Time)
    requires Taken(db, d, input, cs, now, |cs|)
    ensures Admitted(db, Commit(db, d), input, cs, now)
  {
    var after := Commit(db, d);
    assert after.rows[..|db.rows|] == db.rows;
    forall j | 0 <= j < |cs|
      ensures var k, found := Place(input, cs[j], now), Found(db, input, cs[j], now);
              && k in after.counters
              && after.counters[k] == Counter(found.settled, found.reserved + Share(db, input, cs[j], now), found.windowEnd, found.seed)
    {
      assert Place(input, cs[j], now) in d.writes;
    }
  }

  /**
   * A request is let in exactly when it passes every constraint; it then holds its share of each.
   * Otherwise the first constraint it does not pass gives the answer, and nothing is written.
   */
  ghost predicate DecidedBySums(db: Tables, after: Tables, outcome: Outcome, input: ReserveInput, cs: seq<Constraint>, now: Time) {
    && (outcome == Allowed <==> forall c :: c in cs ==> Passes(db, input, c, now))
    && (outcome == Allowed ==> Admitted(db, after, input, cs, now))
    && (outcome != Allowed ==> after == db)
    && (outcome != Allowed ==> exists j: nat :: FirstFailing(db, input, cs, now, j) && outcome == Refusal(db, input, cs[j], now))
  }

  lemma DecidedOn(db: Tables, input: ReserveInput, cs: seq<Constraint>, now: Time)
    requires RankOrdered(cs) && input.estimate >= 0 && NeverWraps(db, input, cs, now)
    ensures var r := ReserveWith(db, input, cs, now); DecidedBySums(db, r.0, r.1, input, cs, now)
  {
    if AllPass(db, input, cs, now, |cs|) {
      TakesAll(db, input, cs, now, |cs|);
      TakenAdmitted(db, ReserveDelta(db, input, cs, now, |cs|), input, cs, now);
    } else {
      var j := SomeFirst(db, input, cs, now, |cs|);
      StopsAtFirst(db, input, cs, now, j);
      assert cs[j] in cs;
    }
  }

  /** The whole answer to a Reserve, as long as no int64 operation on its constraints wraps around. */
  ghost predicate Answered(db: Tables, after: Tables, outcome: Outcome, policy: Policy, input: ReserveInput, now: Time) {
    if input.request == NIL || input.org == NIL || input.apiKey == NIL || input.estimate < 0
       || LoadConstraints(policy, input.org, input.apiKey).None? then after == db && outcome == Error
    else
      var cs := LoadConstraints(policy, input.org, input.apiKey).value;
      NeverWraps(db, input, cs, now) ==> DecidedBySums(db, after, outcome, input, cs, now)
  }

  lemma AdmittedExactly(db: Tables, policy: Policy, input: ReserveInput, now: Time)
    ensures var r := Reserve(db, policy, input, now); Answered(db, r.0, r.1, policy, input, now)
  {
    if ValidInput(input) && LoadConstraints(policy, input.org, input.apiKey).Some? {
      var cs := LoadConstraints(policy, input.org, input.apiKey).value;
      LoadedInRankOrder(policy, input.org, input.apiKey);
      if NeverWraps(db, input, cs, now) { DecidedOn(db, input, cs, now); }
    }
  }

  /** One turn is the decision for its constraint alone. */
  lemma OneTurn(db: Tables, input: ReserveInput, c: Constraint, now: Time)
    requires NoWrap(db, input, c, now) && input.estimate >= 0
    ensures var step := ReserveStep(db, Pending(map[], []), input, c, now);
            if Passes(db, input, c, now) then step.Pending? && Admitted(db, Commit(db, step), input, [c], now)
            else step == Stopped(Refusal(db, input, c, now))
  {
    var none := Pending(map[], []);
    assert Taken(db, none, input, [c], now, 0);
    TakeOne(db, none, input, [c], now, 0);
    if Passes(db, input, c, now) { TakenAdmitted(db, ReserveStep(db, none, input, c, now), input, [c], now); }
  }

  /** What is charged in a window: the costs of the organization, or of its key, whose completion falls into that window. */
  lemma ChargedGrows(db: Tables, record: CostRecord, input: ReserveInput, c: Constraint, now: Time)
    ensures db.costs == [] ==> Charged(db, input, c, now) == 0
    ensures Charged(db.(costs := db.costs + [record]), input, c, now)
            == Charged(db, input, c, now)
             + if record.org == input.org && (c.scope == OrgScope || record.apiKey == c.scopeId)
                  && PeriodWindow(record.createdAt, c.period) == PeriodWindow(now, c.period) then record.total else 0
  {
    assert (db.costs + [record])[..|db.costs|] == db.costs;
    WindowsTile(record.createdAt, now, c.period);
  }
}
