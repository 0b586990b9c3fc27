/**
 * Why the refinement asks for an orderly run. Both runs below consist of steps the service can
 * take; neither ends in tables that the atomic transactions reach in any order.
 */
module Anomalies {
  import opened Base
  import opened Calendar
  import opened Ledger
  import opened Conservation
  import opened Interleaving
  import opened Serializability
  import LedgerDrift

  const ORG: Id := 1
  const KEY: Id := 2
  const OLD: Id := 7
  const NEW: Id := 8

  const DAILY: Constraint := Constraint(OrgScope, ORG, Daily, 100)
  const MONTHLY: Constraint := Constraint(OrgScope, ORG, Monthly, 12)

  /** Blocking budgets of the organisation: 100 a day and, if asked for, 12 a month. */
  function PolicyOf(monthly: bool): Policy {
    Policy([Budget(ORG, Daily, 100, true, true), Budget(ORG, Monthly, 12, true, monthly)],
           map[KEY := ApiKey(ORG, None, None, false)])
  }

  lemma PolicyLoads(monthly: bool)
    ensures LoadConstraints(PolicyOf(monthly), ORG, KEY) == Some(if monthly then [DAILY, MONTHLY] else [DAILY])
  {
    var bs := PolicyOf(monthly).budgets;
    assert bs[1..] == [bs[1]] && [bs[1]][1..] == [];
    assert OrgLimit([], ORG, Daily) == None && OrgLimit([], ORG, Monthly) == None;
    assert OrgLimit([bs[1]], ORG, Daily) == None;
    assert OrgLimit([bs[1]], ORG, Monthly) == if monthly then Some(12) else None;
    assert OrgLimit(bs, ORG, Daily) == Some(100);
    assert OrgLimit(bs, ORG, Monthly) == if monthly then Some(12) else None;
    assert Optional(OrgScope, ORG, Daily, Some(100)) == [DAILY];
    assert monthly ==> Optional(OrgScope, ORG, Monthly, Some(12)) == [MONTHLY];
    assert [DAILY] + [MONTHLY] + [] == [DAILY, MONTHLY] && [DAILY] + [] + [] == [DAILY];
  }

  function DayKey(): CounterKey { KeyOf(ORG, DAILY, 0) }
  function MonthKey(): CounterKey { KeyOf(ORG, MONTHLY, 0) }
  function DayEnd(): Time { PeriodWindow(0, Daily).end }
  function MonthEnd(): Time { PeriodWindow(0, Monthly).end }

  /** The request OLD holds 10 on the monthly counter; nothing has been spent. */
  function StartRow(): Row { Row(OLD, KEY, MonthKey(), 10, 0, Status.Reserved) }
  function StartTables(): Tables { Tables(map[MonthKey() := Counter(0, 10, MonthEnd(), 0)], [StartRow()], [], {}) }
  function Start(): Machine { At(StartTables(), map[]) }

  lemma StartIsInitial()
    ensures Initial(Start())
  {
    var rows := StartTables().rows;
    assert rows[..0] == [];
    assert LiveSum(rows, MonthKey()) == 10 && SettledSum(rows, MonthKey()) == 0;
    assert Balanced(StartTables(), MonthKey());
  }

  /** A run given state by state. */
  lemma {:induction false} ExecSteps(ms: seq<Machine>, actions: seq<Action>)
    requires |ms| == |actions| + 1
    requires forall i :: 0 <= i < |actions| ==> Next(ms[i], actions[i]) == Some(ms[i + 1])
    ensures Exec(ms[0], actions) == Some(ms[|actions|])
  {
    if actions != [] {
      var n := |actions| - 1;
      ExecSteps(ms[..n + 1], actions[..n]);
      assert Next(ms[n], actions[n]) == Some(ms[n + 1]);
    }
  }

  function DayCounter(reserved: int): Counter { Counter(0, reserved, DayEnd(), 0) }

  /** Locking the daily counter in tables that do not have it yet: 5 is reserved on a zero seed. */
  lemma LockDay(db: Tables, input: ReserveInput)
    requires DayKey() !in db.counters && db.costs == [] && input.org == ORG && input.estimate == 5
    requires forall i :: 0 <= i < |db.rows| ==> db.rows[i].counter == MonthKey()
    ensures ReserveStep(db, Pending(map[], []), input, DAILY, 0)
         == AdmitStep(db, Pending(map[], []), input, DAILY, 0, 0)
         == Pending(map[DayKey() := DayCounter(5)], [NewRow(input, DayKey(), 5)])
  {
    var none: Delta := Pending(map[], []);
    assert Ensured(db, none.writes, DayKey(), DayEnd()) == DayCounter(0);
    assert Decide(DayCounter(0), 100, 5) == Grant(5);
    assert !Clashes(db.rows + none.rows, NewRow(input, DayKey(), 5));
    assert none.rows + [NewRow(input, DayKey(), 5)] == [NewRow(input, DayKey(), 5)];
    assert none.writes[DayKey() := DayCounter(5)] == map[DayKey() := DayCounter(5)];
  }

  /** The machine at some point of either run: transaction 1 reserves, transaction 2 finishes OLD. */
  function At(db: Tables, active: map<nat, Txn>): Machine {
    Machine(db, map[KEY := ORG], active, [])
  }

  function FinishOld(how: Finish, record: Option<CostRecord>, seen: Option<nat>, scanned: bool, locked: set<nat>): Txn {
    Finishing(OLD, how, record, seen, scanned, locked, {}, map[])
  }

  /** OLD's finish, updated: its 10 leave the monthly counter, and `settled` arrives. */
  function Finished(how: Finish, record: Option<CostRecord>): Txn {
    Finishing(OLD, how, record, Some(1), true, {0}, {0},
              map[MonthKey() := FinishCounter(StartTables().counters[MonthKey()], 10, how)])
  }

  // ----- A cost committed between seeding and commit ---------------------------

  const RESERVE: ReserveInput := ReserveInput(NEW, ORG, KEY, 5)
  const SPENT: CostRecord := CostRecord(OLD, ORG, KEY, 0, 4)

  function Reserve0(sum: Option<int>): Txn { Reserving(RESERVE, [DAILY, MONTHLY], 0, 0, sum, map[], []) }

  function Reserve1(sum: Option<int>): Txn {
    Reserving(RESERVE, [DAILY, MONTHLY], 0, 1, sum, map[DayKey() := DayCounter(5)], [NewRow(RESERVE, DayKey(), 5)])
  }

  function Reserve2(): Txn {
    Reserving(RESERVE, [DAILY, MONTHLY], 0, 2, None,
              map[DayKey() := DayCounter(5), MonthKey() := Counter(4, 5, MonthEnd(), 0)],
              [NewRow(RESERVE, DayKey(), 5), NewRow(RESERVE, MonthKey(), 5)])
  }

  function Meter(seen: Option<nat>, scanned: bool, locked: set<nat>): Txn { FinishOld(Settle(4), Some(SPENT), seen, scanned, locked) }
  function Metered(): Tables { FinishCommit(StartTables(), Finished(Settle(4), Some(SPENT))) }
  function MeteredAt(active: map<nat, Txn>): Machine { At(Metered(), active).(history := [MeterEntry()]) }

  /** The new request locks the daily counter; OLD's RecordSuccess then commits; the Reserve goes on. */
  function RaceActions(): seq<Action> {
    [BeginReserve(1, PolicyOf(true), RESERVE, 0), SumLedger(1), LockCounter(1),
     BeginMeter(2, SPENT), StartScan(2), LockRow(2, 0), EndScan(2), UpdateCounter(2, 0), CommitFinish(2),
     SumLedger(1), LockCounter(1), CommitReserve(1)]
  }

  function MeterEntry(): Entry { Entry(FinishOp(OLD, Settle(4), Some(SPENT)), FinishEnded(true)) }

  /** Summing the ledger, and locking a counter that grants, with no other transaction under way. */
  lemma AloneSums(m: Machine, t: Txn)
    requires t.Reserving? && t.next < |t.cs| && t.sum.None? && m.active == map[1 := t]
    requires LedgerSum(m.db.costs, KeyAt(t, t.next), EndAt(t, t.next)) <= INT64_MAX
    ensures Next(m, SumLedger(1))
         == Some(m.(active := map[1 := t.(sum := Some(LedgerSum(m.db.costs, KeyAt(t, t.next), EndAt(t, t.next))))]))
  {
    var t' := t.(sum := Some(LedgerSum(m.db.costs, KeyAt(t, t.next), EndAt(t, t.next))));
    assert m.active[1 := t'] == map[1 := t'];
  }

  lemma AloneLocks(m: Machine, t: Txn, grown: Txn)
    requires t.Reserving? && grown.Reserving? && t.next < |t.cs| && t.sum.Some? && m.active == map[1 := t]
    requires AdmitStep(m.db, Pending(t.writes, t.rows), t.input, t.cs[t.next], t.now, t.sum.value) == Pending(grown.writes, grown.rows)
    requires grown == t.(next := t.next + 1, sum := None, writes := grown.writes, rows := grown.rows)
    ensures Next(m, LockCounter(1)) == Some(m.(active := map[1 := grown]))
  {
    assert m.active[1 := grown] == map[1 := grown];
  }

  lemma RaceOpens()
    ensures Next(Start(), RaceActions()[0]) == Some(At(StartTables(), map[1 := Reserve0(None)]))
    ensures Next(At(StartTables(), map[1 := Reserve0(None)]), RaceActions()[1]) == Some(At(StartTables(), map[1 := Reserve0(Some(0))]))
  {
    PolicyLoads(true);
    var none: map<nat, Txn> := map[];
    assert none[1 := Reserve0(None)] == map[1 := Reserve0(None)];
    AloneSums(At(StartTables(), map[1 := Reserve0(None)]), Reserve0(None));
  }

  lemma RaceLocksDay()
    ensures Next(At(StartTables(), map[1 := Reserve0(Some(0))]), RaceActions()[2]) == Some(At(StartTables(), map[1 := Reserve1(None)]))
  {
    LockDay(StartTables(), RESERVE);
    AloneLocks(At(StartTables(), map[1 := Reserve0(Some(0))]), Reserve0(Some(0)), Reserve1(None));
  }

  /** Beside the open Reserve, OLD's RecordSuccess in the four states of its scan. */
  function Beside(t: Txn): Machine { At(StartTables(), map[1 := Reserve1(None), 2 := t]) }

  lemma BesideMoves(t: Txn, t': Txn)
    ensures Beside(t).(active := Beside(t).active[2 := t']) == Beside(t')
  {
    assert Beside(t).active[2 := t'] == Beside(t').active;
  }

  lemma RaceMeters()
    ensures Next(At(StartTables(), map[1 := Reserve1(None)]), RaceActions()[3]) == Some(Beside(Meter(None, false, {})))
    ensures Next(Beside(Meter(None, false, {})), RaceActions()[4]) == Some(Beside(Meter(Some(1), false, {})))
  {
    assert (map[1 := Reserve1(None)])[2 := Meter(None, false, {})] == Beside(Meter(None, false, {})).active;
    BesideMoves(Meter(None, false, {}), Meter(Some(1), false, {}));
  }

  lemma RaceScans()
    ensures Next(Beside(Meter(Some(1), false, {})), RaceActions()[5]) == Some(Beside(Meter(Some(1), false, {0})))
    ensures Next(Beside(Meter(Some(1), false, {0})), RaceActions()[6]) == Some(Beside(Meter(Some(1), true, {0})))
  {
    var empty: set<nat> := {};
    assert empty + {0} == {0};
    BesideMoves(Meter(Some(1), false, {}), Meter(Some(1), false, {0}));
    BesideMoves(Meter(Some(1), false, {0}), Meter(Some(1), true, {0}));
  }

  lemma RaceSettles()
    ensures Next(Beside(Meter(Some(1), true, {0})), RaceActions()[7]) == Some(Beside(Finished(Settle(4), Some(SPENT))))
    ensures Next(Beside(Finished(Settle(4), Some(SPENT))), RaceActions()[8]) == Some(MeteredAt(map[1 := Reserve1(None)]))
  {
    var meter, done := Meter(Some(1), true, {0}), Finished(Settle(4), Some(SPENT));
    var empty: set<nat> := {};
    assert empty + {0} == {0};
    assert meter.writes[MonthKey() := done.writes[MonthKey()]] == done.writes;
    BesideMoves(meter, done);
    assert Beside(done).active - {2} == map[1 := Reserve1(None)];
    assert [] + [MeterEntry()] == [MeterEntry()];
  }

  lemma StepGrants(db: Tables, d: Delta, input: ReserveInput, c: Constraint, counter: Counter, amount: int, sum: int)
    requires d.Pending? && amount != 0
    requires var k, windowEnd := KeyOf(input.org, c, 0), PeriodWindow(0, c.period).end;
             && Seeded(db, d.writes, k, windowEnd, sum) == counter
             && !Clashes(db.rows + d.rows, NewRow(input, k, amount))
    requires Decide(counter, c.limit, input.estimate) == Grant(amount) && counter.reserved + amount <= INT64_MAX
    ensures var k := KeyOf(input.org, c, 0);
            AdmitStep(db, d, input, c, 0, sum) == Pending(d.writes[k := Raised(counter, amount)], d.rows + [NewRow(input, k, amount)])
  {
  }

  lemma MeteredTables()
    ensures var db := Metered();
            && db.counters == map[MonthKey() := Counter(4, 0, MonthEnd(), 0)]
            && db.costs == [SPENT] && LedgerSum(db.costs, MonthKey(), MonthEnd()) <= 4
            && db.rows == [StartRow().(status := Settled, settled := 4)]
  {
    assert Metered().costs == [SPENT] && [SPENT][..0] == [];
  }

  /** The Reserve finds room on the monthly counter that OLD's settlement has just freed. */
  lemma MonthHasRoom(sum: int)
    ensures AdmitStep(Metered(), Pending(Reserve1(None).writes, Reserve1(None).rows), RESERVE, MONTHLY, 0, sum)
         == Pending(Reserve2().writes, Reserve2().rows)
  {
    MeteredTables();
    var d, c := Pending(Reserve1(None).writes, Reserve1(None).rows), Counter(4, 0, MonthEnd(), 0);
    assert Decide(c, 12, 5) == Grant(5);
    assert Metered().rows + d.rows == [StartRow().(status := Settled, settled := 4), NewRow(RESERVE, DayKey(), 5)];
    StepGrants(Metered(), d, RESERVE, MONTHLY, c, 5, sum);
    assert d.rows + [NewRow(RESERVE, MonthKey(), 5)] == Reserve2().rows;
    assert d.writes[MonthKey() := Raised(c, 5)] == Reserve2().writes;
  }

  /** The sum for the monthly counter; the counter exists, so it does not matter. */
  function MonthSum(): int { LedgerSum(Metered().costs, MonthKey(), MonthEnd()) }

  lemma RaceLocksMonth()
    ensures Next(MeteredAt(map[1 := Reserve1(None)]), RaceActions()[9]) == Some(MeteredAt(map[1 := Reserve1(Some(MonthSum()))]))
    ensures Next(MeteredAt(map[1 := Reserve1(Some(MonthSum()))]), RaceActions()[10]) == Some(MeteredAt(map[1 := Reserve2()]))
  {
    MeteredTables();
    AloneSums(MeteredAt(map[1 := Reserve1(None)]), Reserve1(None));
    MonthHasRoom(MonthSum());
    AloneLocks(MeteredAt(map[1 := Reserve1(Some(MonthSum()))]), Reserve1(Some(MonthSum())), Reserve2());
  }

  function RaceEnd(): Machine {
    Machine(Commit(Metered(), Pending(Reserve2().writes, Reserve2().rows)), map[KEY := ORG], map[],
            [MeterEntry(), Entry(ReserveOp(RESERVE, [DAILY, MONTHLY], 0), ReserveEnded(Allowed))])
  }

  lemma RaceCommits()
    ensures Next(MeteredAt(map[1 := Reserve2()]), RaceActions()[11]) == Some(RaceEnd())
  {
    assert (map[1 := Reserve2()]) - {1} == map[];
    assert [MeterEntry()] + [RaceEnd().history[1]] == RaceEnd().history;
  }

  lemma RaceRuns()
    ensures Exec(Start(), RaceActions()) == Some(RaceEnd())
  {
    RaceOpens();
    RaceLocksDay();
    RaceMeters();
    RaceScans();
    RaceSettles();
    RaceLocksMonth();
    RaceCommits();
    var ms := [Start(), At(StartTables(), map[1 := Reserve0(None)]), At(StartTables(), map[1 := Reserve0(Some(0))]),
               At(StartTables(), map[1 := Reserve1(None)]), Beside(Meter(None, false, {})), Beside(Meter(Some(1), false, {})),
               Beside(Meter(Some(1), false, {0})), Beside(Meter(Some(1), true, {0})), Beside(Finished(Settle(4), Some(SPENT))),
               MeteredAt(map[1 := Reserve1(None)]), MeteredAt(map[1 := Reserve1(Some(MonthSum()))]),
               MeteredAt(map[1 := Reserve2()]), RaceEnd()];
    ExecSteps(ms, RaceActions());
  }

  function MeterOp(): Op { FinishOp(OLD, Settle(4), Some(SPENT)) }
  function ReserveAgainst(): Op { ReserveOp(RESERVE, [DAILY, MONTHLY], 0) }

  /**
   * A RecordSuccess that commits after a Reserve seeded a counter from the ledger, and before it
   * locks the next one: the Reserve misses the cost on the first counter and sees its settlement
   * on the second. No order of the two transactions ends in these tables.
   */
  lemma SeedRace()
    ensures Initial(Start()) && Exec(Start(), RaceActions()) == Some(RaceEnd())
    ensures RaceEnd().db != Atomic(Atomic(Start().db, MeterOp()).0, ReserveAgainst()).0
    ensures RaceEnd().db != Atomic(Atomic(Start().db, ReserveAgainst()).0, MeterOp()).0
  {
    StartIsInitial();
    RaceRuns();
    assert RaceEnd().db.counters[DayKey()] == DayCounter(5);
    MeterFirst();
    ReserveFirst();
  }

  lemma MeterFirst()
    ensures var db := Atomic(Atomic(Start().db, MeterOp()).0, ReserveAgainst()).0;
            DayKey() in db.counters ==> db.counters[DayKey()].settled == 4
  {
    var db := Atomic(Start().db, MeterOp()).0;
    assert db.counters.Keys == {MonthKey()};
    assert !SettleOverflows(StartTables(), OLD, Settle(4));
    assert db.costs == [SPENT] && db.costs[..0] == [];
    LedgerDrift.ReserveKeepsSettled(db, RESERVE, [DAILY, MONTHLY], 0, 2, DayKey());
    SameWindowEnd(db, RESERVE, [DAILY, MONTHLY], 2);
  }

  lemma {:induction false} SameWindowEnd(db: Tables, input: ReserveInput, cs: seq<Constraint>, n: nat)
    requires n <= |cs| && DayKey() !in db.counters
    ensures var d := ReserveDelta(db, input, cs, 0, n);
            d.Pending? && DayKey() in d.writes ==> d.writes[DayKey()].windowEnd == DayEnd()
  {
    if n > 0 { SameWindowEnd(db, input, cs, n - 1); }
  }

  lemma ReserveFirst()
    ensures DayKey() !in Atomic(Atomic(Start().db, ReserveAgainst()).0, MeterOp()).0.counters
  {
    var db, cs := StartTables(), [DAILY, MONTHLY];
    LockDay(db, RESERVE);
    var d := Pending(Reserve1(None).writes, Reserve1(None).rows);
    assert ReserveDelta(db, RESERVE, cs, 0, 0) == Pending(map[], []);
    assert ReserveDelta(db, RESERVE, cs, 0, 1) == d;
    assert Ensured(db, d.writes, MonthKey(), MonthEnd()) == Counter(0, 10, MonthEnd(), 0);
    assert Decide(Counter(0, 10, MonthEnd(), 0), 12, 5) == Refuse(10);
    assert ReserveDelta(db, RESERVE, cs, 0, 2).Stopped?;
  }

  // ----- A request reserved again while it is being finished -------------------

  const AGAIN: ReserveInput := ReserveInput(OLD, ORG, KEY, 5)

  function Again0(sum: Option<int>): Txn { Reserving(AGAIN, [DAILY], 0, 0, sum, map[], []) }
  function Again1(): Txn { Reserving(AGAIN, [DAILY], 0, 1, None, map[DayKey() := DayCounter(5)], [NewRow(AGAIN, DayKey(), 5)]) }

  function Freeing(seen: Option<nat>, scanned: bool, locked: set<nat>): Txn { FinishOld(Release, None, seen, scanned, locked) }
  function Freed(): Txn { Freeing(Some(1), true, {0}) }
  function AgainTables(): Tables { Commit(StartTables(), Pending(Again1().writes, Again1().rows)) }
  function AgainEntry(): Entry { Entry(ReserveOp(AGAIN, [DAILY], 0), ReserveEnded(Allowed)) }
  function AgainAt(active: map<nat, Txn>): Machine { At(AgainTables(), active).(history := [AgainEntry()]) }

  /** OLD's release selects its live row; OLD is reserved again, on today's counter; the release goes on. */
  function ReuseActions(): seq<Action> {
    [BeginFinish(2, OLD, Release), StartScan(2), LockRow(2, 0), EndScan(2),
     BeginReserve(1, PolicyOf(false), AGAIN, 0), SumLedger(1), LockCounter(1), CommitReserve(1),
     UpdateCounter(2, 0), CommitFinish(2)]
  }

  /** OLD's release in the states of its scan. */
  function Scanning(t: Txn): Machine { At(StartTables(), map[2 := t]) }

  lemma ScanMoves(t: Txn, t': Txn)
    ensures Scanning(t).(active := Scanning(t).active[2 := t']) == Scanning(t')
  {
    assert Scanning(t).active[2 := t'] == Scanning(t').active;
  }

  lemma ReuseOpens()
    ensures Next(Start(), ReuseActions()[0]) == Some(Scanning(Freeing(None, false, {})))
    ensures Next(Scanning(Freeing(None, false, {})), ReuseActions()[1]) == Some(Scanning(Freeing(Some(1), false, {})))
  {
    var none: map<nat, Txn> := map[];
    assert none[2 := Freeing(None, false, {})] == Scanning(Freeing(None, false, {})).active;
    ScanMoves(Freeing(None, false, {}), Freeing(Some(1), false, {}));
  }

  lemma ReuseScans()
    ensures Next(Scanning(Freeing(Some(1), false, {})), ReuseActions()[2]) == Some(Scanning(Freeing(Some(1), false, {0})))
    ensures Next(Scanning(Freeing(Some(1), false, {0})), ReuseActions()[3]) == Some(Scanning(Freed()))
  {
    ScanMoves(Freeing(Some(1), false, {}), Freeing(Some(1), false, {0}));
    ScanMoves(Freeing(Some(1), false, {0}), Freed());
    var empty: set<nat> := {};
    assert empty + {0} == {0};
  }

  /** Beside OLD's release, which has selected its row, the new Reserve of OLD. */
  function Reusing(t: Txn): Machine { At(StartTables(), map[1 := t, 2 := Freed()]) }

  lemma ReuseBegins()
    ensures Next(Scanning(Freed()), ReuseActions()[4]) == Some(Reusing(Again0(None)))
    ensures Next(Reusing(Again0(None)), ReuseActions()[5]) == Some(Reusing(Again0(Some(0))))
  {
    PolicyLoads(false);
    assert (map[2 := Freed()])[1 := Again0(None)] == Reusing(Again0(None)).active;
    assert Reusing(Again0(None)).active[1 := Again0(Some(0))] == Reusing(Again0(Some(0))).active;
  }

  lemma ReuseLocks()
    ensures Next(Reusing(Again0(Some(0))), ReuseActions()[6]) == Some(Reusing(Again1()))
  {
    LockDay(StartTables(), AGAIN);
    assert Reusing(Again0(Some(0))).active[1 := Again1()] == Reusing(Again1()).active;
  }

  lemma ReuseCommits()
    ensures Next(Reusing(Again1()), ReuseActions()[7]) == Some(AgainAt(map[2 := Freed()]))
  {
    assert Reusing(Again1()).active - {1} == map[2 := Freed()];
    assert [] + [AgainEntry()] == [AgainEntry()];
  }

  function ReuseEnd(): Machine {
    Machine(FinishCommit(AgainTables(), Finished(Release, None)), map[KEY := ORG], map[],
            [AgainEntry(), Entry(FinishOp(OLD, Release, None), FinishEnded(true))])
  }

  lemma ReuseUpdates()
    ensures Next(AgainAt(map[2 := Freed()]), ReuseActions()[8]) == Some(AgainAt(map[2 := Finished(Release, None)]))
  {
    var done := Finished(Release, None);
    var empty: set<nat> := {};
    assert empty + {0} == {0};
    assert AgainTables().rows[0] == StartRow() && AgainTables().counters[MonthKey()] == StartTables().counters[MonthKey()];
    assert Freed().writes[MonthKey() := done.writes[MonthKey()]] == done.writes;
    assert (map[2 := Freed()])[2 := done] == map[2 := done];
  }

  lemma ReuseFinishes()
    ensures Next(AgainAt(map[2 := Finished(Release, None)]), ReuseActions()[9]) == Some(ReuseEnd())
  {
    assert (map[2 := Finished(Release, None)]) - {2} == map[];
    assert [AgainEntry()] + [ReuseEnd().history[1]] == ReuseEnd().history;
  }

  /**
   * SettleTx and ReleaseTx update the counters of the rows they selected, and then every row of the
   * request that is live by that time. A row that went live in between is finished without its
   * counter: what it reserved is never returned.
   */
  lemma ReusedRequestLeaks()
    ensures Initial(Start()) && Exec(Start(), ReuseActions()) == Some(ReuseEnd())
    ensures var db := ReuseEnd().db;
            && db.counters[DayKey()].reserved == 5
            && (forall i :: 0 <= i < |db.rows| ==> db.rows[i].status == Released)
            && !Conserved(db)
  {
    StartIsInitial();
    ReuseRuns();
    ReuseLeaves();
  }

  lemma ReuseRuns()
    ensures Exec(Start(), ReuseActions()) == Some(ReuseEnd())
  {
    ReuseOpens();
    ReuseScans();
    ReuseBegins();
    ReuseLocks();
    ReuseCommits();
    ReuseUpdates();
    ReuseFinishes();
    ExecSteps([Start(), Scanning(Freeing(None, false, {})), Scanning(Freeing(Some(1), false, {})),
               Scanning(Freeing(Some(1), false, {0})), Scanning(Freed()),
               Reusing(Again0(None)), Reusing(Again0(Some(0))), Reusing(Again1()), AgainAt(map[2 := Freed()]),
               AgainAt(map[2 := Finished(Release, None)]), ReuseEnd()], ReuseActions());
  }

  lemma ReuseLeaves()
    ensures var db := ReuseEnd().db;
            && DayKey() in db.counters && db.counters[DayKey()].reserved == 5
            && (forall i :: 0 <= i < |db.rows| ==> db.rows[i].status == Released)
            && !Conserved(db)
  {
    var db := ReuseEnd().db;
    assert AgainTables().rows == [StartRow(), NewRow(AGAIN, DayKey(), 5)];
    NothingLive(db.rows, DayKey());
    assert !Balanced(db, DayKey());
  }

  lemma {:induction false} NothingLive(rows: seq<Row>, k: CounterKey)
    requires forall i :: 0 <= i < |rows| ==> rows[i].status == Released
    ensures LiveSum(rows, k) == 0
  {
    if rows != [] { NothingLive(rows[..|rows| - 1], k); }
  }
}
