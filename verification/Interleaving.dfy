/**
 * Concurrent transactions on the reservation tables, one lock or update at a time, under
 * READ COMMITTED: a row, once locked or written, stays locked until its transaction commits
 * or rolls back, and a waiting statement re-reads what it waited for. As long as every commit
 * of a finish is orderly, the committed states are those the atomic transactions reach in commit order.
 */
module Interleaving {
  import opened Base
  import opened Calendar
  import opened Ledger
  import opened Conservation

  // ----- The machine ----------------------------------------------------------

  /**
   * An open transaction. `writes` are the counters it has inserted, locked or updated; no other
   * transaction can write those before it ends. A Reserve that has summed the ledger for its next
   * counter keeps the `sum` while it waits for the lock. A finish takes its snapshot of the
   * reservation rows, the first `seen`, when its query starts; `locked` are positions of rows.
   */
  datatype Txn =
    | Reserving(input: ReserveInput, cs: seq<Constraint>, now: Time, next: nat, sum: Option<int>,
                writes: map<CounterKey, Counter>, rows: seq<Row>)
    | Finishing(request: Id, how: Finish, record: Option<CostRecord>, seen: Option<nat>, scanned: bool,
                locked: set<nat>, done: set<nat>, writes: map<CounterKey, Counter>)

  /** A finish that carries a cost record is a `RecordSuccess`; without one it is a Settle or a Release. */
  datatype Op =
    | ReserveOp(input: ReserveInput, cs: seq<Constraint>, now: Time)
    | FinishOp(request: Id, how: Finish, record: Option<CostRecord>)
  datatype Verdict = ReserveEnded(outcome: Outcome) | FinishEnded(ok: bool)
  datatype Entry = Entry(op: Op, verdict: Verdict)

  /**
   * `owners` is the organization of each API key, which never changes; `history` (every transaction
   * that ended by itself) only records the run. Request ids are free: any number of transactions may
   * have the same.
   */
  datatype Machine = Machine(db: Tables, owners: map<Id, Id>, active: map<nat, Txn>, history: seq<Entry>)

  datatype Action =
    | BeginReserve(id: nat, policy: Policy, input: ReserveInput, now: Time)
    | SumLedger(id: nat)
    | LockCounter(id: nat)
    | CommitReserve(id: nat)
    | BeginFinish(id: nat, request: Id, how: Finish)
    | BeginMeter(id: nat, record: CostRecord)
    | StartScan(id: nat)
    | LockRow(id: nat, row: nat)
    | EndScan(id: nat)
    | UpdateCounter(id: nat, row: nat)
    | CommitFinish(id: nat)
    | Abort(id: nat)

  /** The counter of a Reserve's `j`th constraint, and the end of its window. */
  function KeyAt(t: Txn, j: nat): CounterKey
    requires t.Reserving? && j < |t.cs|
  {
    KeyOf(t.input.org, t.cs[j], t.now)
  }

  function EndAt(t: Txn, j: nat): Time
    requires t.Reserving? && j < |t.cs|
  {
    PeriodWindow(t.now, t.cs[j].period).end
  }

  predicate HeldByOther(m: Machine, id: nat, k: CounterKey) {
    exists other :: other in m.active && other != id && k in m.active[other].writes
  }

  predicate RowHeldByOther(m: Machine, id: nat, row: nat) {
    exists other :: other in m.active && other != id && m.active[other].Finishing? && row in m.active[other].locked
  }

  /** Another RecordSuccess has inserted the request's log row and not ended yet. */
  predicate Metering(m: Machine, request: Id) {
    exists id :: id in m.active && m.active[id].Finishing? && m.active[id].record.Some? && m.active[id].request == request
  }

  function Conclude(m: Machine, id: nat, db: Tables, op: Op, verdict: Verdict): Machine {
    m.(db := db, active := m.active - {id}, history := m.history + [Entry(op, verdict)])
  }

  /** Evaluate the SUM of the next counter's INSERT, before anything makes the statement wait. */
  function SumStep(m: Machine, id: nat, t: Txn): Option<Machine>
    requires t.Reserving?
  {
    if t.next >= |t.cs| || t.sum.Some? then None
    else
      var sum := LedgerSum(m.db.costs, KeyAt(t, t.next), EndAt(t, t.next));
      if sum > INT64_MAX then Some(Conclude(m, id, m.db, ReserveOp(t.input, t.cs, t.now), ReserveEnded(Error)))
      else Some(m.(active := m.active[id := t.(sum := Some(sum))]))
  }

  /** Insert or lock the next counter, decide, and write it; a refusal rolls the transaction back. */
  function LockStep(m: Machine, id: nat, t: Txn): Option<Machine>
    requires t.Reserving?
  {
    if t.next >= |t.cs| || t.sum.None? || HeldByOther(m, id, KeyAt(t, t.next)) then None
    else
      match AdmitStep(m.db, Pending(t.writes, t.rows), t.input, t.cs[t.next], t.now, t.sum.value)
      case Pending(writes, rows) =>
        Some(m.(active := m.active[id := t.(next := t.next + 1, sum := None, writes := writes, rows := rows)]))
      case Stopped(outcome) => Some(Conclude(m, id, m.db, ReserveOp(t.input, t.cs, t.now), ReserveEnded(outcome)))
  }

  /** UPDATE one counter for one locked reservation row; an overflow rolls the transaction back. */
  function UpdateStep(m: Machine, id: nat, t: Txn, row: nat): Option<Machine>
    requires t.Finishing?
  {
    if !t.scanned || row !in t.locked || row in t.done || row >= |m.db.rows| then None
    else
      var k := m.db.rows[row].counter;
      var t' := t.(done := t.done + {row});
      if k !in t.writes && k !in m.db.counters then Some(m.(active := m.active[id := t']))
      else if HeldByOther(m, id, k) then None
      else
        var c := if k in t.writes then t.writes[k] else m.db.counters[k];
        if t.how.Settle? && c.settled + t.how.cost > INT64_MAX
        then Some(Conclude(m, id, m.db, FinishOp(t.request, t.how, t.record), FinishEnded(false)))
        else Some(m.(active := m.active[id := t'.(writes := t.writes[k := FinishCounter(c, m.db.rows[row].amount, t.how)])]))
  }

  function Logged(db: Tables, record: Option<CostRecord>): Tables {
    if record.None? then db
    else db.(costs := db.costs + [record.value], logs := db.logs + {record.value.request})
  }

  /** Commit of a finish; its last statement updates every row that is live in the committed table by then. */
  function FinishCommit(db: Tables, t: Txn): Tables
    requires t.Finishing?
  {
    Logged(db, t.record).(counters := db.counters + t.writes, rows := FinishRows(db.rows, t.request, t.how))
  }

  /** The step an action takes; None while it is blocked or not possible. */
  function Next(m: Machine, a: Action): Option<Machine> {
    match a
    case BeginReserve(id, policy, input, now) =>
      var cs := LoadConstraints(policy, input.org, input.apiKey);
      if id in m.active || !ValidInput(input) || cs.None? || input.apiKey !in m.owners || m.owners[input.apiKey] != input.org then None
      else Some(m.(active := m.active[id := Reserving(input, cs.value, now, 0, None, map[], [])]))
    case SumLedger(id) =>
      if id in m.active && m.active[id].Reserving? then SumStep(m, id, m.active[id]) else None
    case LockCounter(id) =>
      if id in m.active && m.active[id].Reserving? then LockStep(m, id, m.active[id]) else None
    case CommitReserve(id) =>
      if id in m.active && m.active[id].Reserving? && m.active[id].next == |m.active[id].cs| then
        var t := m.active[id];
        Some(Conclude(m, id, Commit(m.db, Pending(t.writes, t.rows)), ReserveOp(t.input, t.cs, t.now), ReserveEnded(Allowed)))
      else None
    case BeginFinish(id, request, how) =>
      if id in m.active || request == NIL || (how.Settle? && how.cost < 0) then None
      else Some(m.(active := m.active[id := Finishing(request, how, None, None, false, {}, {}, map[])]))
    case BeginMeter(id, record) =>
      if id in m.active || record.request == NIL || record.total < 0 || Metering(m, record.request) then None
      else if record.request in m.db.logs then  // primary key violation: the transaction fails at once
        Some(m.(history := m.history + [Entry(FinishOp(record.request, Settle(record.total), Some(record)), FinishEnded(false))]))
      else
        Some(m.(active := m.active[id := Finishing(record.request, Settle(record.total), Some(record), None, false, {}, {}, map[])]))
    case StartScan(id) =>
      if id in m.active && m.active[id].Finishing? && m.active[id].seen.None?
      then Some(m.(active := m.active[id := m.active[id].(seen := Some(|m.db.rows|))]))
      else None
    case LockRow(id, row) =>
      if && id in m.active && m.active[id].Finishing? && !m.active[id].scanned && row < |m.db.rows|
         && m.active[id].seen.Some? && row < m.active[id].seen.value
         && Live(m.db.rows[row], m.active[id].request) && !RowHeldByOther(m, id, row)
      then Some(m.(active := m.active[id := m.active[id].(locked := m.active[id].locked + {row})]))
      else None
    case EndScan(id) =>
      if && id in m.active && m.active[id].Finishing? && m.active[id].seen.Some?
         && forall i :: 0 <= i < |m.db.rows| && i < m.active[id].seen.value && Live(m.db.rows[i], m.active[id].request)
              ==> i in m.active[id].locked
      then Some(m.(active := m.active[id := m.active[id].(scanned := true)]))
      else None
    case UpdateCounter(id, row) =>
      if id in m.active && m.active[id].Finishing? then UpdateStep(m, id, m.active[id], row) else None
    case CommitFinish(id) =>
      if && id in m.active && m.active[id].Finishing? && m.active[id].scanned && m.active[id].done == m.active[id].locked
         && forall i :: 0 <= i < |m.db.rows| && Live(m.db.rows[i], m.active[id].request) ==> !RowHeldByOther(m, id, i)
      then
        var t := m.active[id];
        Some(Conclude(m, id, FinishCommit(m.db, t), FinishOp(t.request, t.how, t.record), FinishEnded(true)))
      else None
    case Abort(id) =>
      if id in m.active then Some(m.(active := m.active - {id})) else None
  }

  function Exec(m: Machine, actions: seq<Action>): Option<Machine> {
    if actions == [] then Some(m)
    else
      var before := Exec(m, actions[..|actions| - 1]);
      if before.None? then None else Next(before.value, actions[|actions| - 1])
  }

  // ----- The atomic transactions, in commit order ------------------------------

  ghost function Atomic(db: Tables, op: Op): (Tables, Verdict) {
    match op
    case ReserveOp(input, cs, now) => (var r := ReserveWith(db, input, cs, now); (r.0, ReserveEnded(r.1)))
    case FinishOp(request, how, record) =>
      var r := if record.Some? then RecordCost(db, record.value) else FinishTx(db, request, how);
      if r.Some? then (r.value, FinishEnded(true)) else (db, FinishEnded(false))
  }

  ghost function Replay(db: Tables, history: seq<Entry>): Tables {
    if history == [] then db else Atomic(Replay(db, history[..|history| - 1]), history[|history| - 1].op).0
  }

  /** Every transaction returned what it returns when run alone at its place in the order. */
  ghost predicate Explained(db: Tables, history: seq<Entry>) {
    history == [] ||
      var n := |history| - 1;
      Explained(db, history[..n]) && Atomic(Replay(db, history[..n]), history[n].op).1 == history[n].verdict
  }

  // ----- Orderly runs ---------------------------------------------------------

  /** Every live row of the request is one whose counter the finish has updated. */
  ghost predicate AllLocked(db: Tables, t: Txn)
    requires t.Finishing?
  {
    forall i :: 0 <= i < |db.rows| && Live(db.rows[i], t.request) ==> i in t.done
  }

  /** The open Reserve has used the ledger's sum for its `j`th constraint. */
  predicate Summed(t: Txn, j: nat)
    requires t.Reserving?
  {
    j < |t.cs| && (j < t.next || (j == t.next && t.sum.Some?))
  }

  /** The cost does not change what summing the ledger means for `k`: the counter exists, and the sum still fits. */
  predicate SeedStands(db: Tables, k: CounterKey, windowEnd: Time, record: CostRecord) {
    InScope(record, k, windowEnd) && record.total != 0 ==>
      k in db.counters && LedgerSum(db.costs, k, windowEnd) + record.total <= INT64_MAX
  }

  /** The cost does not disturb the open Reserve. */
  ghost predicate SumsStand(db: Tables, t: Txn, record: CostRecord)
    requires t.Reserving?
  {
    forall j: nat :: Summed(t, j) ==> SeedStands(db, KeyAt(t, j), EndAt(t, j), record)
  }

  /**
   * The only steps that can go wrong are commits of a finish: when a row of the request went live
   * after the finish took its snapshot, or when the cost falls into a sum that an open Reserve has
   * used for a counter that did not exist.
   */
  ghost predicate Orderly(m: Machine, a: Action) {
    a.CommitFinish? && a.id in m.active && m.active[a.id].Finishing? ==>
      var t := m.active[a.id];
      && AllLocked(m.db, t)
      && (t.record.Some? ==>
            forall other :: other in m.active && m.active[other].Reserving? ==> SumsStand(m.db, m.active[other], t.record.value))
  }

  // ----- What holds of an open transaction ------------------------------------

  /** The counter's scope belongs to the counter's organization. */
  predicate Owned(owners: map<Id, Id>, k: CounterKey) {
    if k.scope == OrgScope then k.scopeId == k.org else k.scopeId in owners && owners[k.scopeId] == k.org
  }

  /** The counter an open finish has written for one of its rows. */
  ghost predicate Updated(db: Tables, t: Txn, i: nat)
    requires t.Finishing? && i < |db.rows|
  {
    var k := db.rows[i].counter;
    && k in t.writes && k in db.counters
    && t.writes[k] == FinishCounter(db.counters[k], db.rows[i].amount, t.how)
    && (t.how.Settle? ==> db.counters[k].settled + t.how.cost <= INT64_MAX)
  }

  /** A sum taken earlier still has the effect that summing now would have. */
  predicate SumGood(db: Tables, k: CounterKey, windowEnd: Time, sum: int) {
    LedgerSum(db.costs, k, windowEnd) <= INT64_MAX && (k in db.counters || sum == LedgerSum(db.costs, k, windowEnd))
  }

  ghost predicate ReserveOk(db: Tables, owners: map<Id, Id>, t: Txn)
    requires t.Reserving?
  {
    && t.next <= |t.cs| && ValidInput(t.input)
    && (forall j :: 0 <= j < |t.cs| ==> Owned(owners, KeyAt(t, j)))
    && ReserveDelta(db, t.input, t.cs, t.now, t.next) == Pending(t.writes, t.rows)
    && (t.sum.Some? ==> t.next < |t.cs| && SumGood(db, KeyAt(t, t.next), EndAt(t, t.next), t.sum.value))
  }

  ghost predicate FinishOk(db: Tables, t: Txn)
    requires t.Finishing?
  {
    && t.request != NIL && (t.how.Settle? ==> t.how.cost >= 0)
    && (t.record.Some? ==>
          var r := t.record.value;
          r.request == t.request && t.how == Settle(r.total) && r.request !in db.logs)
    && (forall i :: i in t.locked ==> i < |db.rows| && Live(db.rows[i], t.request))
    && (t.seen.Some? ==> t.seen.value <= |db.rows|)
    && (t.scanned ==> t.seen.Some? && forall i :: 0 <= i < t.seen.value && Live(db.rows[i], t.request) ==> i in t.locked)
    && t.done <= t.locked
    && (forall i :: i in t.done ==> Updated(db, t, i))
    && (forall k :: k in t.writes ==> exists i :: i in t.done && db.rows[i].counter == k)
  }

  /** What an open transaction has done so far is what it would do on the committed tables as they are now. */
  ghost predicate TxnOk(db: Tables, owners: map<Id, Id>, t: Txn) {
    if t.Reserving? then ReserveOk(db, owners, t) else FinishOk(db, t)
  }

  ghost predicate Apart(s: Txn, t: Txn) {
    && s.writes.Keys !! t.writes.Keys
    && (s.Finishing? && t.Finishing? ==>
          && s.locked !! t.locked
          && (s.record.Some? && t.record.Some? ==> s.request != t.request))
  }

  ghost predicate Sound(m: Machine) {
    && Conserved(m.db)
    && (forall id :: id in m.active ==> TxnOk(m.db, m.owners, m.active[id]))
    && (forall id, other :: id in m.active && other in m.active && id != other ==> Apart(m.active[id], m.active[other]))
  }

  // ----- A commit does not disturb the other open transactions -----------------

  predicate Agree(a: Tables, b: Tables, k: CounterKey) {
    (k in a.counters <==> k in b.counters) && (k in a.counters ==> a.counters[k] == b.counters[k])
  }

  /** The counters a Reserve has locked after `n` constraints. */
  function LockedKeys(org: Id, cs: seq<Constraint>, now: Time, n: nat): set<CounterKey>
    requires n <= |cs|
  {
    if n == 0 then {} else LockedKeys(org, cs, now, n - 1) + {KeyOf(org, cs[n - 1], now)}
  }

  lemma {:induction false} DeltaKeys(db: Tables, input: ReserveInput, cs: seq<Constraint>, now: Time, n: nat)
    requires n <= |cs| && ReserveDelta(db, input, cs, now, n).Pending?
    ensures ReserveDelta(db, input, cs, now, n).writes.Keys == LockedKeys(input.org, cs, now, n)
  {
    if n > 0 {
      DeltaKeys(db, input, cs, now, n - 1);
      StepKeys(db, ReserveDelta(db, input, cs, now, n - 1), input, cs[n - 1], now);
    }
  }

  lemma StepKeys(db: Tables, d: Delta, input: ReserveInput, c: Constraint, now: Time)
    requires d.Pending? && ReserveStep(db, d, input, c, now).Pending?
    ensures ReserveStep(db, d, input, c, now).writes.Keys == d.writes.Keys + {KeyOf(input.org, c, now)}
  {
  }

  lemma {:induction false} LockedKeysMember(org: Id, cs: seq<Constraint>, now: Time, n: nat, j: nat)
    requires j < n <= |cs|
    ensures KeyOf(org, cs[j], now) in LockedKeys(org, cs, now, n)
  {
    if j < n - 1 { LockedKeysMember(org, cs, now, n - 1, j); }
  }

  /** Summing the ledger for `k` means the same in both tables. */
  predicate SameSeed(a: Tables, b: Tables, k: CounterKey, windowEnd: Time) {
    var s, t := LedgerSum(a.costs, k, windowEnd), LedgerSum(b.costs, k, windowEnd);
    (s <= INT64_MAX <==> t <= INT64_MAX) && ((k in a.counters && k in b.counters) || s == t)
  }

  /** A row of the request on `k` clashes in both tables or in neither. */
  ghost predicate SameSlots(a: Tables, b: Tables, request: Id, k: CounterKey) {
    forall row: Row :: row.request == request && row.counter == k ==> (Clashes(a.rows, row) <==> Clashes(b.rows, row))
  }

  lemma StepLocal(a: Tables, b: Tables, d: Delta, input: ReserveInput, c: Constraint, now: Time)
    requires var k := KeyOf(input.org, c, now);
             SameSeed(a, b, k, PeriodWindow(now, c.period).end) && Agree(a, b, k) && SameSlots(a, b, input.request, k)
    requires d.Pending?
    ensures ReserveStep(a, d, input, c, now) == ReserveStep(b, d, input, c, now)
  {
    forall row: Row | row.request == input.request && row.counter == KeyOf(input.org, c, now)
      ensures Clashes(a.rows + d.rows, row) <==> Clashes(b.rows + d.rows, row)
    {
      ClashesConcat(a.rows, d.rows, row);
      ClashesConcat(b.rows, d.rows, row);
    }
  }

  lemma ClashesConcat(rows: seq<Row>, own: seq<Row>, row: Row)
    ensures Clashes(rows + own, row) <==> Clashes(rows, row) || Clashes(own, row)
  {
    var all := rows + own;
    if i :| 0 <= i < |rows| && SameSlot(rows[i], row) { assert all[i] == rows[i]; }
    if i :| 0 <= i < |own| && SameSlot(own[i], row) { assert all[|rows| + i] == own[i]; }
    if i :| 0 <= i < |all| && SameSlot(all[i], row) {
      assert all[i] == if i < |rows| then rows[i] else own[i - |rows|];
    }
  }

  /** A Reserve depends only on the counters it locks, the sums it used, and the slots of its own request. */
  lemma {:induction false} DeltaLocal(a: Tables, b: Tables, input: ReserveInput, cs: seq<Constraint>, now: Time, n: nat)
    requires n <= |cs|
    requires forall j :: 0 <= j < n ==>
               var k := KeyOf(input.org, cs[j], now);
               SameSeed(a, b, k, PeriodWindow(now, cs[j].period).end) && SameSlots(a, b, input.request, k)
    requires forall k :: k in LockedKeys(input.org, cs, now, n) ==> Agree(a, b, k)
    ensures ReserveDelta(a, input, cs, now, n) == ReserveDelta(b, input, cs, now, n)
  {
    if n > 0 {
      DeltaLocal(a, b, input, cs, now, n - 1);
      var d := ReserveDelta(a, input, cs, now, n - 1);
      if d.Pending? { StepLocal(a, b, d, input, cs[n - 1], now); }
    }
  }

  /** `after` differs from `before` only where a transaction of `request` that wrote `writes` may have changed it. */
  ghost predicate Changed(before: Tables, after: Tables, owners: map<Id, Id>, writes: map<CounterKey, Counter>, request: Id) {
    && before.logs <= after.logs <= before.logs + {request} && |before.rows| <= |after.rows|
    && before.counters.Keys <= after.counters.Keys
    && (forall k :: k !in writes ==> Agree(before, after, k))
    && (forall i :: 0 <= i < |before.rows| ==>
          && after.rows[i].request == before.rows[i].request && after.rows[i].counter == before.rows[i].counter
          && (!Live(before.rows[i], request) ==> after.rows[i] == before.rows[i]))
    && (forall i :: |before.rows| <= i < |after.rows| ==>
          after.rows[i].request == request && after.rows[i].counter in writes && Owned(owners, after.rows[i].counter))
  }

  /** What was inserted under other counters leaves the slots of `k` alone, whoever the request belongs to. */
  lemma SlotsKept(before: Tables, after: Tables, owners: map<Id, Id>, writes: map<CounterKey, Counter>, request: Id, own: Id, k: CounterKey)
    requires Changed(before, after, owners, writes, request) && k !in writes && Owned(owners, k)
    ensures SameSlots(before, after, own, k)
  {
    forall row: Row | row.request == own && row.counter == k ensures Clashes(before.rows, row) <==> Clashes(after.rows, row) {
      if i :| 0 <= i < |before.rows| && SameSlot(before.rows[i], row) { assert SameSlot(after.rows[i], row); }
      if i :| 0 <= i < |after.rows| && SameSlot(after.rows[i], row) {
        assert i < |before.rows| && SameSlot(before.rows[i], row);
      }
    }
  }

  lemma OtherReserveKept(before: Tables, after: Tables, owners: map<Id, Id>, writes: map<CounterKey, Counter>, request: Id, t: Txn)
    requires Changed(before, after, owners, writes, request)
    requires t.Reserving? && ReserveOk(before, owners, t) && t.writes.Keys !! writes.Keys
    requires forall j: nat :: Summed(t, j) ==> SameSeed(before, after, KeyAt(t, j), EndAt(t, j))
    ensures ReserveOk(after, owners, t)
  {
    DeltaKeys(before, t.input, t.cs, t.now, t.next);
    forall j | 0 <= j < t.next
      ensures var k := KeyOf(t.input.org, t.cs[j], t.now);
              SameSeed(before, after, k, PeriodWindow(t.now, t.cs[j].period).end) && SameSlots(before, after, t.input.request, k)
    {
      assert Summed(t, j);
      LockedKeysMember(t.input.org, t.cs, t.now, t.next, j);
      SlotsKept(before, after, owners, writes, request, t.input.request, KeyAt(t, j));
    }
    DeltaLocal(before, after, t.input, t.cs, t.now, t.next);
    if t.sum.Some? { assert Summed(t, t.next); }
  }

  lemma OtherFinishKept(before: Tables, after: Tables, owners: map<Id, Id>, writes: map<CounterKey, Counter>, request: Id, t: Txn)
    requires Changed(before, after, owners, writes, request)
    requires t.Finishing? && FinishOk(before, t) && t.writes.Keys !! writes.Keys
    requires forall i :: i in t.locked ==> after.rows[i] == before.rows[i]
    requires forall i :: 0 <= i < |before.rows| && Live(after.rows[i], t.request) ==> Live(before.rows[i], t.request)
    requires t.record.Some? ==> t.request !in after.logs
    ensures FinishOk(after, t)
  {
    forall i | i in t.done ensures Updated(after, t, i) {
      assert Updated(before, t, i) && Agree(before, after, before.rows[i].counter);
    }
    forall k | k in t.writes ensures exists i :: i in t.done && after.rows[i].counter == k {
      var i :| i in t.done && before.rows[i].counter == k;
      assert after.rows[i].counter == k;
    }
  }

  // ----- What a commit does is what the atomic transaction does -----------------

  lemma LiveCounterWritten(db: Tables, t: Txn, k: CounterKey)
    requires Conserved(db) && t.Finishing? && FinishOk(db, t) && AllLocked(db, t)
    ensures HasLive(db.rows, t.request, k) <==> k in t.writes
    ensures k in t.writes ==>
              && k in db.counters
              && t.writes[k] == FinishCounter(db.counters[k], Held(db.rows, t.request, k), t.how)
              && (t.how.Settle? ==> db.counters[k].settled + t.how.cost <= INT64_MAX)
  {
    if HasLive(db.rows, t.request, k) {
      var i :| 0 <= i < |db.rows| && Live(db.rows[i], t.request) && db.rows[i].counter == k;
      assert Updated(db, t, i);
    }
    if k in t.writes {
      var i :| i in t.done && db.rows[i].counter == k;
      assert Updated(db, t, i) && Live(db.rows[i], t.request);
      HeldIsTheRow(db.rows, i, k);
    }
  }

  lemma CountersAll(db: Tables, logged: Tables, t: Txn)
    requires t.Finishing? && logged.counters == db.counters && logged.rows == db.rows
    requires forall k :: k in t.writes ==>
               k in db.counters && t.writes[k] == FinishCounter(db.counters[k], Held(db.rows, t.request, k), t.how)
    requires forall k :: HasLive(db.rows, t.request, k) <==> k in t.writes
    ensures FinishCounters(logged, t.request, t.how) == db.counters + t.writes
  {
  }

  /** With every live row updated, what is committed is the effect of the atomic finish. */
  lemma FinishWritesAll(db: Tables, t: Txn)
    requires Conserved(db) && t.Finishing? && FinishOk(db, t) && AllLocked(db, t)
    ensures FinishTx(Logged(db, t.record), t.request, t.how) == Some(FinishCommit(db, t))
  {
    forall k
      ensures HasLive(db.rows, t.request, k) <==> k in t.writes
      ensures k in t.writes ==>
                && k in db.counters
                && t.writes[k] == FinishCounter(db.counters[k], Held(db.rows, t.request, k), t.how)
                && (t.how.Settle? ==> db.counters[k].settled + t.how.cost <= INT64_MAX)
    {
      LiveCounterWritten(db, t, k);
    }
    CountersAll(db, Logged(db, t.record), t);
  }

  /** A live row that the finish has not updated makes its commit differ from the atomic finish. */
  lemma MissedRowShows(db: Tables, t: Txn, i: nat)
    requires Conserved(db) && t.Finishing? && FinishOk(db, t)
    requires i < |db.rows| && Live(db.rows[i], t.request) && i !in t.done
    ensures FinishTx(Logged(db, t.record), t.request, t.how) != Some(FinishCommit(db, t))
  {
    var k := db.rows[i].counter;
    RowCounterFresh(db, t, i);
    HeldIsTheRow(db.rows, i, k);
    ClampNeverFires(db, i);
    assert HasLive(Logged(db, t.record).rows, t.request, k);
    var r := FinishTx(Logged(db, t.record), t.request, t.how);
    if r.Some? {
      assert r.value.counters[k].reserved == db.counters[k].reserved - db.rows[i].amount;
      assert FinishCommit(db, t).counters[k] == db.counters[k];
    }
  }

  /** Committing a finish is the atomic finish exactly when every live row of the request has been locked and updated. */
  lemma FinishAtomicExactly(db: Tables, t: Txn)
    requires Conserved(db) && t.Finishing? && FinishOk(db, t)
    ensures FinishTx(Logged(db, t.record), t.request, t.how) == Some(FinishCommit(db, t)) <==> AllLocked(db, t)
  {
    if AllLocked(db, t) {
      FinishWritesAll(db, t);
    } else {
      var i :| 0 <= i < |db.rows| && Live(db.rows[i], t.request) && i !in t.done;
      MissedRowShows(db, t, i);
    }
  }

  /** A finish that has scanned and updated misses only rows that were committed after its snapshot. */
  lemma MissedRowsAreLate(db: Tables, t: Txn, i: nat)
    requires t.Finishing? && FinishOk(db, t) && t.scanned && t.done == t.locked
    requires i < |db.rows| && Live(db.rows[i], t.request) && i !in t.done
    ensures t.seen.Some? && i >= t.seen.value
  {
  }

  /** An overflow met on one row is the overflow that makes the atomic finish fail. */
  lemma OverflowFails(db: Tables, t: Txn, row: nat)
    requires Conserved(db) && t.Finishing? && FinishOk(db, t) && row in t.locked && row !in t.done
    requires t.how.Settle? && db.rows[row].counter in db.counters
    requires db.counters[db.rows[row].counter].settled + t.how.cost > INT64_MAX
    ensures FinishTx(Logged(db, t.record), t.request, t.how).None?
  {
    assert HasLive(db.rows, t.request, db.rows[row].counter);
  }

  lemma LiveOnlyOnce(rows: seq<Row>, request: Id, i: nat, j: nat)
    requires UniqueSlots(rows) && i < |rows| && j < |rows|
    requires Live(rows[i], request) && Live(rows[j], request) && rows[i].counter == rows[j].counter
    ensures i == j
  {
    assert SameSlot(rows[i], rows[j]) && SameSlot(rows[j], rows[i]);
  }

  /** The counter of a row not yet updated has not been written by the transaction. */
  lemma RowCounterFresh(db: Tables, t: Txn, row: nat)
    requires Conserved(db) && t.Finishing? && FinishOk(db, t) && row < |db.rows| && Live(db.rows[row], t.request) && row !in t.done
    ensures db.rows[row].counter !in t.writes && db.rows[row].counter in db.counters
  {
    var k := db.rows[row].counter;
    if k in t.writes {
      var i :| i in t.done && db.rows[i].counter == k;
      LiveOnlyOnce(db.rows, t.request, i, row);
    }
  }
}
