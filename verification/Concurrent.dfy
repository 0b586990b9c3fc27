/** The bounds of `Overspend` and `LedgerDrift` for concurrent transactions. */
module Concurrent {
  import opened Base
  import opened Calendar
  import opened Ledger
  import opened Conservation
  import opened Interleaving
  import opened Serializability
  import Overspend
  import LedgerDrift

  // ----- What concurrent transactions started from ----------------------------------

  /** The constraints a Reserve walks are those that some policy puts in force. */
  ghost predicate Loaded(input: ReserveInput, cs: seq<Constraint>) {
    ValidInput(input) && exists policy :: LoadConstraints(policy, input.org, input.apiKey) == Some(cs)
  }

  predicate Charged(record: Option<CostRecord>) {
    record.Some? ==> record.value.total >= 0
  }

  ghost predicate TxnFounded(t: Txn) {
    match t
    case Reserving(input, cs, _, _, _, _, _) => Loaded(input, cs)
    case Finishing(_, _, record, _, _, _, _, _) => Charged(record)
  }

  ghost predicate OpFounded(op: Op) {
    match op
    case ReserveOp(input, cs, _) => Loaded(input, cs)
    case FinishOp(_, _, record) => Charged(record)
  }

  ghost predicate Founded(m: Machine) {
    && (forall id :: id in m.active ==> TxnFounded(m.active[id]))
    && (forall i :: 0 <= i < |m.history| ==> OpFounded(m.history[i].op))
  }

  lemma BeginFounded(m: Machine, id: nat, t: Txn)
    requires Founded(m) && TxnFounded(t)
    ensures Founded(m.(active := m.active[id := t]))
  {
  }

  lemma EndFounded(m: Machine, id: nat, db: Tables, op: Op, verdict: Verdict)
    requires Founded(m) && OpFounded(op)
    ensures Founded(Conclude(m, id, db, op, verdict))
  {
  }

  lemma ReserveFounded(m: Machine, id: nat, policy: Policy, input: ReserveInput, now: Time)
    requires Founded(m) && Next(m, BeginReserve(id, policy, input, now)).Some?
    ensures Founded(Next(m, BeginReserve(id, policy, input, now)).value)
  {
    var cs := LoadConstraints(policy, input.org, input.apiKey);
    BeginFounded(m, id, Reserving(input, cs.value, now, 0, None, map[], []));
  }

  lemma LockFounded(m: Machine, id: nat)
    requires Founded(m) && Next(m, LockCounter(id)).Some?
    ensures Founded(Next(m, LockCounter(id)).value)
  {
    var t := m.active[id];
    match AdmitStep(m.db, Pending(t.writes, t.rows), t.input, t.cs[t.next], t.now, t.sum.value)
    case Pending(writes, rows) => BeginFounded(m, id, t.(next := t.next + 1, sum := None, writes := writes, rows := rows));
    case Stopped(outcome) => EndFounded(m, id, m.db, ReserveOp(t.input, t.cs, t.now), ReserveEnded(outcome));
  }

  lemma SumFounded(m: Machine, id: nat)
    requires Founded(m) && Next(m, SumLedger(id)).Some?
    ensures Founded(Next(m, SumLedger(id)).value)
  {
    var t := m.active[id];
    var sum := LedgerSum(m.db.costs, KeyAt(t, t.next), EndAt(t, t.next));
    if sum > INT64_MAX { EndFounded(m, id, m.db, ReserveOp(t.input, t.cs, t.now), ReserveEnded(Error)); }
    else { BeginFounded(m, id, t.(sum := Some(sum))); }
  }

  lemma UpdateFounded(m: Machine, id: nat, row: nat)
    requires Founded(m) && Next(m, UpdateCounter(id, row)).Some?
    ensures Founded(Next(m, UpdateCounter(id, row)).value)
  {
    var t, next := m.active[id], Next(m, UpdateCounter(id, row)).value;
    if id in next.active {
      BeginFounded(m, id, next.active[id]);
    } else {
      EndFounded(m, id, m.db, FinishOp(t.request, t.how, t.record), FinishEnded(false));
    }
  }

  lemma NextFounded(m: Machine, a: Action)
    requires Founded(m) && Next(m, a).Some?
    ensures Founded(Next(m, a).value)
  {
    match a
    case BeginReserve(id, policy, input, now) => ReserveFounded(m, id, policy, input, now);
    case SumLedger(id) => SumFounded(m, id);
    case LockCounter(id) => LockFounded(m, id);
    case CommitReserve(id) =>
      var t := m.active[id];
      EndFounded(m, id, Commit(m.db, Pending(t.writes, t.rows)), ReserveOp(t.input, t.cs, t.now), ReserveEnded(Allowed));
    case BeginFinish(id, request, how) => BeginFounded(m, id, Finishing(request, how, None, None, false, {}, {}, map[]));
    case BeginMeter(id, record) =>
    case StartScan(id) => BeginFounded(m, id, m.active[id].(seen := Some(|m.db.rows|)));
    case LockRow(id, row) => BeginFounded(m, id, m.active[id].(locked := m.active[id].locked + {row}));
    case EndScan(id) => BeginFounded(m, id, m.active[id].(scanned := true));
    case UpdateCounter(id, row) => UpdateFounded(m, id, row);
    case CommitFinish(id) =>
      var t := m.active[id];
      EndFounded(m, id, FinishCommit(m.db, t), FinishOp(t.request, t.how, t.record), FinishEnded(true));
    case Abort(id) =>
  }

  lemma {:induction false} RunFounded(m: Machine, actions: seq<Action>)
    requires m.active == map[] && m.history == [] && Exec(m, actions).Some?
    ensures Founded(Exec(m, actions).value)
  {
    if actions != [] {
      var n := |actions| - 1;
      RunFounded(m, actions[..n]);
      NextFounded(Exec(m, actions[..n]).value, actions[n]);
    }
  }

  // ----- The history as a run of atomic transactions ----------------------------------

  /** `e` is the transaction `op`, for some policy that loads its constraints. */
  ghost predicate Corresponds(op: Op, e: Event) {
    match op
    case ReserveOp(input, cs, now) =>
      e.Admit? && e.input == input && e.now == now && LoadConstraints(e.policy, input.org, input.apiKey) == Some(cs)
    case FinishOp(request, how, record) => e == if record.Some? then Meter(record.value) else Close(request, how)
  }

  lemma OpAsEvent(op: Op) returns (e: Event)
    requires OpFounded(op)
    ensures Corresponds(op, e) && WellTyped(e) && forall db :: Apply(db, e) == Atomic(db, op).0
  {
    match op
    case ReserveOp(input, cs, now) =>
      var policy :| LoadConstraints(policy, input.org, input.apiKey) == Some(cs);
      e := Admit(policy, input, now);
    case FinishOp(request, how, record) =>
      e := if record.Some? then Meter(record.value) else Close(request, how);
  }

  predicate OpValid(op: Op) {
    op.ReserveOp? ==> ValidInput(op.input)
  }

  ghost predicate AsRun(history: seq<Entry>, es: seq<Event>) {
    |es| == |history| && forall i :: 0 <= i < |es| ==> OpValid(history[i].op) && Corresponds(history[i].op, es[i]) && WellTyped(es[i])
  }

  lemma {:induction false} HistoryAsRun(db: Tables, history: seq<Entry>) returns (es: seq<Event>)
    requires forall i :: 0 <= i < |history| ==> OpFounded(history[i].op)
    ensures AsRun(history, es) && Run(db, es) == Replay(db, history)
  {
    if history == [] {
      es := [];
    } else {
      var n := |history| - 1;
      var earlier := HistoryAsRun(db, history[..n]);
      var e := OpAsEvent(history[n].op);
      es := earlier + [e];
      assert es[..n] == earlier;
    }
  }

  /** The committed tables of any orderly interleaving are those of a run of atomic transactions. */
  lemma InterleavingAsRun(m: Machine, actions: seq<Action>) returns (es: seq<Event>)
    requires Initial(m) && OrderlyRun(m, actions) && Exec(m, actions).Some?
    ensures AsRun(Exec(m, actions).value.history, es) && Exec(m, actions).value.db == Run(m.db, es)
  {
    InterleavingRefinesAtomic(m, actions);
    RunFounded(m, actions);
    es := HistoryAsRun(m.db, Exec(m, actions).value.history);
  }

  /** Whatever list of atomic transactions corresponds to the history, it runs to the same tables. */
  lemma {:induction false} AsRunReplays(db: Tables, history: seq<Entry>, es: seq<Event>)
    requires AsRun(history, es)
    ensures Run(db, es) == Replay(db, history)
  {
    if es != [] {
      var n := |es| - 1;
      assert Corresponds(history[n].op, es[n]);
      AsRunReplays(db, history[..n], es[..n]);
      SameEffect(Replay(db, history[..n]), history[n].op, es[n]);
    }
  }

  lemma SameEffect(db: Tables, op: Op, e: Event)
    requires OpValid(op) && Corresponds(op, e)
    ensures Apply(db, e) == Atomic(db, op).0
  {
  }

  // ----- The bounds ---------------------------------------------------------------

  /** Concurrency does not weaken the bound on overspending. */
  lemma ConcurrentOverspend(m: Machine, actions: seq<Action>, es: seq<Event>, k: CounterKey, limit: int)
    requires Initial(m) && Overspend.Empty(m.db) && OrderlyRun(m, actions) && Exec(m, actions).Some?
    requires AsRun(Exec(m, actions).value.history, es) && Overspend.Honest(m.db, es, k, limit)
    requires 0 <= limit <= INT64_MAX && k in Exec(m, actions).value.db.counters
    ensures Exec(m, actions).value.db == Run(m.db, es)
    ensures var c := Exec(m, actions).value.db.counters[k];
            c.settled + c.reserved <= Overspend.Exposure(m.db, es, k) <= Max(Max(limit, c.seed), Overspend.LargestCapped(m.db, es, k))
  {
    InterleavingRefinesAtomic(m, actions);
    AsRunReplays(m.db, Exec(m, actions).value.history, es);
    Overspend.OverspendBound(m.db, es, k, limit);
  }

  /** Nor does it change by how much a counter can differ from the ledger. */
  lemma ConcurrentDrift(m: Machine, actions: seq<Action>, es: seq<Event>, k: CounterKey)
    requires Initial(m) && Overspend.Empty(m.db) && OrderlyRun(m, actions) && Exec(m, actions).Some?
    requires AsRun(Exec(m, actions).value.history, es) && k in Exec(m, actions).value.db.counters
    ensures Exec(m, actions).value.db == Run(m.db, es)
    ensures LedgerDrift.Drift(Exec(m, actions).value.db, k)
         == LedgerDrift.TotalUnreserved(m.db, es, k) - LedgerDrift.TotalUnrecorded(m.db, es, k)
  {
    InterleavingRefinesAtomic(m, actions);
    AsRunReplays(m.db, Exec(m, actions).value.history, es);
    LedgerDrift.RunDrift(m.db, es, k);
  }
}
