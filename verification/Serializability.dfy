/** Orderly interleavings of the reservation transactions are equivalent to running them in commit order. */
module Serializability {
  import opened Base
  import opened Ledger
  import opened Conservation
  import opened Interleaving
  import Calendar
  import Constraints

  // ----- Rebuilding the invariant ---------------------------------------------

  /** The transaction `id` moves from its old state, if it had one, to `t`; the tables do not change. */
  lemma MoveSound(m: Machine, id: nat, t: Txn)
    requires Sound(m) && TxnOk(m.db, m.owners, t)
    requires forall other :: other in m.active && other != id ==> Apart(m.active[other], t)
    ensures Sound(m.(active := m.active[id := t]))
  {
    var m' := m.(active := m.active[id := t]);
    forall i | i in m'.active ensures TxnOk(m'.db, m'.owners, m'.active[i]) {
      if i != id { assert TxnOk(m.db, m.owners, m.active[i]); }
    }
    forall i, j | i in m'.active && j in m'.active && i != j ensures Apart(m'.active[i], m'.active[j]) {
      if i != id && j != id { assert Apart(m.active[i], m.active[j]); }
    }
  }

  /** The transaction `id` ends and leaves the tables as `db`, which suits all the others. */
  lemma EndSound(m: Machine, id: nat, db: Tables, history: seq<Entry>)
    requires Sound(m) && id in m.active && Conserved(db)
    requires forall other :: other in m.active && other != id ==> TxnOk(db, m.owners, m.active[other])
    ensures Sound(m.(db := db, active := m.active - {id}, history := history))
  {
  }

  // ----- Reserve --------------------------------------------------------------

  lemma BeginReserveSound(m: Machine, id: nat, policy: Policy, input: ReserveInput, now: Calendar.Time)
    requires Sound(m) && Next(m, BeginReserve(id, policy, input, now)).Some?
    ensures Sound(Next(m, BeginReserve(id, policy, input, now)).value)
  {
    var cs := LoadConstraints(policy, input.org, input.apiKey).value;
    var t := Reserving(input, cs, now, 0, None, map[], []);
    forall j | 0 <= j < |cs| ensures Owned(m.owners, KeyAt(t, j)) {
      Constraints.LoadedExactly(policy, input.org, input.apiKey, cs[j]);
    }
    MoveSound(m, id, t);
  }

  lemma SumSound(m: Machine, id: nat)
    requires Sound(m) && Next(m, SumLedger(id)).Some?
    ensures var m' := Next(m, SumLedger(id)).value;
            Sound(m') && Explains(m, m')
  {
    var t := m.active[id];
    assert TxnOk(m.db, m.owners, t);
    if LedgerSum(m.db.costs, KeyAt(t, t.next), EndAt(t, t.next)) > INT64_MAX {
      SumOverflows(m.db, m.owners, t);
      LockStopped(m, id, t);
    } else {
      SumTaken(m, id, t);
    }
  }

  lemma SumOverflows(db: Tables, owners: map<Id, Id>, t: Txn)
    requires t.Reserving? && ReserveOk(db, owners, t) && t.next < |t.cs|
    requires LedgerSum(db.costs, KeyAt(t, t.next), EndAt(t, t.next)) > INT64_MAX
    ensures ReserveDelta(db, t.input, t.cs, t.now, t.next + 1) == Stopped(Error)
  {
    assert ReserveStep(db, Pending(t.writes, t.rows), t.input, t.cs[t.next], t.now) == Stopped(Error);
  }

  lemma SumTaken(m: Machine, id: nat, t: Txn)
    requires Sound(m) && id in m.active && m.active[id] == t && t.Reserving? && t.next < |t.cs|
    requires LedgerSum(m.db.costs, KeyAt(t, t.next), EndAt(t, t.next)) <= INT64_MAX
    ensures Sound(m.(active := m.active[id := t.(sum := Some(LedgerSum(m.db.costs, KeyAt(t, t.next), EndAt(t, t.next))))]))
  {
    var t' := t.(sum := Some(LedgerSum(m.db.costs, KeyAt(t, t.next), EndAt(t, t.next))));
    assert TxnOk(m.db, m.owners, t);
    forall j | 0 <= j < |t'.cs| ensures Owned(m.owners, KeyAt(t', j)) { assert Owned(m.owners, KeyAt(t, j)); }
    forall other | other in m.active && other != id ensures Apart(m.active[other], t') {
      assert Apart(m.active[other], t);
    }
    MoveSound(m, id, t');
  }

  lemma LockStopped(m: Machine, id: nat, t: Txn)
    requires Sound(m) && id in m.active && m.active[id] == t && t.Reserving? && t.next < |t.cs|
    requires ReserveDelta(m.db, t.input, t.cs, t.now, t.next + 1).Stopped?
    ensures var outcome := ReserveDelta(m.db, t.input, t.cs, t.now, t.next + 1).outcome;
            var m' := Conclude(m, id, m.db, ReserveOp(t.input, t.cs, t.now), ReserveEnded(outcome));
            Sound(m') && Explains(m, m')
  {
    StoppedStays(m.db, t.input, t.cs, t.now, t.next + 1, |t.cs|);
    var outcome := ReserveDelta(m.db, t.input, t.cs, t.now, t.next + 1).outcome;
    var e := Entry(ReserveOp(t.input, t.cs, t.now), ReserveEnded(outcome));
    assert Atomic(m.db, e.op) == (m.db, e.verdict);
    EndSound(m, id, m.db, m.history + [e]);
  }

  lemma LockMoved(m: Machine, id: nat, t: Txn, t': Txn)
    requires Sound(m) && id in m.active && m.active[id] == t && t.Reserving? && t.next < |t.cs|
    requires !HeldByOther(m, id, KeyAt(t, t.next))
    requires t'.Reserving? && t' == t.(next := t.next + 1, sum := None, writes := t'.writes, rows := t'.rows)
    requires ReserveDelta(m.db, t.input, t.cs, t.now, t.next + 1) == Pending(t'.writes, t'.rows)
    requires t'.writes.Keys == t.writes.Keys + {KeyAt(t, t.next)}
    ensures Sound(m.(active := m.active[id := t']))
  {
    assert TxnOk(m.db, m.owners, t);
    forall j | 0 <= j < |t'.cs| ensures Owned(m.owners, KeyAt(t', j)) { assert Owned(m.owners, KeyAt(t, j)); }
    forall other | other in m.active && other != id ensures Apart(m.active[other], t') {
      assert Apart(m.active[other], t);
      assert KeyAt(t, t.next) !in m.active[other].writes;
    }
    MoveSound(m, id, t');
  }

  /** With a sum that is still good, locking the counter does what the atomic turn does now. */
  lemma GoodSumStep(db: Tables, owners: map<Id, Id>, t: Txn)
    requires t.Reserving? && ReserveOk(db, owners, t) && t.sum.Some?
    ensures AdmitStep(db, Pending(t.writes, t.rows), t.input, t.cs[t.next], t.now, t.sum.value)
         == ReserveStep(db, Pending(t.writes, t.rows), t.input, t.cs[t.next], t.now)
         == ReserveDelta(db, t.input, t.cs, t.now, t.next + 1)
  {
  }

  lemma LockSound(m: Machine, id: nat)
    requires Sound(m) && id in m.active && m.active[id].Reserving? && LockStep(m, id, m.active[id]).Some?
    ensures var m' := LockStep(m, id, m.active[id]).value;
            Sound(m') && Explains(m, m')
  {
    var t := m.active[id];
    assert TxnOk(m.db, m.owners, t);
    GoodSumStep(m.db, m.owners, t);
    var step := ReserveDelta(m.db, t.input, t.cs, t.now, t.next + 1);
    if step.Stopped? {
      LockStopped(m, id, t);
    } else {
      StepKeys(m.db, Pending(t.writes, t.rows), t.input, t.cs[t.next], t.now);
      LockMoved(m, id, t, t.(next := t.next + 1, sum := None, writes := step.writes, rows := step.rows));
    }
  }

  /** What a Reserve inserts belongs to counters it has locked. */
  lemma {:induction false} RowsOnLocked(db: Tables, input: ReserveInput, cs: seq<Constraint>, now: Calendar.Time, n: nat)
    requires n <= |cs|
    ensures var d := ReserveDelta(db, input, cs, now, n);
            d.Pending? ==> AllOn(d.rows, LockedKeys(input.org, cs, now, n))
  {
    if n > 0 {
      RowsOnLocked(db, input, cs, now, n - 1);
      var d := ReserveDelta(db, input, cs, now, n - 1);
      if d.Pending? {
        assert ReserveDelta(db, input, cs, now, n) == ReserveStep(db, d, input, cs[n - 1], now);
        StepOnLocked(db, d, input, cs[n - 1], now, LockedKeys(input.org, cs, now, n - 1));
      }
    }
  }

  ghost predicate AllOn(rows: seq<Row>, keys: set<CounterKey>) {
    forall i :: 0 <= i < |rows| ==> rows[i].counter in keys
  }

  lemma StepOnLocked(db: Tables, d: Delta, input: ReserveInput, c: Constraint, now: Calendar.Time, keys: set<CounterKey>)
    requires d.Pending? && AllOn(d.rows, keys)
    ensures var next := ReserveStep(db, d, input, c, now);
            next.Pending? ==> AllOn(next.rows, keys + {KeyOf(input.org, c, now)})
  {
    var next := ReserveStep(db, d, input, c, now);
    if next.Pending? {
      StepRows(db, d, input, c, now);
      forall i | 0 <= i < |next.rows| ensures next.rows[i].counter in keys + {KeyOf(input.org, c, now)} {
        if i < |d.rows| { assert next.rows[i] == d.rows[i]; }
      }
    }
  }

  lemma {:induction false} LockedOwned(owners: map<Id, Id>, org: Id, cs: seq<Constraint>, now: Calendar.Time, n: nat, k: CounterKey)
    requires n <= |cs| && forall j :: 0 <= j < |cs| ==> Owned(owners, KeyOf(org, cs[j], now))
    requires k in LockedKeys(org, cs, now, n)
    ensures Owned(owners, k)
  {
    if k != KeyOf(org, cs[n - 1], now) { LockedOwned(owners, org, cs, now, n - 1, k); }
  }

  lemma CommitReserveChanges(db: Tables, owners: map<Id, Id>, t: Txn)
    requires Conserved(db) && t.Reserving? && ReserveOk(db, owners, t) && t.next == |t.cs|
    ensures var after := Commit(db, Pending(t.writes, t.rows));
            && Conserved(after) && Changed(db, after, owners, t.writes, t.input.request)
            && Atomic(db, ReserveOp(t.input, t.cs, t.now)) == (after, ReserveEnded(Allowed))
  {
    ReserveDeltaConserves(db, t.input, t.cs, t.now, |t.cs|);
    ReserveDeltaRows(db, t.input, t.cs, t.now, |t.cs|);
    RowsOnLocked(db, t.input, t.cs, t.now, |t.cs|);
    DeltaKeys(db, t.input, t.cs, t.now, |t.cs|);
    forall j | 0 <= j < |t.cs| ensures Owned(owners, KeyOf(t.input.org, t.cs[j], t.now)) { assert Owned(owners, KeyAt(t, j)); }
    forall i | 0 <= i < |t.rows| ensures Owned(owners, t.rows[i].counter) {
      LockedOwned(owners, t.input.org, t.cs, t.now, |t.cs|, t.rows[i].counter);
    }
    AppendChanges(db, owners, t.writes, t.rows, t.input.request);
  }

  lemma AppendChanges(db: Tables, owners: map<Id, Id>, writes: map<CounterKey, Counter>, rows: seq<Row>, request: Id)
    requires AllLive(rows, request)
    requires forall i :: 0 <= i < |rows| ==> rows[i].counter in writes && Owned(owners, rows[i].counter)
    ensures Changed(db, Commit(db, Pending(writes, rows)), owners, writes, request)
  {
    var after := Commit(db, Pending(writes, rows));
    forall i | |db.rows| <= i < |after.rows|
      ensures after.rows[i].request == request && after.rows[i].counter in writes && Owned(owners, after.rows[i].counter)
    {
      assert after.rows[i] == rows[i - |db.rows|] && Live(rows[i - |db.rows|], request);
    }
  }

  /** A committed Reserve leaves every other open transaction as it was, even one of the same request. */
  lemma OtherKeptByReserve(m: Machine, id: nat, after: Tables, other: nat)
    requires Sound(m) && id in m.active && other in m.active && other != id && m.active[id].Reserving?
    requires after == Commit(m.db, Pending(m.active[id].writes, m.active[id].rows))
    requires Changed(m.db, after, m.owners, m.active[id].writes, m.active[id].input.request)
    ensures TxnOk(after, m.owners, m.active[other])
  {
    var t, o := m.active[id], m.active[other];
    assert TxnOk(m.db, m.owners, o) && Apart(o, t);
    if o.Reserving? {
      OtherReserveKept(m.db, after, m.owners, t.writes, t.input.request, o);
    } else {
      OtherFinishKept(m.db, after, m.owners, t.writes, t.input.request, o);
    }
  }

  lemma CommitReserveSound(m: Machine, id: nat)
    requires Sound(m) && Next(m, CommitReserve(id)).Some?
    ensures var m' := Next(m, CommitReserve(id)).value;
            Sound(m') && Explains(m, m')
  {
    var t := m.active[id];
    assert TxnOk(m.db, m.owners, t);
    CommitReserveChanges(m.db, m.owners, t);
    var after := Commit(m.db, Pending(t.writes, t.rows));
    forall other | other in m.active && other != id ensures TxnOk(after, m.owners, m.active[other]) {
      OtherKeptByReserve(m, id, after, other);
    }
    var e := Entry(ReserveOp(t.input, t.cs, t.now), ReserveEnded(Allowed));
    assert Atomic(m.db, e.op) == (after, e.verdict);
    EndSound(m, id, after, m.history + [e]);
  }

  // ----- Settle and release ---------------------------------------------------

  lemma BeginFinishSound(m: Machine, id: nat, request: Id, how: Finish)
    requires Sound(m) && Next(m, BeginFinish(id, request, how)).Some?
    ensures Sound(Next(m, BeginFinish(id, request, how)).value)
  {
    MoveSound(m, id, Finishing(request, how, None, None, false, {}, {}, map[]));
  }

  lemma BeginMeterSound(m: Machine, id: nat, record: CostRecord)
    requires Sound(m) && Next(m, BeginMeter(id, record)).Some?
    ensures var m' := Next(m, BeginMeter(id, record)).value;
            Sound(m') && Explains(m, m')
  {
    if record.request in m.db.logs {
      var e := Entry(FinishOp(record.request, Settle(record.total), Some(record)), FinishEnded(false));
      assert Atomic(m.db, e.op) == (m.db, e.verdict);
    } else {
      MoveSound(m, id, Finishing(record.request, Settle(record.total), Some(record), None, false, {}, {}, map[]));
    }
  }

  /** A finish that holds no more than before, or more rows that no other holds, stays apart from the others. */
  lemma HoldsApart(m: Machine, id: nat, t: Txn, t': Txn, more: set<nat>)
    requires Sound(m) && id in m.active && m.active[id] == t && t.Finishing? && t'.Finishing? && FinishOk(m.db, t')
    requires t'.writes == t.writes && t'.locked == t.locked + more && t'.record == t.record && t'.request == t.request
    requires forall row :: row in more ==> !RowHeldByOther(m, id, row)
    ensures Sound(m.(active := m.active[id := t']))
  {
    forall other | other in m.active && other != id ensures Apart(m.active[other], t') {
      assert Apart(m.active[other], t);
    }
    MoveSound(m, id, t');
  }

  lemma ScanOk(db: Tables, t: Txn, seen: Option<nat>, scanned: bool)
    requires t.Finishing? && FinishOk(db, t)
    requires seen.Some? ==> seen.value <= |db.rows|
    requires scanned ==> seen.Some? && forall i :: 0 <= i < seen.value && Live(db.rows[i], t.request) ==> i in t.locked
    ensures FinishOk(db, t.(seen := seen, scanned := scanned))
  {
    assert forall i :: i in t.done ==> Updated(db, t, i) && Updated(db, t.(seen := seen, scanned := scanned), i);
  }

  lemma StartScanSound(m: Machine, id: nat, t: Txn)
    requires Sound(m) && id in m.active && m.active[id] == t && t.Finishing?
    ensures Sound(m.(active := m.active[id := t.(seen := if t.seen.None? then Some(|m.db.rows|) else t.seen)]))
  {
    assert TxnOk(m.db, m.owners, t);
    var seen := if t.seen.None? then Some(|m.db.rows|) else t.seen;
    ScanOk(m.db, t, seen, t.scanned);
    HoldsApart(m, id, t, t.(seen := seen), {});
  }

  lemma EndScanSound(m: Machine, id: nat, t: Txn)
    requires Sound(m) && id in m.active && m.active[id] == t && t.Finishing? && t.seen.Some?
    requires forall i :: 0 <= i < |m.db.rows| && i < t.seen.value && Live(m.db.rows[i], t.request) ==> i in t.locked
    ensures Sound(m.(active := m.active[id := t.(scanned := true)]))
  {
    assert TxnOk(m.db, m.owners, t);
    ScanOk(m.db, t, t.seen, true);
    HoldsApart(m, id, t, t.(scanned := true), {});
  }

  lemma LockRowOk(db: Tables, t: Txn, row: nat)
    requires t.Finishing? && FinishOk(db, t) && row < |db.rows| && Live(db.rows[row], t.request)
    ensures FinishOk(db, t.(locked := t.locked + {row}))
  {
    assert forall i :: i in t.done ==> Updated(db, t, i) && Updated(db, t.(locked := t.locked + {row}), i);
  }

  lemma LockRowSound(m: Machine, id: nat, t: Txn, row: nat)
    requires Sound(m) && id in m.active && m.active[id] == t && t.Finishing?
    requires row < |m.db.rows| && Live(m.db.rows[row], t.request) && !RowHeldByOther(m, id, row)
    ensures Sound(m.(active := m.active[id := t.(locked := t.locked + {row})]))
  {
    assert TxnOk(m.db, m.owners, t);
    LockRowOk(m.db, t, row);
    HoldsApart(m, id, t, t.(locked := t.locked + {row}), {row});
  }

  lemma UpdateTxnOk(db: Tables, t: Txn, row: nat)
    requires Conserved(db) && t.Finishing? && FinishOk(db, t) && row in t.locked && row !in t.done
    requires var c := db.counters[db.rows[row].counter]; t.how.Settle? ==> c.settled + t.how.cost <= INT64_MAX
    requires db.rows[row].counter in db.counters && db.rows[row].counter !in t.writes
    ensures var k := db.rows[row].counter;
            FinishOk(db, t.(done := t.done + {row}, writes := t.writes[k := FinishCounter(db.counters[k], db.rows[row].amount, t.how)]))
  {
    var k := db.rows[row].counter;
    var t' := t.(done := t.done + {row}, writes := t.writes[k := FinishCounter(db.counters[k], db.rows[row].amount, t.how)]);
    forall i | i in t'.done ensures Updated(db, t', i) {
      if i != row { assert Updated(db, t, i); }
    }
    forall q | q in t'.writes ensures exists i :: i in t'.done && db.rows[i].counter == q {
      if q == k { assert row in t'.done; }
      else {
        var i :| i in t.done && db.rows[i].counter == q;
        assert i in t'.done;
      }
    }
  }

  lemma UpdateSound(m: Machine, id: nat, row: nat)
    requires Sound(m) && id in m.active && m.active[id].Finishing? && UpdateStep(m, id, m.active[id], row).Some?
    ensures var m' := UpdateStep(m, id, m.active[id], row).value;
            Sound(m') && Explains(m, m')
  {
    var t, m' := m.active[id], UpdateStep(m, id, m.active[id], row).value;
    assert TxnOk(m.db, m.owners, t);
    RowCounterFresh(m.db, t, row);
    var k := m.db.rows[row].counter;
    var c := m.db.counters[k];
    if t.how.Settle? && c.settled + t.how.cost > INT64_MAX {
      OverflowFails(m.db, t, row);
      EndSound(m, id, m.db, m'.history);
    } else {
      var t' := t.(done := t.done + {row}, writes := t.writes[k := FinishCounter(c, m.db.rows[row].amount, t.how)]);
      UpdateTxnOk(m.db, t, row);
      forall other | other in m.active && other != id ensures Apart(m.active[other], t') {
        assert Apart(m.active[other], t);
        assert k !in m.active[other].writes;
      }
      MoveSound(m, id, t');
    }
  }

  lemma LoggedConserves(db: Tables, record: Option<CostRecord>)
    requires Conserved(db) && (record.Some? ==> record.value.total >= 0)
    ensures Conserved(Logged(db, record))
  {
    assert forall k :: k in db.counters ==> Balanced(db, k) && Balanced(Logged(db, record), k);
  }

  lemma FinishCommitChanged(db: Tables, owners: map<Id, Id>, t: Txn)
    requires t.Finishing? && (t.record.Some? ==> t.record.value.request == t.request)
    ensures Changed(db, FinishCommit(db, t), owners, t.writes, t.request)
  {
    var after := FinishCommit(db, t);
    assert after.rows == FinishRows(db.rows, t.request, t.how);
    assert forall k :: k !in t.writes ==> Agree(db, after, k);
  }

  lemma CommitFinishChanges(db: Tables, t: Txn)
    requires Conserved(db) && t.Finishing? && FinishOk(db, t) && AllLocked(db, t)
    ensures var after := FinishCommit(db, t);
            && Conserved(after)
            && Atomic(db, FinishOp(t.request, t.how, t.record)) == (after, FinishEnded(true))
  {
    FinishWritesAll(db, t);
    LoggedConserves(db, t.record);
    FinishConserves(Logged(db, t.record), t.request, t.how);
  }

  // ----- Costs beside open Reserves ---------------------------------------------

  lemma LedgerGrows(db: Tables, record: CostRecord, k: CounterKey, windowEnd: Calendar.Time)
    ensures LedgerSum(Logged(db, Some(record)).costs, k, windowEnd)
         == LedgerSum(db.costs, k, windowEnd) + if InScope(record, k, windowEnd) then record.total else 0
  {
    assert (db.costs + [record])[..|db.costs|] == db.costs;
  }

  /** Every sum that a Reserve has used fits. */
  lemma {:induction false} SumsFit(db: Tables, input: ReserveInput, cs: seq<Constraint>, now: Calendar.Time, n: nat, j: nat)
    requires j < n <= |cs| && ReserveDelta(db, input, cs, now, n).Pending?
    ensures LedgerSum(db.costs, KeyOf(input.org, cs[j], now), Calendar.PeriodWindow(now, cs[j].period).end) <= INT64_MAX
  {
    if j < n - 1 { SumsFit(db, input, cs, now, n - 1, j); }
  }

  /** A counter that a Reserve has inserted carries the sum it was seeded with. */
  lemma {:induction false} SeedWritten(db: Tables, input: ReserveInput, cs: seq<Constraint>, now: Calendar.Time, n: nat, k: CounterKey)
    requires n <= |cs| && k !in db.counters
    ensures var d := ReserveDelta(db, input, cs, now, n);
            d.Pending? && k in d.writes ==> d.writes[k].seed == LedgerSum(db.costs, k, Calendar.PeriodWindow(now, k.period).end)
  {
    if n > 0 { SeedWritten(db, input, cs, now, n - 1, k); }
  }

  lemma SumUsedFits(db: Tables, owners: map<Id, Id>, t: Txn, j: nat)
    requires t.Reserving? && ReserveOk(db, owners, t) && Summed(t, j)
    ensures LedgerSum(db.costs, KeyAt(t, j), EndAt(t, j)) <= INT64_MAX
  {
    if j < t.next { SumsFit(db, t.input, t.cs, t.now, t.next, j); }
  }

  /** Where the cost leaves each sum its effect, the open Reserve is as it was. */
  lemma StandsKeeps(m: Machine, id: nat, other: nat)
    requires Sound(m) && id in m.active && m.active[id].Finishing? && other in m.active && m.active[other].Reserving?
    requires m.active[id].record.Some? ==> SumsStand(m.db, m.active[other], m.active[id].record.value)
    ensures ReserveOk(FinishCommit(m.db, m.active[id]), m.owners, m.active[other])
  {
    var t, o, after := m.active[id], m.active[other], FinishCommit(m.db, m.active[id]);
    assert TxnOk(m.db, m.owners, t) && TxnOk(m.db, m.owners, o) && Apart(o, t);
    FinishCommitChanged(m.db, m.owners, t);
    forall j: nat | Summed(o, j) ensures SameSeed(m.db, after, KeyAt(o, j), EndAt(o, j)) {
      SumUsedFits(m.db, m.owners, o, j);
      if t.record.Some? { LedgerGrows(m.db, t.record.value, KeyAt(o, j), EndAt(o, j)); }
    }
    OtherReserveKept(m.db, after, m.owners, t.writes, t.request, o);
  }

  lemma KeysKept(db: Tables, t: Txn)
    requires t.Finishing? && FinishOk(db, t)
    ensures FinishCommit(db, t).counters.Keys == db.counters.Keys
  {
    forall k | k in t.writes ensures k in db.counters {
      var i :| i in t.done && db.rows[i].counter == k;
      assert Updated(db, t, i);
    }
  }

  /** And only there: otherwise what the Reserve has done is no longer what it would do. */
  lemma KeepsStands(m: Machine, id: nat, other: nat, j: nat)
    requires Sound(m) && id in m.active && m.active[id].Finishing? && m.active[id].record.Some?
    requires other in m.active && m.active[other].Reserving? && Summed(m.active[other], j)
    requires ReserveOk(FinishCommit(m.db, m.active[id]), m.owners, m.active[other])
    ensures SeedStands(m.db, KeyAt(m.active[other], j), EndAt(m.active[other], j), m.active[id].record.value)
  {
    var t, o, after := m.active[id], m.active[other], FinishCommit(m.db, m.active[id]);
    var k := KeyAt(o, j);
    assert TxnOk(m.db, m.owners, t) && TxnOk(m.db, m.owners, o);
    KeysKept(m.db, t);
    LedgerGrows(m.db, t.record.value, k, EndAt(o, j));
    SumUsedFits(after, m.owners, o, j);
    if k !in m.db.counters && j < o.next {
      SeedWritten(m.db, o.input, o.cs, o.now, o.next, k);
      SeedWritten(after, o.input, o.cs, o.now, o.next, k);
      DeltaKeys(m.db, o.input, o.cs, o.now, o.next);
      LockedKeysMember(o.input.org, o.cs, o.now, o.next, j);
    }
  }

  /** A committed cost leaves an open Reserve as it was exactly when it changes none of the sums that Reserve depends on. */
  lemma CostKeepsExactly(m: Machine, id: nat, other: nat)
    requires Sound(m) && id in m.active && m.active[id].Finishing? && m.active[id].record.Some?
    requires other in m.active && m.active[other].Reserving?
    ensures ReserveOk(FinishCommit(m.db, m.active[id]), m.owners, m.active[other])
            <==> SumsStand(m.db, m.active[other], m.active[id].record.value)
  {
    if SumsStand(m.db, m.active[other], m.active[id].record.value) {
      StandsKeeps(m, id, other);
    } else {
      var j: nat :| Summed(m.active[other], j)
                    && !SeedStands(m.db, KeyAt(m.active[other], j), EndAt(m.active[other], j), m.active[id].record.value);
      if ReserveOk(FinishCommit(m.db, m.active[id]), m.owners, m.active[other]) { KeepsStands(m, id, other, j); }
    }
  }

  // ----- Committing a finish ------------------------------------------------------

  lemma OtherFinishKeptByFinish(m: Machine, id: nat, other: nat)
    requires Sound(m) && id in m.active && m.active[id].Finishing? && AllLocked(m.db, m.active[id])
    requires other in m.active && other != id && m.active[other].Finishing?
    ensures FinishOk(FinishCommit(m.db, m.active[id]), m.active[other])
  {
    var t, o, after := m.active[id], m.active[other], FinishCommit(m.db, m.active[id]);
    assert TxnOk(m.db, m.owners, t) && TxnOk(m.db, m.owners, o) && Apart(o, t);
    FinishCommitChanged(m.db, m.owners, t);
    forall i | i in o.locked ensures after.rows[i] == m.db.rows[i] {
      assert !Live(m.db.rows[i], t.request);
    }
    OtherFinishKept(m.db, after, m.owners, t.writes, t.request, o);
  }

  function CommittedFinish(m: Machine, id: nat, t: Txn): Machine
    requires t.Finishing?
  {
    Conclude(m, id, FinishCommit(m.db, t), FinishOp(t.request, t.how, t.record), FinishEnded(true))
  }

  lemma CommitFinishSound(m: Machine, id: nat, t: Txn)
    requires Sound(m) && id in m.active && m.active[id] == t && t.Finishing? && Orderly(m, CommitFinish(id))
    ensures Sound(CommittedFinish(m, id, t)) && Explains(m, CommittedFinish(m, id, t))
  {
    forall other | other in m.active && other != id ensures TxnOk(FinishCommit(m.db, t), m.owners, m.active[other]) {
      OtherKeptByFinish(m, id, other);
    }
    AtomicCommit(m, id, t);
  }

  lemma AtomicCommit(m: Machine, id: nat, t: Txn)
    requires Sound(m) && id in m.active && m.active[id] == t && t.Finishing? && AllLocked(m.db, t)
    requires forall other :: other in m.active && other != id ==> TxnOk(FinishCommit(m.db, t), m.owners, m.active[other])
    ensures Sound(CommittedFinish(m, id, t)) && Explains(m, CommittedFinish(m, id, t))
  {
    assert TxnOk(m.db, m.owners, t);
    CommitFinishChanges(m.db, t);
    var e := Entry(FinishOp(t.request, t.how, t.record), FinishEnded(true));
    assert Atomic(m.db, e.op) == (FinishCommit(m.db, t), e.verdict);
    EndSound(m, id, FinishCommit(m.db, t), m.history + [e]);
  }

  lemma OtherKeptByFinish(m: Machine, id: nat, other: nat)
    requires Sound(m) && id in m.active && m.active[id].Finishing? && Orderly(m, CommitFinish(id))
    requires other in m.active && other != id
    ensures TxnOk(FinishCommit(m.db, m.active[id]), m.owners, m.active[other])
  {
    if m.active[other].Reserving? { StandsKeeps(m, id, other); }
    else { OtherFinishKeptByFinish(m, id, other); }
  }

  /** A commit that is explained and leaves the others sound was orderly. */
  lemma CommitFinishOrderly(m: Machine, id: nat, t: Txn)
    requires Sound(m) && id in m.active && m.active[id] == t && t.Finishing?
    requires Sound(CommittedFinish(m, id, t)) && Explains(m, CommittedFinish(m, id, t))
    ensures Orderly(m, CommitFinish(id))
  {
    ExplainedCommit(m, CommittedFinish(m, id, t), Entry(FinishOp(t.request, t.how, t.record), FinishEnded(true)));
    ExplainedFinish(m, id, t);
    if t.record.Some? {
      forall other | other in m.active && m.active[other].Reserving? ensures SumsStand(m.db, m.active[other], t.record.value) {
        SurvivorOk(m, CommittedFinish(m, id, t), id, other);
        CostKeepsExactly(m, id, other);
      }
    }
  }

  lemma SurvivorOk(m: Machine, m': Machine, id: nat, other: nat)
    requires Sound(m') && m'.active == m.active - {id} && other in m.active && other != id
    ensures TxnOk(m'.db, m'.owners, m.active[other])
  {
    assert other in m'.active && m'.active[other] == m.active[other];
  }

  lemma ExplainedFinish(m: Machine, id: nat, t: Txn)
    requires Sound(m) && id in m.active && m.active[id] == t && t.Finishing?
    requires Atomic(m.db, FinishOp(t.request, t.how, t.record)) == (FinishCommit(m.db, t), FinishEnded(true))
    ensures AllLocked(m.db, t)
  {
    assert TxnOk(m.db, m.owners, t);
    FinishAtomicExactly(m.db, t);
  }

  /** A step that ended one transaction can only be explained by that transaction. */
  lemma ExplainedCommit(m: Machine, m': Machine, e: Entry)
    requires m'.history == m.history + [e] && Explains(m, m')
    ensures Atomic(m.db, e.op) == (m'.db, e.verdict)
  {
    var f: Entry :| m'.history == m.history + [f] && Atomic(m.db, f.op) == (m'.db, f.verdict);
    assert m'.history[|m.history|] == e && m'.history[|m.history|] == f;
  }

  // ----- Every step, every run ------------------------------------------------

  /** A step leaves tables and history alone, or ends one transaction as the atomic one would. */
  ghost predicate Explains(m: Machine, m': Machine) {
    || (m'.db == m.db && m'.history == m.history)
    || exists e: Entry :: m'.history == m.history + [e] && Atomic(m.db, e.op) == (m'.db, e.verdict)
  }

  lemma NextSound(m: Machine, a: Action)
    requires Sound(m) && Orderly(m, a) && Next(m, a).Some?
    ensures Sound(Next(m, a).value) && Explains(m, Next(m, a).value)
  {
    match a
    case BeginReserve(id, policy, input, now) => BeginReserveSound(m, id, policy, input, now);
    case SumLedger(id) => SumSound(m, id);
    case LockCounter(id) => LockSound(m, id);
    case CommitReserve(id) => CommitReserveSound(m, id);
    case BeginFinish(id, request, how) => BeginFinishSound(m, id, request, how);
    case BeginMeter(id, record) => BeginMeterSound(m, id, record);
    case StartScan(id) => StartScanSound(m, id, m.active[id]);
    case LockRow(id, row) => LockRowSound(m, id, m.active[id], row);
    case EndScan(id) => EndScanSound(m, id, m.active[id]);
    case UpdateCounter(id, row) => UpdateSound(m, id, row);
    case CommitFinish(id) => CommitFinishSound(m, id, m.active[id]);
    case Abort(id) => EndSound(m, id, m.db, m.history);
  }

  /**
   * Step by step the condition is exact: a step keeps every open transaction right and has the effect
   * of its atomic form if and only if it is orderly.
   */
  lemma StepSoundExactly(m: Machine, a: Action)
    requires Sound(m) && Next(m, a).Some?
    ensures Sound(Next(m, a).value) && Explains(m, Next(m, a).value) <==> Orderly(m, a)
  {
    if Orderly(m, a) {
      NextSound(m, a);
    } else if Sound(Next(m, a).value) && Explains(m, Next(m, a).value) {
      CommitFinishOrderly(m, a.id, m.active[a.id]);
    }
  }

  /** No open transaction and no history; the tables conserve money. */
  ghost predicate Initial(m: Machine) {
    Conserved(m.db) && m.active == map[] && m.history == []
  }

  /** Every step of the run is taken in an orderly way. */
  ghost predicate OrderlyRun(m: Machine, actions: seq<Action>) {
    forall i :: 0 <= i < |actions| ==> Exec(m, actions[..i]).Some? ==> Orderly(Exec(m, actions[..i]).value, actions[i])
  }

  /**
   * For any number of concurrent transactions and any orderly interleaving of their steps: the
   * committed tables are those of the atomic transactions run in commit order, each of which
   * returned what it returned here, and they conserve money.
   */
  lemma {:induction false} InterleavingRefinesAtomic(m: Machine, actions: seq<Action>)
    requires Initial(m) && OrderlyRun(m, actions) && Exec(m, actions).Some?
    ensures var m' := Exec(m, actions).value;
            && m'.db == Replay(m.db, m'.history)
            && Explained(m.db, m'.history)
            && Conserved(m'.db)
            && Sound(m')
  {
    if actions != [] {
      var n := |actions| - 1;
      OrderlyPrefix(m, actions);
      InterleavingRefinesAtomic(m, actions[..n]);
      var before := Exec(m, actions[..n]).value;
      NextSound(before, actions[n]);
      var after := Next(before, actions[n]).value;
      if !(after.db == before.db && after.history == before.history) {
        var e: Entry :| after.history == before.history + [e] && Atomic(before.db, e.op) == (after.db, e.verdict);
        assert after.history[..|before.history|] == before.history;
      }
    }
  }

  lemma OrderlyPrefix(m: Machine, actions: seq<Action>)
    requires actions != [] && OrderlyRun(m, actions)
    ensures OrderlyRun(m, actions[..|actions| - 1])
  {
    var head := actions[..|actions| - 1];
    assert forall i :: 0 <= i < |head| ==> head[..i] == actions[..i];
  }
}
