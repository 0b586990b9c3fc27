/**
 * A counter's settled amount against the cost ledger it was seeded from. The two differ by
 * exactly what was recorded in the window without a reservation on the counter, minus what
 * was settled on the counter without a cost record in the window.
 */
module LedgerDrift {
  import opened Base
  import opened Calendar
  import opened Ledger
  import opened Conservation
  import Overspend

  /** What the ledger holds in the counter's scope and window beyond the settled amount. */
  function Drift(db: Tables, k: CounterKey): int
    requires k in db.counters
  {
    LedgerSum(db.costs, k, db.counters[k].windowEnd) - db.counters[k].settled
  }

  /** The cost this transaction records in scope of `k` for a request that holds nothing on it. */
  ghost function Unreserved(db: Tables, e: Event, k: CounterKey): int {
    if && e.Meter? && RecordCost(db, e.record).Some? && k in db.counters
       && InScope(e.record, k, db.counters[k].windowEnd) && !HasLive(db.rows, e.record.request, k)
    then e.record.total else 0
  }

  /** The cost this transaction settles on `k` without recording it in scope of `k`. */
  ghost function Unrecorded(db: Tables, e: Event, k: CounterKey): int {
    if k !in db.counters then 0
    else if && e.Meter? && RecordCost(db, e.record).Some?
            && HasLive(db.rows, e.record.request, k) && !InScope(e.record, k, db.counters[k].windowEnd)
    then e.record.total
    else if e.Close? && e.how.Settle? && FinishTx(db, e.request, e.how).Some? && HasLive(db.rows, e.request, k)
    then e.how.cost
    else 0
  }

  ghost function TotalUnreserved(db: Tables, es: seq<Event>, k: CounterKey): int {
    if es == [] then 0
    else TotalUnreserved(db, es[..|es| - 1], k) + Unreserved(Run(db, es[..|es| - 1]), es[|es| - 1], k)
  }

  ghost function TotalUnrecorded(db: Tables, es: seq<Event>, k: CounterKey): int {
    if es == [] then 0
    else TotalUnrecorded(db, es[..|es| - 1], k) + Unrecorded(Run(db, es[..|es| - 1]), es[|es| - 1], k)
  }

  /** A Reserve leaves settled amounts alone, and seeds a new counter with what the ledger holds. */
  lemma {:induction false} ReserveKeepsSettled(db: Tables, input: ReserveInput, cs: seq<Constraint>, now: Time, n: nat, k: CounterKey)
    requires n <= |cs|
    ensures var d := ReserveDelta(db, input, cs, now, n);
            d.Pending? && k in d.writes ==>
              var c := d.writes[k];
              && (k in db.counters ==> c.settled == db.counters[k].settled && c.windowEnd == db.counters[k].windowEnd)
              && (k !in db.counters ==> c.settled == LedgerSum(db.costs, k, c.windowEnd))
  {
    if n > 0 { ReserveKeepsSettled(db, input, cs, now, n - 1, k); }
  }

  lemma RecordDrift(db: Tables, record: CostRecord, k: CounterKey)
    requires k in db.counters && RecordCost(db, record).Some?
    ensures var after := RecordCost(db, record).value;
            && k in after.counters
            && Drift(after, k) == Drift(db, k)
               + (if InScope(record, k, db.counters[k].windowEnd) then record.total else 0)
               - (if HasLive(db.rows, record.request, k) then record.total else 0)
  {
    assert (db.costs + [record])[..|db.costs|] == db.costs;
  }

  lemma ApplyDrift(db: Tables, e: Event, k: CounterKey)
    requires k in Apply(db, e).counters
    ensures k in db.counters ==> Drift(Apply(db, e), k) == Drift(db, k) + Unreserved(db, e, k) - Unrecorded(db, e, k)
    ensures k !in db.counters ==> Drift(Apply(db, e), k) == 0
  {
    match e
    case Admit(policy, input, now) =>
      var cs := LoadConstraints(policy, input.org, input.apiKey);
      if ValidInput(input) && cs.Some? { ReserveKeepsSettled(db, input, cs.value, now, |cs.value|, k); }
    case Meter(record) =>
      if RecordCost(db, record).Some? { RecordDrift(db, record, k); }
    case Close(request, how) =>
    case LogFailure(request) =>
  }

  lemma {:induction false} BeforeCreation(db: Tables, es: seq<Event>, k: CounterKey)
    requires Overspend.Empty(db) && k !in Run(db, es).counters
    requires forall i :: 0 <= i < |es| ==> WellTyped(es[i])
    ensures TotalUnreserved(db, es, k) == 0 && TotalUnrecorded(db, es, k) == 0
  {
    if es != [] {
      var n := |es| - 1;
      RunConserves(db, es[..n]);
      if k in Run(db, es[..n]).counters { Overspend.SeedsStay(Run(db, es[..n]), es[n], k); }
      BeforeCreation(db, es[..n], k);
    }
  }

  /** The exact drift of every counter after every run. */
  lemma {:induction false} RunDrift(db: Tables, es: seq<Event>, k: CounterKey)
    requires Overspend.Empty(db) && k in Run(db, es).counters
    requires forall i :: 0 <= i < |es| ==> WellTyped(es[i])
    ensures Drift(Run(db, es), k) == TotalUnreserved(db, es, k) - TotalUnrecorded(db, es, k)
  {
    if es != [] {
      var n := |es| - 1;
      ApplyDrift(Run(db, es[..n]), es[n], k);
      if k in Run(db, es[..n]).counters {
        RunDrift(db, es[..n], k);
      } else {
        BeforeCreation(db, es[..n], k);
      }
    }
  }

  /** Every committed cost since the counter exists was both recorded in its scope and settled on it, or neither. */
  ghost predicate Matched(db: Tables, e: Event, k: CounterKey) {
    k in db.counters ==>
      && (e.Meter? ==> (InScope(e.record, k, db.counters[k].windowEnd) <==> HasLive(db.rows, e.record.request, k)))
      && (e.Close? && e.how.Settle? ==> !HasLive(db.rows, e.request, k))
  }

  /** The counter tracks the ledger when nothing is metered outside a reservation or outside its window. */
  lemma {:induction false} TracksLedger(db: Tables, es: seq<Event>, k: CounterKey)
    requires Overspend.Empty(db) && k in Run(db, es).counters
    requires forall i :: 0 <= i < |es| ==> WellTyped(es[i])
    requires forall i :: 0 <= i < |es| ==> Matched(Run(db, es[..i]), es[i], k)
    ensures LedgerSum(Run(db, es).costs, k, Run(db, es).counters[k].windowEnd) == Run(db, es).counters[k].settled
  {
    RunDrift(db, es, k);
    NoDrift(db, es, k);
  }

  lemma {:induction false} NoDrift(db: Tables, es: seq<Event>, k: CounterKey)
    requires forall i :: 0 <= i < |es| ==> Matched(Run(db, es[..i]), es[i], k)
    ensures TotalUnreserved(db, es, k) == 0 && TotalUnrecorded(db, es, k) == 0
  {
    if es != [] {
      var n := |es| - 1;
      forall i | 0 <= i < n ensures Matched(Run(db, es[..n][..i]), es[..n][i], k) {
        assert es[..n][..i] == es[..i];
      }
      NoDrift(db, es[..n], k);
      assert Matched(Run(db, es[..n]), es[n], k);
    }
  }

  /** The step adds as much to the ledger's sum for `k` as to what is settled on it. */
  ghost predicate Evenly(db: Tables, e: Event, k: CounterKey) {
    k in db.counters ==> Unreserved(db, e, k) == Unrecorded(db, e, k)
  }

  ghost predicate Tracks(db: Tables, k: CounterKey) {
    k in db.counters ==> LedgerSum(db.costs, k, db.counters[k].windowEnd) == db.counters[k].settled
  }

  lemma RunNext(db: Tables, es: seq<Event>, i: nat)
    requires i < |es|
    ensures Run(db, es[..i + 1]) == Apply(Run(db, es[..i]), es[i])
  {
    assert es[..i + 1][..i] == es[..i];
  }

  lemma {:induction false} EvenTracks(db: Tables, es: seq<Event>, k: CounterKey, n: nat)
    requires Overspend.Empty(db) && n <= |es|
    requires forall i :: 0 <= i < n ==> Evenly(Run(db, es[..i]), es[i], k)
    ensures Tracks(Run(db, es[..n]), k)
    decreases n
  {
    if n > 0 {
      EvenTracks(db, es, k, n - 1);
      RunNext(db, es, n - 1);
      StepTracks(Run(db, es[..n - 1]), es[n - 1], k);
    }
  }

  /** The counter equals the ledger throughout the run exactly when every single step keeps them even. */
  lemma TracksExactly(db: Tables, es: seq<Event>, k: CounterKey)
    requires Overspend.Empty(db)
    ensures (forall n :: 0 <= n <= |es| ==> Tracks(Run(db, es[..n]), k)) <==> (forall i :: 0 <= i < |es| ==> Evenly(Run(db, es[..i]), es[i], k))
  {
    if forall i :: 0 <= i < |es| ==> Evenly(Run(db, es[..i]), es[i], k) {
      forall n | 0 <= n <= |es| ensures Tracks(Run(db, es[..n]), k) { EvenTracks(db, es, k, n); }
    }
    if forall n :: 0 <= n <= |es| ==> Tracks(Run(db, es[..n]), k) {
      forall i | 0 <= i < |es| ensures Evenly(Run(db, es[..i]), es[i], k) {
        RunNext(db, es, i);
        assert Tracks(Run(db, es[..i]), k) && Tracks(Run(db, es[..i + 1]), k);
        StepTracks(Run(db, es[..i]), es[i], k);
      }
    }
  }

  lemma StepTracks(db: Tables, e: Event, k: CounterKey)
    requires Tracks(db, k)
    ensures Tracks(Apply(db, e), k) <==> Evenly(db, e, k)
  {
    if k in Apply(db, e).counters {
      ApplyDrift(db, e, k);
    }
  }
}
