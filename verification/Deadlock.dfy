/** Reserve transactions take counters in increasing rank, so they cannot wait for each other in a circle. */
module Deadlock {
  import opened Base
  import Calendar
  import opened Ledger
  import opened Constraints
  import opened Interleaving

  function KeyRank(k: CounterKey): nat {
    Rank(Constraint(k.scope, k.scopeId, k.period, 0))
  }

  /** Every counter the Reserve holds ranks below every counter it has still to lock. */
  ghost predicate Climbing(t: Txn)
    requires t.Reserving?
  {
    && RankOrdered(t.cs)
    && forall k, j :: k in t.writes && t.next <= j < |t.cs| ==> KeyRank(k) < Rank(t.cs[j])
  }

  ghost predicate AllClimbing(m: Machine) {
    forall id :: id in m.active && m.active[id].Reserving? ==> Climbing(m.active[id])
  }

  lemma LockClimbs(m: Machine, id: nat)
    requires AllClimbing(m) && id in m.active && m.active[id].Reserving? && LockStep(m, id, m.active[id]).Some?
    ensures AllClimbing(LockStep(m, id, m.active[id]).value)
  {
    var t := m.active[id];
    var d := Pending(t.writes, t.rows);
    var step := AdmitStep(m.db, d, t.input, t.cs[t.next], t.now, t.sum.value);
    assert step.Pending? ==> step.writes.Keys == t.writes.Keys + {KeyAt(t, t.next)};
  }

  lemma BeginClimbs(m: Machine, id: nat, policy: Policy, input: ReserveInput, now: Calendar.Time)
    requires AllClimbing(m) && Next(m, BeginReserve(id, policy, input, now)).Some?
    ensures AllClimbing(Next(m, BeginReserve(id, policy, input, now)).value)
  {
    LoadedInRankOrder(policy, input.org, input.apiKey);
  }

  lemma NextClimbs(m: Machine, a: Action)
    requires AllClimbing(m) && Next(m, a).Some?
    ensures AllClimbing(Next(m, a).value)
  {
    match a
    case BeginReserve(id, policy, input, now) => BeginClimbs(m, id, policy, input, now);
    case SumLedger(id) =>
    case LockCounter(id) => LockClimbs(m, id);
    case _ =>
  }

  /** In every reachable state, orderly or not, every open Reserve climbs. */
  lemma {:induction false} ReachableClimbing(m: Machine, actions: seq<Action>)
    requires m.active == map[] && Exec(m, actions).Some?
    ensures AllClimbing(Exec(m, actions).value)
  {
    if actions != [] {
      ReachableClimbing(m, actions[..|actions| - 1]);
      NextClimbs(Exec(m, actions[..|actions| - 1]).value, actions[|actions| - 1]);
    }
  }

  predicate Waiting(m: Machine, id: nat) {
    id in m.active && m.active[id].Reserving? && m.active[id].next < |m.active[id].cs|
  }

  function NextKey(m: Machine, id: nat): CounterKey
    requires Waiting(m, id)
  {
    var t := m.active[id];
    KeyOf(t.input.org, t.cs[t.next], t.now)
  }

  /** `id` wants a counter that `other` has written. */
  predicate WaitsFor(m: Machine, id: nat, other: nat) {
    Waiting(m, id) && other in m.active && other != id && NextKey(m, id) in m.active[other].writes
  }

  ghost predicate WaitPath(m: Machine, path: seq<nat>) {
    && (forall i :: 0 <= i < |path| ==> Waiting(m, path[i]))
    && (forall i :: 0 <= i < |path| - 1 ==> WaitsFor(m, path[i], path[i + 1]))
  }

  lemma {:induction false} RankRises(m: Machine, path: seq<nat>)
    requires AllClimbing(m) && WaitPath(m, path) && |path| >= 2
    ensures KeyRank(NextKey(m, path[0])) < KeyRank(NextKey(m, path[|path| - 1]))
  {
    var n := |path| - 1;
    var t := m.active[path[n]];
    assert WaitsFor(m, path[n - 1], path[n]) && Climbing(t);
    if n > 1 { RankRises(m, path[..n]); }
  }

  /** The waits-for graph of the open Reserves has no cycle. */
  lemma NoWaitCycle(m: Machine, actions: seq<Action>, path: seq<nat>)
    requires m.active == map[] && Exec(m, actions).Some?
    requires |path| >= 2 && WaitPath(Exec(m, actions).value, path)
    ensures path[0] != path[|path| - 1]
  {
    ReachableClimbing(m, actions);
    RankRises(Exec(m, actions).value, path);
  }

  ghost predicate CanStep(m: Machine, id: nat) {
    Next(m, SumLedger(id)).Some? || Next(m, LockCounter(id)).Some? || Next(m, CommitReserve(id)).Some?
  }

  lemma {:induction false} SomeCanStep(m: Machine, id: nat) returns (free: nat)
    requires AllClimbing(m) && id in m.active
    requires forall i :: i in m.active ==> m.active[i].Reserving? && m.active[i].next <= |m.active[i].cs|
    ensures free in m.active && CanStep(m, free)
    decreases if Waiting(m, id) then 4 - KeyRank(NextKey(m, id)) else 0
  {
    if Waiting(m, id) && m.active[id].sum.Some? && HeldByOther(m, id, NextKey(m, id)) {
      var other :| other in m.active && other != id && NextKey(m, id) in m.active[other].writes;
      assert Climbing(m.active[other]);
      free := SomeCanStep(m, other);
    } else {
      free := id;
    }
  }

  /** While only Reserves are open, at least one of them can take its next step. */
  lemma ReservesNeverStuck(m: Machine, actions: seq<Action>)
    requires m.active == map[] && Exec(m, actions).Some?
    requires var after := Exec(m, actions).value;
             after.active != map[] && forall i :: i in after.active ==> after.active[i].Reserving?
    ensures exists id :: id in Exec(m, actions).value.active && CanStep(Exec(m, actions).value, id)
  {
    var after := Exec(m, actions).value;
    ReachableClimbing(m, actions);
    NextWithin(m, actions);
    var id :| id in after.active;
    var free := SomeCanStep(after, id);
  }

  ghost predicate AllWithin(m: Machine) {
    forall id :: id in m.active && m.active[id].Reserving? ==> m.active[id].next <= |m.active[id].cs|
  }

  lemma StepWithin(m: Machine, a: Action)
    requires AllWithin(m) && Next(m, a).Some?
    ensures AllWithin(Next(m, a).value)
  {
  }

  lemma {:induction false} NextWithin(m: Machine, actions: seq<Action>)
    requires m.active == map[] && Exec(m, actions).Some?
    ensures AllWithin(Exec(m, actions).value)
  {
    if actions != [] {
      NextWithin(m, actions[..|actions| - 1]);
      StepWithin(Exec(m, actions[..|actions| - 1]).value, actions[|actions| - 1]);
    }
  }
}
