/**
 * `Chat` and `StreamChat` from the reservation on: which targets are tried, and what becomes of
 * the reservation on every way out.
 */
module Gateway {
  import opened Base
  import opened Calendar
  import opened Ledger
  import opened Estimate
  import opened Conservation
  import Metering
  import ReservationService

  // ----- Providers ------------------------------------------------------------

  datatype Code = ProviderTimeout | ProviderUnavailable | UsageMissing | ProviderFault | NoCode

  /** An adapter error: its code, its retryable flag, and whether it wraps context.Canceled. */
  datatype CallError = CallError(code: Code, retryable: bool, canceled: bool)

  datatype Usage = Usage(prompt: int, completion: int)
  datatype Reply = Response(usage: Usage) | Failure(error: CallError)

  /** What the outside does during one request. Attempts count from 1. */
  datatype World = World(
    reachable: nat -> bool,              // the target has an adapter and a usable configuration
    calls: (nat, nat) -> Reply,          // adapter.Chat for a target and attempt
    interrupted: (nat, nat) -> bool,     // the request context ends during the backoff after an attempt
    interruption: CallError,             // ctx.Err()
    reserve: Fault,
    record: Fault,
    reservedAt: Time,
    completedAt: Time,
    latency: int)                        // milliseconds between two readings of the clock

  /** A transaction may work, fail and roll back, or commit while its caller is told that it failed. */
  datatype Fault = Works | RollsBack | AckLost

  predicate Transient(error: CallError) {
    error.retryable || error.code == ProviderTimeout || error.code == ProviderUnavailable
  }

  predicate ShouldRetry(error: CallError) {
    !error.canceled && Transient(error)
  }

  predicate FallbackRetryable(error: CallError) {
    Transient(error)
  }

  /** Calls of one target: one more than the configured retries, whose default is one. */
  function MaxAttempts(maxRetries: int): (n: nat)
    ensures maxRetries >= 0 ==> n == 1 + maxRetries
    ensures maxRetries < 0 ==> n == 2
  {
    (if maxRetries < 0 then 1 else maxRetries) + 1
  }

  /** The calls of a target before the `n`th all failed in a way that allows another try. */
  predicate Retried(world: World, target: nat, n: nat) {
    forall a :: 1 <= a < n ==>
      && world.calls(target, a).Failure? && !world.interrupted(target, a)
      && var error := world.calls(target, a).error;
         !error.canceled && (error.retryable || error.code == ProviderTimeout || error.code == ProviderUnavailable)
  }

  /** The last of `attempts` calls ended the retrying with `reply`: by itself, or by an interruption before the next one. */
  predicate EndsWith(world: World, target: nat, attempts: nat, limit: nat, reply: Reply) {
    var last := world.calls(target, attempts);
    if last.Failure? && attempts < limit && !last.error.canceled
       && (last.error.retryable || last.error.code == ProviderTimeout || last.error.code == ProviderUnavailable)
    then world.interrupted(target, attempts) && reply == Failure(world.interruption)
    else reply == last
  }

  /**
   * Calls go on exactly as long as they fail with an error that may pass, the request is not cancelled or
   * interrupted, and retries are left.
   */
  method ChatProviderWithRetry(world: World, target: nat, maxRetries: int) returns (reply: Reply, attempts: nat)
    ensures 1 <= attempts <= MaxAttempts(maxRetries)
    ensures Retried(world, target, attempts)
    ensures EndsWith(world, target, attempts, MaxAttempts(maxRetries), reply)
  {
    var limit := MaxAttempts(maxRetries);
    attempts := 1;
    while true
      invariant 1 <= attempts <= limit
      invariant Retried(world, target, attempts)
      decreases limit - attempts
    {
      reply := world.calls(target, attempts);
      if reply.Response? { return; }
      if attempts == limit || !ShouldRetry(reply.error) { return; }
      if world.interrupted(target, attempts) {
        reply := Failure(world.interruption);
        return;
      }
      attempts := attempts + 1;
    }
  }

  // ----- Fallback -------------------------------------------------------------

  /** One entry of the attempt metadata. */
  datatype Attempt = Attempt(target: nat, error: Option<Code>, retryable: bool, count: nat)

  function ErrorStatus(error: CallError): Code {
    match error.code
    case ProviderTimeout => ProviderTimeout
    case ProviderUnavailable => ProviderUnavailable
    case UsageMissing => UsageMissing
    case _ => ProviderFault
  }

  predicate ShouldTryNext(fallback: bool, retryable: bool, index: nat, count: nat) {
    fallback && retryable && index + 1 < count
  }

  /** Targets were tried from the first on, and each was left for the next only after a retryable error. */
  ghost predicate TriedInOrder(attempts: seq<Attempt>, fallback: bool, count: nat) {
    && |attempts| <= count
    && (forall i :: 0 <= i < |attempts| ==> attempts[i].target == i)
    && (forall i :: 0 <= i < |attempts| - 1 ==> fallback && attempts[i].error.Some? && attempts[i].retryable)
  }

  /** An attempt entry tells what the target did. */
  ghost predicate Truthful(world: World, maxRetries: int, a: Attempt) {
    if !world.reachable(a.target) then a == Attempt(a.target, Some(ProviderUnavailable), true, 1)
    else
      && 1 <= a.count <= MaxAttempts(maxRetries)
      && Retried(world, a.target, a.count)
      && exists reply: Reply ::
           && EndsWith(world, a.target, a.count, MaxAttempts(maxRetries), reply)
           && (reply.Response? ==> a.error == None && !a.retryable)
           && (reply.Failure? ==>
                 var code := reply.error.code;
                 && a.error == Some(if code == NoCode then ProviderFault else code)
                 && a.retryable == (reply.error.retryable || code == ProviderTimeout || code == ProviderUnavailable))
  }

  /** Calls that reached an adapter. */
  function AdapterCalls(world: World, attempts: seq<Attempt>): nat {
    if attempts == [] then 0
    else
      var last := attempts[|attempts| - 1];
      AdapterCalls(world, attempts[..|attempts| - 1]) + if world.reachable(last.target) then last.count else 0
  }

  datatype Served = ServedBy(target: nat, usage: Usage) | NotServed(code: Code)

  /** One turn of the loop: the target's metadata entry, and its answer if it gave one. */
  method TryTarget(world: World, target: nat, maxRetries: int) returns (attempt: Attempt, usage: Option<Usage>)
    ensures attempt.target == target && Truthful(world, maxRetries, attempt)
    ensures usage.Some? <==> attempt.error.None?
    ensures usage.Some? ==> world.reachable(target) && world.calls(target, attempt.count) == Response(usage.value)
  {
    if !world.reachable(target) {
      return Attempt(target, Some(ProviderUnavailable), true, 1), None;
    }
    var reply, tries := ChatProviderWithRetry(world, target, maxRetries);
    if reply.Response? {
      return Attempt(target, None, false, tries), Some(reply.usage);
    }
    return Attempt(target, Some(ErrorStatus(reply.error)), FallbackRetryable(reply.error), tries), None;
  }

  /** The error of the last attempt; without any target the provider counts as unavailable. */
  function LastCode(attempts: seq<Attempt>): Code {
    if attempts == [] || attempts[|attempts| - 1].error.None? then ProviderUnavailable else attempts[|attempts| - 1].error.value
  }

  /** The loop over the resolved targets. */
  method TryTargets(world: World, count: nat, fallback: bool, maxRetries: int) returns (served: Served, attempts: seq<Attempt>)
    ensures TriedInOrder(attempts, fallback, count) && (count > 0 ==> attempts != [])
    ensures forall i :: 0 <= i < |attempts| ==> Truthful(world, maxRetries, attempts[i])
    ensures served.ServedBy? ==>
              && attempts != [] && served.target == |attempts| - 1 && attempts[served.target].error.None?
              && world.reachable(served.target)
              && world.calls(served.target, attempts[served.target].count) == Response(served.usage)
    ensures served.NotServed? ==>
              && served.code == LastCode(attempts)
              && (forall i :: 0 <= i < |attempts| ==> attempts[i].error.Some?)
              && (attempts != [] && |attempts| < count && fallback ==> !attempts[|attempts| - 1].retryable)
    ensures AdapterCalls(world, attempts) <= MaxAttempts(maxRetries) * |attempts|
  {
    attempts := [];
    served := NotServed(ProviderUnavailable);
    var more := count > 0;
    while more
      invariant TriedInOrder(attempts, fallback, count)
      invariant forall i :: 0 <= i < |attempts| ==> Truthful(world, maxRetries, attempts[i])
      invariant more ==> |attempts| < count && served.NotServed? && forall i :: 0 <= i < |attempts| ==> attempts[i].error.Some?
      invariant more && attempts != [] ==> fallback && attempts[|attempts| - 1].retryable
      invariant !more && count > 0 ==> attempts != []
      invariant !more && served.ServedBy? ==>
                  && attempts != [] && served.target == |attempts| - 1 && attempts[served.target].error.None?
                  && world.reachable(served.target)
                  && world.calls(served.target, attempts[served.target].count) == Response(served.usage)
      invariant served.NotServed? ==> served.code == LastCode(attempts)
      invariant !more && served.NotServed? ==>
                  && (forall i :: 0 <= i < |attempts| ==> attempts[i].error.Some?)
                  && (attempts != [] && |attempts| < count && fallback ==> !attempts[|attempts| - 1].retryable)
      decreases count - |attempts|, more
    {
      var index := |attempts|;
      var attempt, usage := TryTarget(world, index, maxRetries);
      attempts := attempts + [attempt];
      if usage.Some? {
        served := ServedBy(index, usage.value);
        more := false;
      } else {
        served := NotServed(attempt.error.value);
        more := ShouldTryNext(fallback, attempt.retryable, index, count);
      }
    }
    CallsBounded(world, attempts, maxRetries);
  }

  lemma {:induction false} CallsBounded(world: World, attempts: seq<Attempt>, maxRetries: int)
    requires forall i :: 0 <= i < |attempts| ==> Truthful(world, maxRetries, attempts[i])
    ensures AdapterCalls(world, attempts) <= MaxAttempts(maxRetries) * |attempts|
  {
    if attempts != [] {
      var n := |attempts| - 1;
      CallsBounded(world, attempts[..n], maxRetries);
      CallsOfOne(world, maxRetries, attempts[n]);
      OneMore(MaxAttempts(maxRetries), n);
    }
  }

  lemma CallsOfOne(world: World, maxRetries: int, a: Attempt)
    requires Truthful(world, maxRetries, a)
    ensures (if world.reachable(a.target) then a.count else 0) <= MaxAttempts(maxRetries)
  {
  }

  lemma OneMore(m: nat, n: nat)
    ensures m * n + m == m * (n + 1)
  {
  }
}
