/** The fixed-window request limiter: one Redis counter per API key and minute. */
module RateLimit {
  import opened Base

  /** Microseconds since the Unix epoch. */
  type Clock = nat

  const SECOND := 1_000_000
  const MINUTE := 60 * SECOND
  const WINDOW_TTL_SECONDS := 120
  const INT32_MAX := 0x7fff_ffff

  datatype Key = Key(apiKey: Id, minute: nat)
  datatype Counter = Counter(count: nat, expiresAt: Clock)
  type Counters = map<Key, Counter>

  datatype Decision = Decision(allowed: bool, limit: int, remaining: int, resetAt: Clock, key: Key)
  datatype Reply = Reply(decision: Decision, failed: bool)

  /** What can go wrong with the call: the script did not run, or it ran and its answer was lost. */
  datatype Fault = NoFault | NotRun | ReplyLost

  datatype Arrival = Arrival(at: Clock, apiKey: Id, limit: int, fault: Fault)

  function Minute(now: Clock): nat {
    now / SECOND / 60
  }

  function KeyOf(a: Arrival): Key {
    Key(a.apiKey, Minute(a.at))
  }

  lemma MinuteBounds(now: Clock, minute: nat)
    ensures Minute(now) == minute <==> minute * MINUTE <= now < (minute + 1) * MINUTE
  {
  }

  // ----- One call ---------------------------------------------------------------

  /** What Redis still holds at `now`. */
  function Unexpired(counters: Counters, now: Clock): Counters {
    map key | key in counters && now < counters[key].expiresAt :: counters[key]
  }

  function Incremented(counters: Counters, key: Key, ttlSeconds: nat, now: Clock): Counters {
    var held := Unexpired(counters, now);
    var count := (if key in held then held[key].count else 0) + 1;
    held[key := Counter(count, if count == 1 then now + ttlSeconds * SECOND else held[key].expiresAt)]
  }

  /** The call reaches the counter. */
  predicate Counts(a: Arrival) {
    a.limit > 0 && !a.fault.NotRun?
  }

  function Next(counters: Counters, a: Arrival): Counters {
    if Counts(a) then Incremented(counters, KeyOf(a), WINDOW_TTL_SECONDS, a.at) else counters
  }

  function ReplyTo(counters: Counters, a: Arrival): Reply {
    var denied := Decision(false, a.limit, 0, (Minute(a.at) + 1) * MINUTE, KeyOf(a));
    if a.limit <= 0 || !a.fault.NoFault? then Reply(denied, true)
    else
      var count := Next(counters, a)[KeyOf(a)].count;
      Reply(denied.(allowed := count <= a.limit, remaining := Max(0, a.limit - count)), false)
  }

  /** The counter of `key` goes up by one, or starts at one for 120 seconds; the others stay as long as they live. */
  ghost predicate CountedOnce(before: Counters, after: Counters, key: Key, now: Clock) {
    && key in after
    && after[key] == (if key in before && now < before[key].expiresAt && before[key].count != 0
                      then Counter(before[key].count + 1, before[key].expiresAt)
                      else Counter(1, now + 120_000_000))
    && (forall k :: k != key ==> (k in after <==> k in before && now < before[k].expiresAt) && (k in after ==> after[k] == before[k]))
  }

  lemma MinuteIsDivision(now: Clock)
    ensures now / SECOND / 60 == now / 60_000_000
    ensures var next := (now / SECOND / 60 + 1) * 60 * SECOND;
            next % 60_000_000 == 0 && now < next <= now + 60_000_000
  {
    MinuteBounds(now, now / SECOND / 60);
    var minute := now / SECOND / 60;
    assert (minute + 1) * 60 * SECOND == (minute + 1) * 60_000_000;
  }

  class Redis {
    var counters: Counters

    constructor ()
      ensures counters == map[]
    {
      counters := map[];
    }

    /** The script: increment, and start the time to live with the first increment. */
    method IncrementWithTTL(key: Key, ttlSeconds: nat, now: Clock) returns (count: int)
      modifies this
      ensures counters == Incremented(old(counters), key, ttlSeconds, now)
      ensures count == counters[key].count
    {
      counters := Unexpired(counters, now);
      if key in counters {
        counters := counters[key := counters[key].(count := counters[key].count + 1)];
      } else {
        counters := counters[key := Counter(1, now)];
      }
      count := counters[key].count;
      if count == 1 {
        counters := counters[key := Counter(count, now + ttlSeconds * SECOND)];
      }
    }
  }

  class RedisLimiter {
    const client: Redis?

    constructor (client: Redis?)
      ensures this.client == client
    {
      this.client := client;
    }

    method Allow(a: Arrival) returns (reply: Reply)
      requires -INT32_MAX - 1 <= a.limit <= INT32_MAX
      modifies client
      ensures client != null ==> client.counters == Next(old(client.counters), a) && reply == ReplyTo(old(client.counters), a)
      ensures client == null ==> reply.failed && !reply.decision.allowed
      ensures reply.decision.limit == a.limit && reply.decision.key == Key(a.apiKey, a.at / 60_000_000)
      ensures reply.decision.resetAt % 60_000_000 == 0 && a.at < reply.decision.resetAt <= a.at + 60_000_000
      ensures reply.failed <==> a.limit <= 0 || client == null || a.fault != NoFault
      ensures reply.failed ==> !reply.decision.allowed && reply.decision.remaining == 0
      ensures client != null && a.limit > 0 && a.fault != NotRun ==>
                CountedOnce(old(client.counters), client.counters, reply.decision.key, a.at)
      ensures client != null && !reply.failed ==>
                var count := client.counters[reply.decision.key].count;
                && (reply.decision.allowed <==> count <= a.limit)
                && reply.decision.remaining == if count < a.limit then a.limit - count else 0
    {
      MinuteIsDivision(a.at);

      var unixMinute := a.at / SECOND / 60;
      var resetAt := (unixMinute + 1) * 60 * SECOND;
      var key := Key(a.apiKey, unixMinute);
      var decision := Decision(false, a.limit, 0, resetAt, key);
      if a.limit <= 0 {
        return Reply(decision, true);
      }
      if client == null {
        return Reply(decision, true);
      }
      var count: int;
      match a.fault {
        case NotRun =>
          return Reply(decision, true);
        case ReplyLost =>
          count := client.IncrementWithTTL(key, WINDOW_TTL_SECONDS, a.at);
          return Reply(decision, true);
        case NoFault =>
          count := client.IncrementWithTTL(key, WINDOW_TTL_SECONDS, a.at);
      }
      var remaining := a.limit - count;
      if remaining < 0 {
        remaining := 0;
      }
      if remaining > INT32_MAX {
        remaining := INT32_MAX;
      }
      decision := decision.(allowed := count <= a.limit, remaining := remaining);
      reply := Reply(decision, false);
    }
  }

  // ----- Whole runs -------------------------------------------------------------

  ghost predicate Monotone(arrivals: seq<Arrival>) {
    forall i, j :: 0 <= i < j < |arrivals| ==> arrivals[i].at <= arrivals[j].at
  }

  /** What Redis holds after all these calls. */
  function After(arrivals: seq<Arrival>): Counters {
    if arrivals == [] then map[] else Next(After(arrivals[..|arrivals| - 1]), arrivals[|arrivals| - 1])
  }

  /** The answer the `i`-th call gets. */
  function Answer(arrivals: seq<Arrival>, i: nat): Reply
    requires i < |arrivals|
  {
    ReplyTo(After(arrivals[..i]), arrivals[i])
  }

  /** How many calls reached the counter of `key`. */
  ghost function Reached(arrivals: seq<Arrival>, key: Key): nat {
    if arrivals == [] then 0
    else
      var n := |arrivals| - 1;
      Reached(arrivals[..n], key) + if Counts(arrivals[n]) && KeyOf(arrivals[n]) == key then 1 else 0
  }

  /** A counter of the current minute or a later one has every call of its minute and outlives it. */
  ghost predicate Faithful(counters: Counters, arrivals: seq<Arrival>, now: Clock) {
    forall key: Key :: Minute(now) <= key.minute ==>
      && (key in counters <==> Reached(arrivals, key) > 0)
      && (key in counters ==> counters[key].count == Reached(arrivals, key) && (key.minute + 1) * MINUTE <= counters[key].expiresAt)
  }

  lemma {:induction false} CountersFaithful(arrivals: seq<Arrival>, now: Clock)
    requires Monotone(arrivals) && forall i :: 0 <= i < |arrivals| ==> arrivals[i].at <= now
    ensures Faithful(After(arrivals), arrivals, now)
  {
    if arrivals != [] {
      var n := |arrivals| - 1;
      CountersFaithful(arrivals[..n], arrivals[n].at);
      FaithfulStep(After(arrivals[..n]), arrivals[..n], arrivals[n]);
      assert arrivals == arrivals[..n] + [arrivals[n]];
      MinuteMonotone(arrivals[n].at, now);
    }
  }

  lemma MinuteMonotone(a: Clock, b: Clock)
    requires a <= b
    ensures Minute(a) <= Minute(b)
  {
  }

  lemma FaithfulStep(counters: Counters, past: seq<Arrival>, a: Arrival)
    requires Faithful(counters, past, a.at)
    ensures Faithful(Next(counters, a), past + [a], a.at)
  {
    var next := Next(counters, a);
    forall key: Key | Minute(a.at) <= key.minute
      ensures key in next <==> Reached(past + [a], key) > 0
      ensures key in next ==> next[key].count == Reached(past + [a], key) && (key.minute + 1) * MINUTE <= next[key].expiresAt
    {
      assert (past + [a])[..|past|] == past;
      MinuteBounds(a.at, Minute(a.at));
      StillHeld(counters, past, a.at, key);
    }
  }

  /** A counter never expires during its own minute. */
  lemma StillHeld(counters: Counters, past: seq<Arrival>, now: Clock, key: Key)
    requires Faithful(counters, past, now) && Minute(now) <= key.minute
    ensures key in Unexpired(counters, now) <==> Reached(past, key) > 0
    ensures key in counters ==> key in Unexpired(counters, now) && Unexpired(counters, now)[key] == counters[key]
  {
    if key in counters {
      MinuteBounds(now, Minute(now));
      assert now < (Minute(now) + 1) * MINUTE <= (key.minute + 1) * MINUTE;
    }
  }

  /** A call is admitted exactly when it is among the first `limit` calls of its minute to reach the counter. */
  lemma AdmittedByRank(arrivals: seq<Arrival>, i: nat)
    requires Monotone(arrivals) && i < |arrivals|
    ensures var a := arrivals[i]; var rank := Reached(arrivals[..i + 1], KeyOf(a)); var reply := Answer(arrivals, i);
            && (reply.decision.allowed <==> Counts(a) && a.fault.NoFault? && rank <= a.limit)
            && (reply.failed <==> !(Counts(a) && a.fault.NoFault?))
            && reply.decision.remaining == (if reply.failed then 0 else Max(0, a.limit - rank))
  {
    CountersFaithful(arrivals[..i], arrivals[i].at);
    FaithfulStep(After(arrivals[..i]), arrivals[..i], arrivals[i]);
    assert arrivals[..i + 1] == arrivals[..i] + [arrivals[i]];
  }

  // ----- How many calls are admitted ----------------------------------------------

  predicate During(a: Arrival, apiKey: Id, from: Clock, until: Clock) {
    a.apiKey == apiKey && from <= a.at < until
  }

  ghost function Arrived(arrivals: seq<Arrival>, apiKey: Id, from: Clock, until: Clock): nat {
    if arrivals == [] then 0
    else
      var n := |arrivals| - 1;
      Arrived(arrivals[..n], apiKey, from, until) + if During(arrivals[n], apiKey, from, until) then 1 else 0
  }

  ghost function Admitted(arrivals: seq<Arrival>, apiKey: Id, from: Clock, until: Clock): nat {
    if arrivals == [] then 0
    else
      var n := |arrivals| - 1;
      Admitted(arrivals[..n], apiKey, from, until)
      + if During(arrivals[n], apiKey, from, until) && Answer(arrivals, n).decision.allowed then 1 else 0
  }

  /** Every call for the key comes with this limit. */
  ghost predicate Limited(arrivals: seq<Arrival>, apiKey: Id, limit: int) {
    forall i :: 0 <= i < |arrivals| && arrivals[i].apiKey == apiKey ==> arrivals[i].limit == limit
  }

  ghost predicate Faultless(arrivals: seq<Arrival>, apiKey: Id) {
    forall i :: 0 <= i < |arrivals| && arrivals[i].apiKey == apiKey ==> arrivals[i].fault.NoFault?
  }

  function Min(a: int, b: int): int {
    if a <= b then a else b
  }

  /** In each minute at most `limit` calls are admitted, and exactly the smaller of calls and limit when Redis answers. */
  lemma {:induction false} PerMinute(arrivals: seq<Arrival>, apiKey: Id, minute: nat, limit: nat)
    requires Monotone(arrivals) && limit > 0 && Limited(arrivals, apiKey, limit)
    ensures var from, until := minute * MINUTE, (minute + 1) * MINUTE;
            && Admitted(arrivals, apiKey, from, until) <= Min(Reached(arrivals, Key(apiKey, minute)), limit)
            && (Faultless(arrivals, apiKey) ==>
                 && Reached(arrivals, Key(apiKey, minute)) == Arrived(arrivals, apiKey, from, until)
                 && Admitted(arrivals, apiKey, from, until) == Min(Arrived(arrivals, apiKey, from, until), limit))
  {
    if arrivals != [] {
      var n := |arrivals| - 1;
      PerMinute(arrivals[..n], apiKey, minute, limit);
      AdmittedByRank(arrivals, n);
      assert arrivals[..n + 1] == arrivals;
      MinuteBounds(arrivals[n].at, minute);
    }
  }

  /** Whatever minute boundaries it crosses, an interval of 60 seconds admits at most twice the limit. */
  lemma AnySixtySeconds(arrivals: seq<Arrival>, apiKey: Id, from: Clock, limit: nat)
    requires Monotone(arrivals) && limit > 0 && Limited(arrivals, apiKey, limit)
    ensures Admitted(arrivals, apiKey, from, from + MINUTE) <= 2 * limit
  {
    var minute := Minute(from);
    MinuteBounds(from, minute);
    TwoMinutesCover(arrivals, apiKey, from, minute);
    PerMinute(arrivals, apiKey, minute, limit);
    PerMinute(arrivals, apiKey, minute + 1, limit);
  }

  lemma {:induction false} TwoMinutesCover(arrivals: seq<Arrival>, apiKey: Id, from: Clock, minute: nat)
    requires minute * MINUTE <= from < (minute + 1) * MINUTE
    ensures Admitted(arrivals, apiKey, from, from + MINUTE)
            <= Admitted(arrivals, apiKey, minute * MINUTE, (minute + 1) * MINUTE)
               + Admitted(arrivals, apiKey, (minute + 1) * MINUTE, (minute + 2) * MINUTE)
  {
    if arrivals != [] {
      TwoMinutesCover(arrivals[..|arrivals| - 1], apiKey, from, minute);
    }
  }

  // ----- The bound is reached -----------------------------------------------------

  function Burst(n: nat, at: Clock, apiKey: Id, limit: int): seq<Arrival> {
    seq(n, _ => Arrival(at, apiKey, limit, NoFault))
  }

  function TwoBursts(apiKey: Id, limit: nat): seq<Arrival> {
    Burst(limit, MINUTE - 1, apiKey, limit) + Burst(limit, MINUTE, apiKey, limit)
  }

  /** A full minute's worth at the end of one minute and another at the beginning of the next: all are admitted. */
  lemma DoubleBurst(apiKey: Id, limit: nat)
    requires limit > 0
    ensures Monotone(TwoBursts(apiKey, limit)) && Limited(TwoBursts(apiKey, limit), apiKey, limit)
    ensures Admitted(TwoBursts(apiKey, limit), apiKey, MINUTE - 1, MINUTE + 1) == 2 * limit
  {
    var arrivals := TwoBursts(apiKey, limit);
    BurstsShape(apiKey, limit);
    FullMinute(arrivals, apiKey, 0, limit);
    FullMinute(arrivals, apiKey, 1, limit);
    SplitAtMinute(arrivals, apiKey);
  }

  lemma BurstsShape(apiKey: Id, limit: nat)
    ensures var arrivals := TwoBursts(apiKey, limit);
            && Monotone(arrivals) && Limited(arrivals, apiKey, limit) && Faultless(arrivals, apiKey)
            && (forall i :: 0 <= i < |arrivals| ==> arrivals[i].at == MINUTE - 1 || arrivals[i].at == MINUTE)
            && Arrived(arrivals, apiKey, 0, MINUTE) == limit && Arrived(arrivals, apiKey, MINUTE, 2 * MINUTE) == limit
  {
    BothBursts(apiKey, limit);
  }

  lemma FullMinute(arrivals: seq<Arrival>, apiKey: Id, minute: nat, limit: nat)
    requires Monotone(arrivals) && limit > 0 && Limited(arrivals, apiKey, limit) && Faultless(arrivals, apiKey)
    requires Arrived(arrivals, apiKey, minute * MINUTE, (minute + 1) * MINUTE) == limit
    ensures Admitted(arrivals, apiKey, minute * MINUTE, (minute + 1) * MINUTE) == limit
  {
    PerMinute(arrivals, apiKey, minute, limit);
  }

  lemma BothBursts(apiKey: Id, limit: nat)
    ensures var arrivals := TwoBursts(apiKey, limit);
            Arrived(arrivals, apiKey, 0, MINUTE) == limit && Arrived(arrivals, apiKey, MINUTE, 2 * MINUTE) == limit
  {
    var first, second := Burst(limit, MINUTE - 1, apiKey, limit), Burst(limit, MINUTE, apiKey, limit);
    BurstArrived(limit, MINUTE - 1, apiKey, limit, 0, MINUTE);
    BurstArrived(limit, MINUTE - 1, apiKey, limit, MINUTE, 2 * MINUTE);
    BurstArrived(limit, MINUTE, apiKey, limit, 0, MINUTE);
    BurstArrived(limit, MINUTE, apiKey, limit, MINUTE, 2 * MINUTE);
    ArrivedConcat(first, second, apiKey, 0, MINUTE);
    ArrivedConcat(first, second, apiKey, MINUTE, 2 * MINUTE);
  }

  lemma {:induction false} BurstArrived(n: nat, at: Clock, apiKey: Id, limit: int, from: Clock, until: Clock)
    ensures Arrived(Burst(n, at, apiKey, limit), apiKey, from, until) == if from <= at < until then n else 0
  {
    if n > 0 {
      BurstArrived(n - 1, at, apiKey, limit, from, until);
      assert Burst(n, at, apiKey, limit)[..n - 1] == Burst(n - 1, at, apiKey, limit);
    }
  }

  lemma {:induction false} ArrivedConcat(a: seq<Arrival>, b: seq<Arrival>, apiKey: Id, from: Clock, until: Clock)
    ensures Arrived(a + b, apiKey, from, until) == Arrived(a, apiKey, from, until) + Arrived(b, apiKey, from, until)
  {
    if b == [] {
      assert a + b == a;
    } else {
      assert (a + b)[..|a + b| - 1] == a + b[..|b| - 1];
      ArrivedConcat(a, b[..|b| - 1], apiKey, from, until);
    }
  }

  lemma {:induction false} SplitAtMinute(arrivals: seq<Arrival>, apiKey: Id)
    requires forall i :: 0 <= i < |arrivals| ==> arrivals[i].at == MINUTE - 1 || arrivals[i].at == MINUTE
    ensures Admitted(arrivals, apiKey, MINUTE - 1, MINUTE + 1)
            == Admitted(arrivals, apiKey, 0, MINUTE) + Admitted(arrivals, apiKey, MINUTE, 2 * MINUTE)
  {
    if arrivals != [] {
      SplitAtMinute(arrivals[..|arrivals| - 1], apiKey);
    }
  }
}
