/** Model prices and their version history. */
module Pricing {
  import opened Base
  import opened Calendar
  import opened Calculator

  const INT32_MAX: int := 0x7FFF_FFFF

  /** A row of `model_pricing_versions`; `to` is NULL while the version is in force. */
  datatype Version = Version(number: int, price: Price, active: bool, from: Time, to: Option<Time>)

  /** A model row and its versions, in order of insertion. */
  datatype Listing = Listing(org: Id, price: Price, versions: seq<Version>)

  datatype PricingError = BadInput | NotFound | Database
  datatype Updated = Ok(previous: Version, current: Version) | Err(error: PricingError)

  // ----- The SQL statements ---------------------------------------------------

  function MaxNumber(vs: seq<Version>): int {
    if vs == [] then 0 else Max(MaxNumber(vs[..|vs| - 1]), vs[|vs| - 1].number)
  }

  function SupersedeRow(v: Version, now: Time): Version {
    if v.active then v.(active := false, to := Some(now)) else v
  }

  /** UPDATE ... SET status = 'superseded', effective_to = now WHERE status = 'active'. */
  function Supersede(vs: seq<Version>, now: Time): (r: seq<Version>)
    ensures |r| == |vs| && forall i :: 0 <= i < |vs| ==> r[i] == SupersedeRow(vs[i], now)
  {
    seq(|vs|, i requires 0 <= i < |vs| => SupersedeRow(vs[i], now))
  }

  /** Position of the active version, or of none. */
  function ActiveIndex(vs: seq<Version>): Option<nat>
    ensures ActiveIndex(vs).Some? ==> ActiveIndex(vs).value < |vs| && vs[ActiveIndex(vs).value].active
    ensures ActiveIndex(vs).None? ==> forall i :: 0 <= i < |vs| ==> !vs[i].active
  {
    if vs == [] then None
    else if vs[|vs| - 1].active then Some(|vs| - 1)
    else ActiveIndex(vs[..|vs| - 1])
  }

  // ----- The timeline ---------------------------------------------------------

  predicate Covers(v: Version, t: Time) {
    v.from <= t && (v.to.None? || t < v.to.value)
  }

  /** Versions 1..n without gaps, only the last in force, each ending where the next begins. */
  ghost predicate Timeline(l: Listing) {
    var vs, n := l.versions, |l.versions|;
    && n > 0
    && (forall i :: 0 <= i < n ==> vs[i].number == i + 1)
    && (forall i :: 0 <= i < n ==> (vs[i].active <==> i == n - 1))
    && (forall i :: 0 <= i < n - 1 ==> vs[i].to == Some(vs[i + 1].from) && vs[i].from <= vs[i + 1].from)
    && vs[n - 1].to == None
    && vs[n - 1].price == l.price
    && (forall i :: 0 <= i < n ==> vs[i].price.input >= 0 && vs[i].price.output >= 0)
  }

  lemma {:induction false} FromsRise(l: Listing, i: nat, j: nat)
    requires Timeline(l) && i <= j < |l.versions|
    ensures l.versions[i].from <= l.versions[j].from
    decreases j
  {
    if i < j { FromsRise(l, i, j - 1); }
  }

  /** From the model's creation on, every instant is covered by exactly one version. */
  lemma {:induction false} TimelinePartitions(l: Listing, t: Time)
    requires Timeline(l) && l.versions[0].from <= t
    ensures exists i :: 0 <= i < |l.versions| && Covers(l.versions[i], t)
    ensures forall i, j :: 0 <= i < |l.versions| && 0 <= j < |l.versions| && Covers(l.versions[i], t) && Covers(l.versions[j], t) ==> i == j
  {
    var i := LastBegun(l, t, |l.versions| - 1);
    assert Covers(l.versions[i], t);
    forall i, j | 0 <= i < j < |l.versions| && Covers(l.versions[i], t) ensures !Covers(l.versions[j], t) {
      FromsRise(l, i + 1, j);
    }
  }

  lemma {:induction false} LastBegun(l: Listing, t: Time, n: nat) returns (i: nat)
    requires Timeline(l) && l.versions[0].from <= t && n < |l.versions|
    requires n + 1 < |l.versions| ==> t < l.versions[n + 1].from
    ensures i <= n && Covers(l.versions[i], t)
    decreases n
  {
    i := n;
    if t < l.versions[n].from { i := LastBegun(l, t, n - 1); }
  }

  lemma {:induction false} MaxNumberIsCount(vs: seq<Version>)
    requires forall i :: 0 <= i < |vs| ==> vs[i].number == i + 1
    ensures MaxNumber(vs) == |vs|
  {
    if vs != [] {
      assert forall i :: 0 <= i < |vs| - 1 ==> vs[..|vs| - 1][i] == vs[i];
      MaxNumberIsCount(vs[..|vs| - 1]);
    }
  }

  /** The version in force carries the model row's price. */
  lemma ActiveIsModelPrice(l: Listing)
    requires Timeline(l)
    ensures ActiveIndex(l.versions) == Some(|l.versions| - 1)
    ensures l.versions[ActiveIndex(l.versions).value].price == l.price
  {
  }

  function Created(org: Id, price: Price, now: Time): Listing {
    Listing(org, price, [Version(1, price, true, now, None)])
  }

  /** What the checks of a price change and the constraints of the tables let through. */
  predicate CanReprice(l: Listing, price: Price, now: Time) {
    && price.input >= 0 && price.output >= 0
    && 0 < |l.versions| < INT32_MAX && l.versions[|l.versions| - 1].from <= now
  }

  /** The listing after a price change at `now`. */
  function Repriced(l: Listing, price: Price, now: Time): Listing
    requires l.versions != []
  {
    var n := |l.versions|;
    l.(price := price,
       versions := l.versions[..n - 1] + [l.versions[n - 1].(active := false, to := Some(now)), Version(n + 1, price, true, now, None)])
  }

  lemma RepricedTimeline(l: Listing, price: Price, now: Time)
    requires Timeline(l) && CanReprice(l, price, now)
    ensures Timeline(Repriced(l, price, now))
  {
  }

  /** The statements of a price change, on a listing in order, amount to `Repriced`. */
  lemma StatementsReprice(l: Listing, price: Price, now: Time)
    requires Timeline(l)
    ensures MaxNumber(l.versions) == |l.versions|
    ensures ActiveIndex(l.versions) == Some(|l.versions| - 1)
    ensures forall i :: 0 <= i < |l.versions| ==> Supersede(l.versions, now)[i].number != |l.versions| + 1
    ensures l.(price := price, versions := Supersede(l.versions, now) + [Version(|l.versions| + 1, price, true, now, None)])
         == Repriced(l, price, now)
  {
    MaxNumberIsCount(l.versions);
    ActiveIsModelPrice(l);
    assert Supersede(l.versions, now) + [Version(|l.versions| + 1, price, true, now, None)] == Repriced(l, price, now).versions;
  }

  // ----- Transactions ---------------------------------------------------------

  class PricingService {
    var listings: map<Id, Listing>

    ghost predicate Valid()
      reads this
    {
      forall m :: m in listings ==> Timeline(listings[m])
    }

    constructor ()
      ensures Valid() && listings == map[]
    {
      listings := map[];
    }

    /** Creates a model together with its first version. */
    method CreateModel(model: Id, org: Id, price: Price, now: Time) returns (ok: bool)
      requires Valid()
      modifies this
      ensures Valid()
      ensures ok <==> model !in old(listings) && model != NIL && org != NIL && price.input >= 0 && price.output >= 0
      ensures listings == if ok then old(listings)[model := Created(org, price, now)] else old(listings)
      ensures ok ==> listings[model] == Listing(org, price, [Version(1, price, true, now, None)])
    {
      if model in listings || model == NIL || org == NIL || price.input < 0 || price.output < 0 {
        return false;
      }
      listings := listings[model := Created(org, price, now)];
      ok := true;
    }

    /** `UpdateModelPricing`: supersede the active version, update the model row, insert the next version. */
    method UpdateModelPricing(model: Id, org: Id, price: Price, now: Time) returns (r: Updated)
      requires Valid()
      modifies this
      ensures Valid()
      ensures r.Err? ==> listings == old(listings)
      ensures r.Ok? <==>
                && model != NIL && org != NIL
                && model in old(listings) && old(listings)[model].org == org && CanReprice(old(listings)[model], price, now)
      ensures r.Ok? ==>
                var l := old(listings)[model];
                var n := |l.versions|;
                && listings == old(listings)[model := Repriced(l, price, now)]
                && r.previous == listings[model].versions[n - 1] && r.current == listings[model].versions[n]
      ensures r.Ok? ==>
                var before := old(listings)[model];
                var n := |before.versions|;
                && price.input >= 0 && price.output >= 0 && n < 0x7FFF_FFFF && before.versions[n - 1].from <= now
                && r.current == Version(n + 1, price, true, now, None)
                && r.previous == Version(n, before.price, false, before.versions[n - 1].from, Some(now))
                && listings[model] == Listing(org, price, before.versions[..n - 1] + [r.previous, r.current])
                && forall m :: m != model ==> (m in listings <==> m in old(listings)) && (m in listings ==> listings[m] == old(listings)[m])
    {
      if org == NIL || model == NIL || price.input < 0 || price.output < 0 { return Err(BadInput); }
      if model !in listings || listings[model].org != org { return Err(NotFound); }
      var changed := ChangePrice(listings[model], price, now);
      if changed.None? { return Err(Database); }
      var n := |listings[model].versions|;
      listings := listings[model := changed.value];
      r := Ok(changed.value.versions[n - 1], changed.value.versions[n]);
    }

    /** The statements of the transaction, on the model's own rows; None when one of them fails. */
    static method ChangePrice(l: Listing, price: Price, now: Time) returns (r: Option<Listing>)
      requires Timeline(l) && price.input >= 0 && price.output >= 0
      ensures r.Some? <==> CanReprice(l, price, now)
      ensures r.Some? ==> r.value == Repriced(l, price, now) && Timeline(r.value)
    {
      StatementsReprice(l, price, now);
      var nextVersion := MaxNumber(l.versions) + 1;
      if nextVersion > INT32_MAX { return None; }
      var active := ActiveIndex(l.versions);
      if active.None? { return None; }
      if now < l.versions[active.value].from { return None; }  // CHECK (effective_to >= effective_from)
      var row := l.(versions := Supersede(l.versions, now));
      row := row.(price := price);
      assert forall i :: 0 <= i < |row.versions| ==> row.versions[i].number != nextVersion;  // UNIQUE(org_id, model_id, version) holds
      row := row.(versions := row.versions + [Version(nextVersion, price, true, now, None)]);
      RepricedTimeline(l, price, now);
      r := Some(row);
    }
  }
}
