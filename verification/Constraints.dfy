/** Which limits a Reserve enforces, and in which order. */
module Constraints {
  import opened Base
  import opened Calendar
  import opened Ledger

  /** OrgLimit is the least limit of the blocking budgets, and None exactly when there are none. */
  lemma {:induction false} OrgLimitIsLeast(budgets: seq<Budget>, org: Id, period: Period)
    ensures var m := OrgLimit(budgets, org, period);
            && (m.None? <==> forall i :: 0 <= i < |budgets| ==> !Blocking(budgets[i], org, period))
            && (m.Some? ==> exists i :: 0 <= i < |budgets| && Blocking(budgets[i], org, period) && budgets[i].limit == m.value)
            && (m.Some? ==> forall i :: 0 <= i < |budgets| && Blocking(budgets[i], org, period) ==> m.value <= budgets[i].limit)
  {
    if budgets != [] {
      OrgLimitIsLeast(budgets[1..], org, period);
      var m, rest := OrgLimit(budgets, org, period), OrgLimit(budgets[1..], org, period);
      assert forall i :: 0 < i < |budgets| ==> budgets[i] == budgets[1..][i - 1];
      if rest.Some? && m == rest {
        var i :| 0 <= i < |budgets[1..]| && Blocking(budgets[1..][i], org, period) && budgets[1..][i].limit == m.value;
        assert Blocking(budgets[i + 1], org, period) && budgets[i + 1].limit == m.value;
      }
    }
  }

  ghost predicate RankOrdered(cs: seq<Constraint>) {
    forall i, j :: 0 <= i < j < |cs| ==> Rank(cs[i]) < Rank(cs[j])
  }

  /** Organisation daily, organisation monthly, key daily, key monthly: each at most once, in this order. */
  lemma LoadedInRankOrder(policy: Policy, org: Id, apiKey: Id)
    requires LoadConstraints(policy, org, apiKey).Some?
    ensures var cs := LoadConstraints(policy, org, apiKey).value;
            && RankOrdered(cs)
            && forall i, j :: 0 <= i < j < |cs| ==>
                 if cs[i].scope == cs[j].scope then cs[i].period == Daily && cs[j].period == Monthly
                 else cs[i].scope == OrgScope && cs[j].scope == KeyScope
  {
  }

  /** The limit in force for a scope and period, if any. */
  function InForce(policy: Policy, org: Id, apiKey: Id, scope: Scope, period: Period): Option<int>
    requires apiKey in policy.keys
  {
    var key := policy.keys[apiKey];
    if scope == OrgScope then OrgLimit(policy.budgets, org, period)
    else if !key.blocks then None
    else if period == Daily then key.daily else key.monthly
  }

  /** Exactly the limits in force are loaded. */
  lemma LoadedExactly(policy: Policy, org: Id, apiKey: Id, c: Constraint)
    requires LoadConstraints(policy, org, apiKey).Some?
    ensures c in LoadConstraints(policy, org, apiKey).value <==>
              && c.scopeId == (if c.scope == OrgScope then org else apiKey)
              && InForce(policy, org, apiKey, c.scope, c.period) == Some(c.limit)
  {
    var key := policy.keys[apiKey];
    var a, b := Optional(OrgScope, org, Daily, OrgLimit(policy.budgets, org, Daily)), Optional(OrgScope, org, Monthly, OrgLimit(policy.budgets, org, Monthly));
    var d, e := Optional(KeyScope, apiKey, Daily, key.daily), Optional(KeyScope, apiKey, Monthly, key.monthly);
    assert LoadConstraints(policy, org, apiKey).value == a + b + (if key.blocks then d + e else []);
    InOptional(c, OrgScope, org, Daily, OrgLimit(policy.budgets, org, Daily));
    InOptional(c, OrgScope, org, Monthly, OrgLimit(policy.budgets, org, Monthly));
    InOptional(c, KeyScope, apiKey, Daily, key.daily);
    InOptional(c, KeyScope, apiKey, Monthly, key.monthly);
  }

  lemma InOptional(c: Constraint, scope: Scope, scopeId: Id, period: Period, limit: Option<int>)
    ensures c in Optional(scope, scopeId, period, limit)
       <==> c.scope == scope && c.scopeId == scopeId && c.period == period && limit == Some(c.limit)
  {
  }

  /** `limit` is the smallest of the organization's active budgets for the period that block over the limit. */
  ghost predicate Strictest(budgets: seq<Budget>, org: Id, period: Period, limit: int) {
    && (exists i :: 0 <= i < |budgets| && budgets[i] == Budget(org, period, limit, true, true))
    && (forall i :: 0 <= i < |budgets| && budgets[i].org == org && budgets[i].period == period && budgets[i].active && budgets[i].blocks ==>
          limit <= budgets[i].limit)
  }

  lemma StrictestIsOrgLimit(budgets: seq<Budget>, org: Id, period: Period, limit: int)
    ensures Strictest(budgets, org, period, limit) <==> OrgLimit(budgets, org, period) == Some(limit)
  {
    OrgLimitIsLeast(budgets, org, period);
    if Strictest(budgets, org, period, limit) {
      var i :| 0 <= i < |budgets| && budgets[i] == Budget(org, period, limit, true, true);
      assert Blocking(budgets[i], org, period);
    }
    if OrgLimit(budgets, org, period) == Some(limit) {
      var i :| 0 <= i < |budgets| && Blocking(budgets[i], org, period) && budgets[i].limit == limit;
      assert budgets[i] == Budget(org, period, limit, true, true);
      forall j | 0 <= j < |budgets| && budgets[j].org == org && budgets[j].period == period && budgets[j].active && budgets[j].blocks
        ensures limit <= budgets[j].limit
      {
        assert Blocking(budgets[j], org, period);
      }
    }
  }

  /** What the two queries return, in the columns of the budgets and of the key. */
  lemma LoadedMeans(policy: Policy, org: Id, apiKey: Id, c: Constraint)
    ensures var cs := LoadConstraints(policy, org, apiKey);
            && (cs.Some? <==> apiKey in policy.keys && policy.keys[apiKey].org == org)
            && (cs.Some? ==>
                  (c in cs.value <==>
                     if c.scope == OrgScope then c.scopeId == org && Strictest(policy.budgets, org, c.period, c.limit)
                     else
                       var key := policy.keys[apiKey];
                       && c.scopeId == apiKey && key.blocks
                       && (if c.period == Daily then key.daily else key.monthly) == Some(c.limit)))
  {
    if LoadConstraints(policy, org, apiKey).Some? {
      LoadedExactly(policy, org, apiKey, c);
      StrictestIsOrgLimit(policy.budgets, org, c.period, c.limit);
    }
  }
}
