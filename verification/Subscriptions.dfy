/** Plans, their entitlements, and the one subscription of a tenant that counts as active. */
module Subscriptions {
  import opened Basics

  /** An entry of a plan's entitlements. Values that are no numbers carry no quota; int() may still
      make a number of one. */
  datatype Entitlement = Limit(metric: string, included: int) | Note(metric: string, asInt: Option<int>)

  /** Entitlements are a dictionary: no metric occurs twice. */
  ghost predicate IsDictionary(entitlements: seq<Entitlement>) {
    forall i, j :: 0 <= i < j < |entitlements| ==> entitlements[i].metric != entitlements[j].metric
  }

  /** The limit on a metric, if there is one. */
  function LimitOf(entitlements: seq<Entitlement>, metric: string): Option<int> {
    if entitlements == [] then None
    else if entitlements[0].Limit? && entitlements[0].metric == metric then Some(entitlements[0].included)
    else LimitOf(entitlements[1..], metric)
  }

  datatype Plan = Plan(monthly: int, annual: int, entitlements: seq<Entitlement>, rates: map<string, int>)

  datatype SubscriptionStatus = Trialing | Active | PastDue | Cancelled

  /** number: the number of the period's invoice, rendered from its first month and the id. */
  datatype Subscription = Subscription(id: string, plan: string, status: SubscriptionStatus, annual: bool,
                                       start: int, end: int, createdAt: int, number: string)

  predicate IsLive(s: Subscription) {
    s.status in {Trialing, Active, PastDue}
  }

  /** The youngest live subscription; among equally old ones the first row. */
  function ActiveSubscription(subs: seq<Subscription>): Option<Subscription> {
    if subs == [] then None
    else
      var n := |subs| - 1;
      var best := ActiveSubscription(subs[..n]);
      if IsLive(subs[n]) && (best.None? || best.value.createdAt < subs[n].createdAt) then Some(subs[n]) else best
  }

  lemma {:induction false} ActiveIsYoungestLive(subs: seq<Subscription>)
    ensures var best := ActiveSubscription(subs);
            if best.None? then forall s <- subs :: s.status.Cancelled?
            else
              && best.value in subs && !best.value.status.Cancelled?
              && forall s <- subs :: !s.status.Cancelled? ==> s.createdAt <= best.value.createdAt
  {
    if subs == [] {
    } else {
      ActiveIsYoungestLive(subs[..|subs| - 1]);
      assert subs == subs[..|subs| - 1] + [subs[|subs| - 1]];
    }
  }

  function PlanEntitlements(plans: map<string, Plan>, s: Subscription): seq<Entitlement> {
    if s.plan in plans then plans[s.plan].entitlements else []
  }

  /** The entitlements quotas are measured against: those of the active subscription, whatever
      subscription the caller has in mind. */
  function ActiveEntitlements(subs: seq<Subscription>, plans: map<string, Plan>): seq<Entitlement> {
    match ActiveSubscription(subs)
    case None => []
    case Some(s) => PlanEntitlements(plans, s)
  }

  function FindSubscription(subs: seq<Subscription>, id: string): (found: Option<Subscription>)
    ensures found.None? <==> forall s <- subs :: s.id != id
    ensures found.Some? ==> found.value in subs && found.value.id == id
  {
    if subs == [] then None else if subs[0].id == id then Some(subs[0]) else FindSubscription(subs[1..], id)
  }

  // ----- Dictionaries -----

  lemma {:induction false} LimitIsAnEntry(entitlements: seq<Entitlement>, metric: string)
    ensures var limit := LimitOf(entitlements, metric);
            if limit.None? then forall e <- entitlements :: e.Limit? ==> e.metric != metric
            else Limit(metric, limit.value) in entitlements
  {
    if entitlements == [] {
    } else {
      LimitIsAnEntry(entitlements[1..], metric);
      assert entitlements == [entitlements[0]] + entitlements[1..];
    }
  }

  /** In a dictionary the limit on a metric is the only entry for it. */
  lemma {:induction false} EntryIsTheLimit(entitlements: seq<Entitlement>, e: Entitlement)
    requires IsDictionary(entitlements) && e in entitlements && e.Limit?
    ensures LimitOf(entitlements, e.metric) == Some(e.included)
  {
    if entitlements[0] != e {
      var rest := entitlements[1..];
      assert e in rest;
      EntryIsTheLimit(rest, e);
      var k :| 0 <= k < |rest| && rest[k] == e;
      assert entitlements[k + 1].metric == e.metric;
    }
  }
}
