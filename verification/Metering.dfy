/** Idempotent usage records, the sums a billing period takes over them, and quotas. */
module Metering {
  import opened Basics
  import opened Subscriptions

  datatype UsageRecord = UsageRecord(key: string, metric: string, quantity: int, unit: string, cost: int,
                                     source: string, subscription: Option<string>, at: int)

  // ----- Recording -----

  predicate Admissible(r: UsageRecord) {
    r.quantity >= 0 && r.cost >= 0
  }

  predicate HasKey(records: seq<UsageRecord>, key: string) {
    exists i :: 0 <= i < |records| && records[i].key == key
  }

  /** One call, given as the row it would insert. A negative amount raises and stores nothing. */
  function Recorded(records: seq<UsageRecord>, r: UsageRecord): seq<UsageRecord> {
    if !Admissible(r) || HasKey(records, r.key) then records else records + [r]
  }

  function RecordedAll(records: seq<UsageRecord>, calls: seq<UsageRecord>): seq<UsageRecord>
    decreases calls
  {
    if calls == [] then records else RecordedAll(Recorded(records, calls[0]), calls[1..])
  }

  /** The table every sequence of calls leads to from an empty one. */
  ghost predicate Recordable(records: seq<UsageRecord>) {
    && (forall r <- records :: Admissible(r))
    && (forall i, j :: 0 <= i < j < |records| ==> records[i].key != records[j].key)
  }

  /** Call i is the first admissible one with its key. */
  ghost predicate FirstWithKey(calls: seq<UsageRecord>, i: int) {
    && 0 <= i < |calls| && Admissible(calls[i])
    && forall j :: 0 <= j < i && Admissible(calls[j]) ==> calls[j].key != calls[i].key
  }

  /** A retry: refused for a negative amount, or its key was seen in an admissible call before. */
  ghost predicate IsReplay(before: seq<UsageRecord>, r: UsageRecord) {
    Admissible(r) ==> exists i :: 0 <= i < |before| && Admissible(before[i]) && before[i].key == r.key
  }

  // ----- Sums over a period -----

  /** Rows with a <= occurred_at < b. */
  function Window(records: seq<UsageRecord>, a: int, b: int): seq<UsageRecord> {
    if records == [] then []
    else (if a <= records[0].at < b then [records[0]] else []) + Window(records[1..], a, b)
  }

  function Quantity(rows: seq<UsageRecord>, metric: string): int {
    if rows == [] then 0 else (if rows[0].metric == metric then rows[0].quantity else 0) + Quantity(rows[1..], metric)
  }

  function CostOf(rows: seq<UsageRecord>, metric: string): int {
    if rows == [] then 0 else (if rows[0].metric == metric then rows[0].cost else 0) + CostOf(rows[1..], metric)
  }

  function Cost(rows: seq<UsageRecord>): int {
    if rows == [] then 0 else rows[0].cost + Cost(rows[1..])
  }

  datatype Usage = Usage(metric: string, quantity: int, cost: int)

  /** What GROUP BY metric_key may return: one row per metric that occurs, in any order. */
  ghost predicate IsGrouping(usage: seq<Usage>, rows: seq<UsageRecord>) {
    && (forall i, j :: 0 <= i < j < |usage| ==> usage[i].metric != usage[j].metric)
    && (forall u <- usage :: u.quantity == Quantity(rows, u.metric) && u.cost == CostOf(rows, u.metric))
    && (forall r <- rows :: exists u :: u in usage && u.metric == r.metric)
  }

  function SumOfCosts(usage: seq<Usage>): int {
    if usage == [] then 0 else usage[0].cost + SumOfCosts(usage[1..])
  }

  // ----- Quotas -----

  datatype Quota = Quota(metric: string, included: int, consumed: int, remaining: int, overage: int)

  function Max0(x: int): int {
    if x > 0 then x else 0
  }

  function QuotaOf(e: Entitlement, rows: seq<UsageRecord>): Quota
    requires e.Limit?
  {
    var consumed := Quantity(rows, e.metric);
    Quota(e.metric, e.included, consumed, Max0(e.included - consumed), Max0(consumed - e.included))
  }

  function Quotas(entitlements: seq<Entitlement>, rows: seq<UsageRecord>): seq<Quota> {
    if entitlements == [] then []
    else
      var n := |entitlements| - 1;
      var before := Quotas(entitlements[..n], rows);
      if entitlements[n].Limit? then before + [QuotaOf(entitlements[n], rows)] else before
  }

  // ----- The services -----

  const EPOCH := 0

  /** Rows of a period; the bounds default to the active subscription's, then to all time. */
  function PeriodRows(records: seq<UsageRecord>, active: Option<Subscription>, start: Option<int>, end: Option<int>,
                      now: int)
    : seq<UsageRecord>
  {
    var from := if start.Some? then start.value else if active.Some? then active.value.start else EPOCH;
    var to := if end.Some? then end.value else if active.Some? then active.value.end else now + DAY;
    Window(records, from, to)
  }

  /** Exactly the rows from the start of the period up to, but not including, its end. */
  lemma {:induction false} WindowIsHalfOpen(records: seq<UsageRecord>, a: int, b: int)
    ensures forall r :: r in Window(records, a, b) <==> r in records && a <= r.at && r.at < b
  {
    if records == [] {
    } else {
      WindowIsHalfOpen(records[1..], a, b);
      assert records == [records[0]] + records[1..];
    }
  }

  ghost predicate FirstQuota(quota: seq<Quota>, metric: string, i: int) {
    && 0 <= i < |quota| && quota[i].metric == metric
    && forall j :: 0 <= j < i ==> quota[j].metric != metric
  }

  lemma {:induction false} QuotasOfTail(entitlements: seq<Entitlement>, rows: seq<UsageRecord>)
    requires entitlements != []
    ensures Quotas(entitlements, rows) ==
            (if entitlements[0].Limit? then [QuotaOf(entitlements[0], rows)] else []) + Quotas(entitlements[1..], rows)
  {
    var n := |entitlements| - 1;
    if n > 0 {
      QuotasOfTail(entitlements[..n], rows);
      assert entitlements[..n][1..] == entitlements[1..][..n - 1];
    } else {
      assert entitlements[..n] == [] && entitlements[1..] == [];
    }
  }

  /** The first quota of a metric is the one of its limit. */
  lemma {:induction false} FirstQuotaIsTheLimit(entitlements: seq<Entitlement>, rows: seq<UsageRecord>, metric: string)
    ensures var quota, limit := Quotas(entitlements, rows), LimitOf(entitlements, metric);
            if limit.None? then forall q <- quota :: q.metric != metric
            else exists i :: FirstQuota(quota, metric, i) && quota[i].included == limit.value
                             && quota[i].consumed == Quantity(rows, metric)
  {
    if entitlements == [] {
    } else {
      var e, rest := entitlements[0], entitlements[1..];
      FirstQuotaIsTheLimit(rest, rows, metric);
      QuotasOfTail(entitlements, rows);
      var quota, later := Quotas(entitlements, rows), Quotas(rest, rows);
      if e.Limit? && e.metric == metric {
        assert FirstQuota(quota, metric, 0);
      } else if LimitOf(rest, metric).Some? {
        var i :| FirstQuota(later, metric, i) && later[i].included == LimitOf(rest, metric).value
                 && later[i].consumed == Quantity(rows, metric);
        var k := if e.Limit? then i + 1 else i;
        assert quota[k] == later[i];
        assert FirstQuota(quota, metric, k);
      }
    }
  }

  lemma {:induction false} SumsOfJoin(a: seq<UsageRecord>, b: seq<UsageRecord>, metric: string)
    ensures Quantity(a + b, metric) == Quantity(a, metric) + Quantity(b, metric)
    ensures CostOf(a + b, metric) == CostOf(a, metric) + CostOf(b, metric)
    ensures Cost(a + b) == Cost(a) + Cost(b)
  {
    if a == [] {
      assert a + b == b;
    } else {
      assert (a + b)[1..] == a[1..] + b;
      SumsOfJoin(a[1..], b, metric);
    }
  }

  lemma {:induction false} AddedRow(rows: seq<UsageRecord>, r: UsageRecord)
    ensures forall m {:trigger Quantity(rows + [r], m)} ::
              Quantity(rows + [r], m) == Quantity(rows, m) + if r.metric == m then r.quantity else 0
    ensures forall m {:trigger CostOf(rows + [r], m)} ::
              CostOf(rows + [r], m) == CostOf(rows, m) + if r.metric == m then r.cost else 0
    ensures Cost(rows + [r]) == Cost(rows) + r.cost
  {
    forall m: string
      ensures Quantity(rows + [r], m) == Quantity(rows, m) + if r.metric == m then r.quantity else 0
      ensures CostOf(rows + [r], m) == CostOf(rows, m) + if r.metric == m then r.cost else 0
    {
      SumsOfJoin(rows, [r], m);
    }
    SumsOfJoin(rows, [r], "");
  }

  lemma {:induction false} GroupRaised(usage: seq<Usage>, rows: seq<UsageRecord>, r: UsageRecord, i: nat,
                                       more: seq<Usage>)
    requires IsGrouping(usage, rows) && i < |usage| && usage[i].metric == r.metric
    requires more == usage[i := Usage(r.metric, usage[i].quantity + r.quantity, usage[i].cost + r.cost)]
    ensures IsGrouping(more, rows + [r])
  {
    AddedRow(rows, r);
    forall u | u in more
      ensures u.quantity == Quantity(rows + [r], u.metric) && u.cost == CostOf(rows + [r], u.metric)
    {
      assert usage[i] in usage;
    }
    forall x | x in rows + [r]
      ensures exists u :: u in more && u.metric == x.metric
    {
      assert more[i].metric == r.metric;
      if x.metric != r.metric {
        var u :| u in usage && u.metric == x.metric;
        var k :| 0 <= k < |usage| && usage[k] == u;
        assert more[k] == u;
      }
    }
  }

  lemma {:induction false} NoRowNoQuantity(rows: seq<UsageRecord>, metric: string)
    requires forall r <- rows :: r.metric != metric
    ensures Quantity(rows, metric) == 0 && CostOf(rows, metric) == 0
  {
    if rows == [] {
    } else {
      NoRowNoQuantity(rows[1..], metric);
    }
  }

  lemma {:induction false} GroupOpened(usage: seq<Usage>, rows: seq<UsageRecord>, r: UsageRecord, more: seq<Usage>)
    requires IsGrouping(usage, rows) && forall u <- usage :: u.metric != r.metric
    requires more == usage + [Usage(r.metric, r.quantity, r.cost)]
    ensures IsGrouping(more, rows + [r])
  {
    AddedRow(rows, r);
    forall x | x in rows
      ensures x.metric != r.metric
    {
      var u :| u in usage && u.metric == x.metric;
    }
    NoRowNoQuantity(rows, r.metric);
    forall x | x in rows + [r]
      ensures exists u :: u in more && u.metric == x.metric
    {
      if x in rows {
        var u :| u in usage && u.metric == x.metric;
        assert u in more;
      } else {
        assert more[|usage|].metric == x.metric;
      }
    }
  }

  method AddRow(usage: seq<Usage>, ghost rows: seq<UsageRecord>, r: UsageRecord) returns (more: seq<Usage>)
    requires IsGrouping(usage, rows)
    ensures IsGrouping(more, rows + [r])
  {
    for i := 0 to |usage|
      invariant forall j :: 0 <= j < i ==> usage[j].metric != r.metric
    {
      if usage[i].metric == r.metric {
        more := usage[i := Usage(r.metric, usage[i].quantity + r.quantity, usage[i].cost + r.cost)];
        GroupRaised(usage, rows, r, i, more);
        return;
      }
    }
    more := usage + [Usage(r.metric, r.quantity, r.cost)];
    GroupOpened(usage, rows, r, more);
  }

  method GroupByMetric(rows: seq<UsageRecord>) returns (usage: seq<Usage>)
    ensures IsGrouping(usage, rows)
  {
    usage := [];
    for i := 0 to |rows|
      invariant IsGrouping(usage, rows[..i])
    {
      usage := AddRow(usage, rows[..i], rows[i]);
      assert rows[..i + 1] == rows[..i] + [rows[i]];
    }
    assert rows[..|rows|] == rows;
  }

  method QuantityIn(usage: seq<Usage>, ghost rows: seq<UsageRecord>, metric: string) returns (consumed: int)
    requires IsGrouping(usage, rows)
    ensures consumed == Quantity(rows, metric)
  {
    for i := 0 to |usage|
      invariant forall j :: 0 <= j < i ==> usage[j].metric != metric
    {
      if usage[i].metric == metric { return usage[i].quantity; }
    }
    NoRowNoQuantity(rows, metric);
    consumed := 0;
  }

  /** What a tenant has used, against the entitlements of its active subscription. */
  class Meter {
    var subscriptions: seq<Subscription>
    var plans: map<string, Plan>
    var records: seq<UsageRecord>

    constructor (subscriptions: seq<Subscription>, plans: map<string, Plan>)
      ensures this.subscriptions == subscriptions && this.plans == plans && records == []
    {
      this.subscriptions, this.plans, records := subscriptions, plans, [];
    }

    /** The row a call inserts names the active subscription of that moment. */
    function RowFor(r: UsageRecord): UsageRecord
      reads this
    {
      var active := ActiveSubscription(subscriptions);
      r.(subscription := if active.Some? then Some(active.value.id) else None)
    }

    method RecordUsage(r: UsageRecord) returns (row: Option<UsageRecord>)
      modifies this`records
      ensures records == Recorded(old(records), RowFor(r))
      ensures row.None? <==> r.quantity < 0 || r.cost < 0
      ensures row.None? ==> records == old(records)
      ensures row.Some? ==> row.value in records && row.value.key == r.key
      ensures row.Some? && !HasKey(old(records), r.key) ==>
                && records == old(records) + [row.value] && row.value == r.(subscription := row.value.subscription)
                && match ActiveSubscription(subscriptions)
                   case None => row.value.subscription == None
                   case Some(s) => row.value.subscription == Some(s.id)
      ensures row.Some? && HasKey(old(records), r.key) ==> row.value in old(records)
    {
      if r.quantity < 0 || r.cost < 0 { return None; }
      for i := 0 to |records|
        invariant forall j :: 0 <= j < i ==> records[j].key != r.key
      {
        if records[i].key == r.key { return Some(records[i]); }
      }
      row := Some(RowFor(r));
      records := records + [row.value];
    }

    method UsageSummary(start: Option<int>, end: Option<int>, now: int)
      returns (active: Option<Subscription>, usage: seq<Usage>, quota: seq<Quota>)
      ensures active == ActiveSubscription(subscriptions)
      ensures IsGrouping(usage, PeriodRows(records, active, start, end, now))
      ensures quota == Quotas(ActiveEntitlements(subscriptions, plans), PeriodRows(records, active, start, end, now))
      ensures match active
              case Some(s) =>
                var rows := Window(records, start.UnwrapOr(s.start), end.UnwrapOr(s.end));
                && IsGrouping(usage, rows)
                && quota == if s.plan in plans then Quotas(plans[s.plan].entitlements, rows) else []
              case None =>
                IsGrouping(usage, Window(records, start.UnwrapOr(0), end.UnwrapOr(now + 86_400_000_000))) && quota == []
    {
      active := ActiveSubscription(subscriptions);
      var rows := PeriodRows(records, active, start, end, now);
      usage := GroupByMetric(rows);
      var entitlements := [];
      if active.Some? && active.value.plan in plans {
        entitlements := plans[active.value.plan].entitlements;
      }
      quota := [];
      for i := 0 to |entitlements|
        invariant quota == Quotas(entitlements[..i], rows)
      {
        assert entitlements[..i + 1][..i] == entitlements[..i];
        if entitlements[i].Limit? {
          var metric, included := entitlements[i].metric, entitlements[i].included;
          var consumed := QuantityIn(usage, rows, metric);
          quota := quota + [Quota(metric, included, consumed, Max0(included - consumed), Max0(consumed - included))];
        }
      }
      assert entitlements[..|entitlements|] == entitlements;
    }

    /** True for a metric without limit; otherwise exactly when the increment still fits. */
    method QuotaAllows(metric: string, increment: int, now: int) returns (allowed: bool)
      ensures var rows := PeriodRows(records, ActiveSubscription(subscriptions), None, None, now);
              var limit := LimitOf(ActiveEntitlements(subscriptions, plans), metric);
              allowed <==> limit.None? || Quantity(rows, metric) + increment <= limit.value
    {
      var active, _, quota := UsageSummary(None, None, now);
      ghost var entitlements := ActiveEntitlements(subscriptions, plans);
      ghost var rows := PeriodRows(records, active, None, None, now);
      FirstQuotaIsTheLimit(entitlements, rows, metric);
      for i := 0 to |quota|
        invariant forall j :: 0 <= j < i ==> quota[j].metric != metric
      {
        if quota[i].metric == metric { return quota[i].consumed + increment <= quota[i].included; }
      }
      allowed := true;
    }
  }

  // ----- Sums -----

  lemma {:induction false} FirstInWindow(records: seq<UsageRecord>, metric: string, a: int, b: int)
    requires records != []
    ensures var r, rest, counts := records[0], Window(records[1..], a, b), a <= records[0].at < b;
            && Quantity(Window(records, a, b), metric) ==
                 Quantity(rest, metric) + (if counts && r.metric == metric then r.quantity else 0)
            && Cost(Window(records, a, b)) == Cost(rest) + (if counts then r.cost else 0)
  {
    var rest := Window(records[1..], a, b);
    if a <= records[0].at < b {
      assert Window(records, a, b)[1..] == rest;
    } else {
      assert Window(records, a, b) == rest;
    }
  }

  /** Adjacent periods add up, metric by metric and in cost, with no record lost or counted twice. */
  lemma {:induction false} PeriodsAddUp(records: seq<UsageRecord>, metric: string, a: int, b: int, c: int)
    requires a <= b <= c
    ensures Quantity(Window(records, a, c), metric) ==
            Quantity(Window(records, a, b), metric) + Quantity(Window(records, b, c), metric)
    ensures Cost(Window(records, a, c)) == Cost(Window(records, a, b)) + Cost(Window(records, b, c))
  {
    if records == [] {
    } else {
      PeriodsAddUp(records[1..], metric, a, b, c);
      FirstInWindow(records, metric, a, c);
      FirstInWindow(records, metric, a, b);
      FirstInWindow(records, metric, b, c);
    }
  }

  function Without(rows: seq<UsageRecord>, metric: string): seq<UsageRecord> {
    if rows == [] then []
    else (if rows[0].metric == metric then [] else [rows[0]]) + Without(rows[1..], metric)
  }

  lemma {:induction false} WithoutMetric(rows: seq<UsageRecord>, metric: string, other: string)
    ensures Cost(rows) == CostOf(rows, metric) + Cost(Without(rows, metric))
    ensures other != metric ==> Quantity(Without(rows, metric), other) == Quantity(rows, other)
    ensures other != metric ==> CostOf(Without(rows, metric), other) == CostOf(rows, other)
    ensures forall r <- Without(rows, metric) :: r in rows && r.metric != metric
  {
    if rows == [] {
    } else {
      WithoutMetric(rows[1..], metric, other);
      var rest := Without(rows[1..], metric);
      assert Without(rows, metric) == if rows[0].metric == metric then rest else [rows[0]] + rest;
      if rows[0].metric != metric {
        assert Without(rows, metric)[1..] == rest;
      }
    }
  }

  /** However the database orders its groups, their costs add up to the cost of all rows. */
  lemma {:induction false} GroupsAddUp(usage: seq<Usage>, rows: seq<UsageRecord>)
    requires IsGrouping(usage, rows)
    ensures SumOfCosts(usage) == Cost(rows)
  {
    assert rows != [] ==> rows[0] in rows;
    if usage == [] {
    } else {
      var m, rest, others := usage[0].metric, usage[1..], Without(rows, usage[0].metric);
      WithoutMetric(rows, m, m);
      forall u | u in rest
        ensures u.quantity == Quantity(others, u.metric) && u.cost == CostOf(others, u.metric)
      {
        WithoutMetric(rows, m, u.metric);
      }
      forall r | r in others
        ensures exists u :: u in rest && u.metric == r.metric
      {
        var u :| u in usage && u.metric == r.metric;
        assert u in rest;
      }
      GroupsAddUp(rest, others);
    }
  }

  // ----- Exactly once -----

  lemma {:induction false} RecordedAllOfJoin(records: seq<UsageRecord>, a: seq<UsageRecord>, b: seq<UsageRecord>)
    ensures RecordedAll(records, a + b) == RecordedAll(RecordedAll(records, a), b)
    decreases a
  {
    if a == [] {
      assert a + b == b;
    } else {
      assert (a + b)[1..] == a[1..] + b;
      RecordedAllOfJoin(Recorded(records, a[0]), a[1..], b);
    }
  }

  lemma {:induction false} KeyAdded(table: seq<UsageRecord>, r: UsageRecord, k: string)
    ensures HasKey(Recorded(table, r), k) <==> HasKey(table, k) || (Admissible(r) && r.key == k)
  {
    var more := Recorded(table, r);
    if HasKey(table, k) {
      var i :| 0 <= i < |table| && table[i].key == k;
      assert more[i].key == k;
    } else if Admissible(r) && r.key == k {
      assert more[|table|].key == k;
    }
  }

  /** The keys of the table are the keys of the admissible calls. */
  lemma {:induction false} KeysSeen(calls: seq<UsageRecord>)
    ensures forall k :: HasKey(RecordedAll([], calls), k) <==>
              exists i :: 0 <= i < |calls| && Admissible(calls[i]) && calls[i].key == k
  {
    if calls == [] {
    } else {
      var n := |calls| - 1;
      KeysSeen(calls[..n]);
      RecordedAllOfJoin([], calls[..n], [calls[n]]);
      assert calls == calls[..n] + [calls[n]];
      var table := RecordedAll([], calls[..n]);
      assert RecordedAll([], calls) == Recorded(table, calls[n]);
      forall k
        ensures HasKey(RecordedAll([], calls), k) <==>
                  exists i :: 0 <= i < |calls| && Admissible(calls[i]) && calls[i].key == k
      {
        KeyAdded(table, calls[n], k);
        assert HasKey(table, k) <==> exists i :: 0 <= i < n && Admissible(calls[..n][i]) && calls[..n][i].key == k;
      }
    }
  }

  /** The table holds exactly the first admissible call of every key, each once. */
  lemma {:induction false} FirstCallWins(calls: seq<UsageRecord>)
    ensures Recordable(RecordedAll([], calls))
    ensures forall r :: r in RecordedAll([], calls) <==> exists i :: FirstWithKey(calls, i) && calls[i] == r
  {
    if calls == [] {
      assert forall i :: !FirstWithKey(calls, i);
    } else {
      var n := |calls| - 1;
      var before, last := calls[..n], calls[n];
      FirstCallWins(before);
      RecordedAllOfJoin([], before, [last]);
      assert calls == before + [last];
      var table := RecordedAll([], before);
      assert RecordedAll([], calls) == Recorded(table, last);
      KeysSeen(before);
      assert forall i :: 0 <= i < n ==> (FirstWithKey(calls, i) <==> FirstWithKey(before, i));
      assert FirstWithKey(calls, n) <==> Admissible(last) && !HasKey(table, last.key);
      forall r
        ensures r in RecordedAll([], calls) <==> exists i :: FirstWithKey(calls, i) && calls[i] == r
      {
        if r in table {
          var i :| FirstWithKey(before, i) && before[i] == r;
          assert FirstWithKey(calls, i);
        }
      }
    }
  }

  lemma {:induction false} KnownKeysAreIgnored(table: seq<UsageRecord>, replays: seq<UsageRecord>)
    requires forall r <- replays :: Admissible(r) ==> HasKey(table, r.key)
    ensures RecordedAll(table, replays) == table
  {
    if replays == [] {
    } else {
      assert replays[0] in replays;
      KnownKeysAreIgnored(table, replays[1..]);
    }
  }

  /** Replays slipped anywhere into a stream of calls leave the whole table, and so every sum
      over it, as it would have been without them. */
  lemma {:induction false} ReplaysChangeNothing(before: seq<UsageRecord>, replays: seq<UsageRecord>,
                                                after: seq<UsageRecord>)
    requires forall r <- replays :: IsReplay(before, r)
    ensures RecordedAll([], before + replays + after) == RecordedAll([], before + after)
  {
    RecordedAllOfJoin([], before + replays, after);
    RecordedAllOfJoin([], before, replays);
    RecordedAllOfJoin([], before, after);
    KeysSeen(before);
    KnownKeysAreIgnored(RecordedAll([], before), replays);
  }

  // ----- Quotas -----

  /** Every quota balances, and only one of its two slack figures can be positive. */
  lemma {:induction false} QuotasBalance(entitlements: seq<Entitlement>, rows: seq<UsageRecord>)
    ensures forall q <- Quotas(entitlements, rows) ::
              && q.consumed == Quantity(rows, q.metric)
              && q.consumed + q.remaining == q.included + q.overage
              && q.remaining >= 0 && q.overage >= 0 && (q.remaining == 0 || q.overage == 0)
    ensures forall e <- entitlements :: e.Limit? ==> QuotaOf(e, rows) in Quotas(entitlements, rows)
  {
    if entitlements == [] {
    } else {
      var n := |entitlements| - 1;
      QuotasBalance(entitlements[..n], rows);
      assert entitlements == entitlements[..n] + [entitlements[n]];
    }
  }

  /** An allowed increment is one whose recording leaves no overage. */
  lemma {:induction false} AllowedMeansNoOverage(e: Entitlement, rows: seq<UsageRecord>, r: UsageRecord)
    requires e.Limit? && r.metric == e.metric
    ensures QuotaOf(e, rows).consumed + r.quantity <= e.included <==> QuotaOf(e, rows + [r]).overage == 0
  {
    AddedRow(rows, r);
  }
}
