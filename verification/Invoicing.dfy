/** Invoices of a subscription period: base price, overage, model cost and floor tax. */
module Invoicing {
  import opened Basics
  import opened Subscriptions
  import opened Metering

  // ----- Tax -----

  datatype TaxRate = TaxRate(bps: int, kind: string)

  function UpperChar(c: char): char {
    if 'a' <= c <= 'z' then (c as int - 32) as char else c
  }

  function Upper(s: string): string {
    seq(|s|, i requires 0 <= i < |s| => UpperChar(s[i]))
  }

  /** An unknown region pays the Chinese rate. */
  function RateOfRegion(region: string): (r: TaxRate)
    ensures 0 <= r.bps <= 1300
  {
    match Upper(region)
    case "CN" => TaxRate(1300, "VAT")
    case "HK" => TaxRate(0, "OUTSIDE_VAT")
    case "SG" => TaxRate(900, "GST")
    case "US" => TaxRate(0, "OUTSIDE_VAT")
    case "EXEMPT" => TaxRate(0, "VAT_EXEMPT")
    case _ => TaxRate(1300, "VAT")
  }

  /** An empty region falls back to the explicit basis points. */
  datatype TaxChoice = TaxChoice(region: string, basisPoints: int)

  function RateFor(t: TaxChoice): TaxRate {
    if t.region != "" then RateOfRegion(t.region) else TaxRate(Max0(t.basisPoints), "VAT")
  }

  /** The region has this code, in upper or lower case. */
  predicate IsCode(region: string, code: string) {
    && |region| == |code|
    && forall i :: 0 <= i < |code| ==> region[i] == code[i] || region[i] as int == code[i] as int + 32
  }

  lemma {:induction false} UpperIsCode(region: string, code: string)
    requires forall c <- code :: 'A' <= c <= 'Z'
    ensures Upper(region) == code <==> IsCode(region, code)
  {
    assert Upper(region) == code ==> forall i :: 0 <= i < |code| ==> UpperChar(region[i]) == code[i];
    assert forall i :: 0 <= i < |code| ==> code[i] in code;
  }

  /** What each region pays; one that is not listed pays the Chinese 13 percent. Without a region the
      given points count, unless they are negative. */
  lemma {:induction false} RegionsPay(t: TaxChoice)
    ensures var r, region := RateFor(t), t.region;
            if region == "" then r.kind == "VAT" && r.bps == if t.basisPoints < 0 then 0 else t.basisPoints
            else if IsCode(region, "SG") then r.bps == 900 && r.kind == "GST"
            else if IsCode(region, "HK") || IsCode(region, "US") then r.bps == 0 && r.kind == "OUTSIDE_VAT"
            else if IsCode(region, "EXEMPT") then r.bps == 0 && r.kind == "VAT_EXEMPT"
            else r.bps == 1300 && r.kind == "VAT"
  {
    UpperIsCode(t.region, "SG");
    UpperIsCode(t.region, "HK");
    UpperIsCode(t.region, "US");
    UpperIsCode(t.region, "EXEMPT");
  }

  /** Floor division, also of a negative subtotal. */
  function Tax(subtotal: int, bps: int): int {
    subtotal * bps / 10000
  }

  lemma {:induction false} TaxIsFloor(subtotal: int, bps: int)
    ensures 10000 * Tax(subtotal, bps) <= subtotal * bps < 10000 * (Tax(subtotal, bps) + 1)
  {}

  // ----- Charges -----

  /** What an invoice is drawn from. Base price, rates and included model cost are those of the
      invoiced subscription's plan; the quotas are those of the tenant's active subscription. */
  datatype Terms = Terms(plan: Plan, annual: bool, included: int, active: seq<Entitlement>)

  const MODEL_COST := "model_cost_cny_fen"

  function Base(t: Terms): int {
    if t.annual then t.plan.annual else t.plan.monthly
  }

  function RateOf(p: Plan, metric: string): int {
    if metric in p.rates then p.rates[metric] else 0
  }

  function Overage(e: Entitlement, rows: seq<UsageRecord>): int {
    if e.Limit? then Max0(Quantity(rows, e.metric) - e.included) else 0
  }

  function Charge(quantity: int, rate: int): int {
    quantity * rate
  }

  /** Sum over the entitlements of overage times rate. */
  function OverageCharge(p: Plan, entitlements: seq<Entitlement>, rows: seq<UsageRecord>): int {
    if entitlements == [] then 0
    else
      var n := |entitlements| - 1;
      OverageCharge(p, entitlements[..n], rows) + Charge(Overage(entitlements[n], rows),
                                                         RateOf(p, entitlements[n].metric))
  }

  /** None where int() of the stored entitlement raises. */
  function IncludedModelCost(entitlements: seq<Entitlement>): Option<int> {
    if entitlements == [] then Some(0)
    else if entitlements[0].metric == MODEL_COST then
      if entitlements[0].Limit? then Some(entitlements[0].included) else entitlements[0].asInt
    else IncludedModelCost(entitlements[1..])
  }

  /** The included model cost is the plan's entry for it, and nothing without one. */
  lemma {:induction false} IncludedIsTheEntry(entitlements: seq<Entitlement>)
    requires IsDictionary(entitlements)
    ensures var included := IncludedModelCost(entitlements);
            && (forall x :: Limit("model_cost_cny_fen", x) in entitlements ==> included == Some(x))
            && (forall x :: Note("model_cost_cny_fen", x) in entitlements ==> included == x)
            && ((forall e <- entitlements :: e.metric != "model_cost_cny_fen") ==> included == Some(0))
  {
    if entitlements == [] {
    } else {
      IncludedIsTheEntry(entitlements[1..]);
      assert entitlements == [entitlements[0]] + entitlements[1..];
    }
  }

  function ModelOverage(t: Terms, rows: seq<UsageRecord>): int {
    Max0(Cost(rows) - t.included)
  }

  function Subtotal(t: Terms, rows: seq<UsageRecord>): int {
    Base(t) + OverageCharge(t.plan, t.active, rows) + ModelOverage(t, rows)
  }

  function Total(t: Terms, tax: TaxChoice, rows: seq<UsageRecord>): int {
    var s := Subtotal(t, rows);
    s + Tax(s, RateFor(tax).bps)
  }

  // ----- Invoices -----

  datatype Line =
    | BaseLine(amount: int)
    | OverageLine(metric: string, quantity: int, rate: int, amount: int)
    | ModelCostLine(amount: int)

  datatype InvoiceStatus = Draft | Open | Paid | Void

  datatype Invoice = Invoice(subscription: string, number: string, status: InvoiceStatus, start: int, end: int,
                             subtotal: int, tax: int, total: int, lines: seq<Line>, taxKind: string, taxRegion: string)

  function SumOfLines(lines: seq<Line>): int {
    if lines == [] then 0 else SumOfLines(lines[..|lines| - 1]) + lines[|lines| - 1].amount
  }

  function OverageLineOf(p: Plan, e: Entitlement, rows: seq<UsageRecord>): Line {
    OverageLine(e.metric, Overage(e, rows), RateOf(p, e.metric), Charge(Overage(e, rows), RateOf(p, e.metric)))
  }

  ghost predicate IsOverageLine(p: Plan, entitlements: seq<Entitlement>, rows: seq<UsageRecord>, l: Line) {
    && l.OverageLine? && l.quantity != 0 && l.rate != 0
    && exists e :: e in entitlements && l == OverageLineOf(p, e, rows)
  }

  /** One line per actively entitled metric that is over its limit and has a rate, none for any other. */
  ghost predicate LinesFit(t: Terms, rows: seq<UsageRecord>, lines: seq<Line>) {
    && lines != [] && lines[0] == BaseLine(Base(t))
    && (forall e <- t.active :: Overage(e, rows) != 0 && RateOf(t.plan, e.metric) != 0 ==>
          OverageLineOf(t.plan, e, rows) in lines)
    && (forall l <- lines :: l.OverageLine? ==> IsOverageLine(t.plan, t.active, rows, l))
    && (ModelOverage(t, rows) != 0 <==> ModelCostLine(ModelOverage(t, rows)) in lines)
    && (forall i, j :: 0 <= i < j < |lines| ==> !lines[j].BaseLine? && !lines[i].ModelCostLine?)
  }

  ghost predicate SamePeriod(i: Invoice, s: Subscription) {
    i.subscription == s.id && i.start == s.start && i.end == s.end
  }

  ghost predicate Billed(invoices: seq<Invoice>, s: Subscription) {
    exists i :: 0 <= i < |invoices| && SamePeriod(invoices[i], s)
  }

  ghost predicate NumberTaken(invoices: seq<Invoice>, number: string) {
    exists i :: 0 <= i < |invoices| && invoices[i].number == number
  }

  /** At most one invoice per subscription period, and no number twice. */
  ghost predicate OneInvoicePerPeriod(invoices: seq<Invoice>) {
    forall i, j :: 0 <= i < j < |invoices| ==>
      && !(invoices[i].subscription == invoices[j].subscription
          && invoices[i].start == invoices[j].start && invoices[i].end == invoices[j].end)
      && invoices[i].number != invoices[j].number
  }

  function LineOf(p: Plan, q: Quota): Line {
    OverageLine(q.metric, q.overage, RateOf(p, q.metric), Charge(q.overage, RateOf(p, q.metric)))
  }

  function QuotaLines(p: Plan, quota: seq<Quota>): seq<Line> {
    if quota == [] then []
    else
      var q := quota[|quota| - 1];
      var before := QuotaLines(p, quota[..|quota| - 1]);
      if q.overage != 0 && RateOf(p, q.metric) != 0 then before + [LineOf(p, q)] else before
  }

  /** The lines as built: base, quotas in the order of the entitlements, model cost last. */
  function LinesOf(t: Terms, rows: seq<UsageRecord>): seq<Line> {
    var lines := [BaseLine(Base(t))] + QuotaLines(t.plan, Quotas(t.active, rows));
    if ModelOverage(t, rows) != 0 then lines + [ModelCostLine(ModelOverage(t, rows))] else lines
  }

  lemma {:induction false} SumOfLinesAndOne(lines: seq<Line>, l: Line)
    ensures SumOfLines(lines + [l]) == SumOfLines(lines) + l.amount
  {
    assert (lines + [l])[..|lines|] == lines;
  }

  lemma {:induction false} QuotaLinesGrow(p: Plan, entitlements: seq<Entitlement>, rows: seq<UsageRecord>)
    requires entitlements != []
    ensures var n := |entitlements| - 1;
            var e := entitlements[n];
            var before := QuotaLines(p, Quotas(entitlements[..n], rows));
            QuotaLines(p, Quotas(entitlements, rows)) ==
              if Overage(e, rows) != 0 && RateOf(p, e.metric) != 0 then before + [OverageLineOf(p, e, rows)] else before
  {
    var n := |entitlements| - 1;
    var before, quota := Quotas(entitlements[..n], rows), Quotas(entitlements, rows);
    if entitlements[n].Limit? {
      assert quota[..|before|] == before && quota[|before|] == QuotaOf(entitlements[n], rows);
    } else {
      assert quota == before;
    }
  }

  lemma {:induction false} QuotaLinesFit(p: Plan, entitlements: seq<Entitlement>, rows: seq<UsageRecord>)
    ensures var lines := QuotaLines(p, Quotas(entitlements, rows));
            && (forall e <- entitlements :: Overage(e, rows) != 0 && RateOf(p, e.metric) != 0 ==>
                  OverageLineOf(p, e, rows) in lines)
            && (forall l <- lines :: IsOverageLine(p, entitlements, rows, l))
  {
    if entitlements == [] {
    } else {
      var n := |entitlements| - 1;
      var e := entitlements[n];
      QuotaLinesFit(p, entitlements[..n], rows);
      assert entitlements == entitlements[..n] + [e];
      QuotaLinesGrow(p, entitlements, rows);
      forall l | l in QuotaLines(p, Quotas(entitlements[..n], rows))
        ensures IsOverageLine(p, entitlements, rows, l)
      {
        assert IsOverageLine(p, entitlements[..n], rows, l);
      }
    }
  }

  /** The lines of an invoice say what is charged, and nothing else. */
  lemma {:induction false} LinesSayWhatIsCharged(t: Terms, rows: seq<UsageRecord>)
    ensures LinesFit(t, rows, LinesOf(t, rows))
  {
    QuotaLinesFit(t.plan, t.active, rows);
    var lines, middle := LinesOf(t, rows), QuotaLines(t.plan, Quotas(t.active, rows));
    forall i | 1 <= i <= |middle|
      ensures lines[i].OverageLine? && lines[i] in middle
    {
      assert lines[i] == middle[i - 1];
      assert middle[i - 1] in middle;
      assert IsOverageLine(t.plan, t.active, rows, middle[i - 1]);
    }
    assert |lines| > |middle| + 1 ==> lines[|middle| + 1].ModelCostLine?;
    forall l | l in lines && l.OverageLine?
      ensures IsOverageLine(t.plan, t.active, rows, l)
    {
      assert l in middle;
    }
  }

  /** The price of the chosen cycle comes first, and only there. */
  ghost predicate StartsWithPrice(annual: bool, p: Plan, lines: seq<Line>) {
    && lines != [] && lines[0] == BaseLine(if annual then p.annual else p.monthly)
    && forall i :: 1 <= i < |lines| ==> !lines[i].BaseLine?
  }

  /** A use beyond an active limit that the plan rates has its line and amount. */
  ghost predicate ChargesOverages(p: Plan, active: seq<Entitlement>, rows: seq<UsageRecord>, lines: seq<Line>) {
    forall e <- active :: e.Limit? && e.metric in p.rates && p.rates[e.metric] != 0 ==>
      var over := Quantity(rows, e.metric) - e.included;
      over > 0 ==> OverageLine(e.metric, over, p.rates[e.metric], over * p.rates[e.metric]) in lines
  }

  /** No other use is charged. */
  ghost predicate ChargesNothingElse(p: Plan, active: seq<Entitlement>, rows: seq<UsageRecord>, lines: seq<Line>) {
    forall l <- lines :: l.OverageLine? ==>
      && l.metric in p.rates && l.rate == p.rates[l.metric] && l.rate != 0
      && l.quantity > 0 && l.amount == l.quantity * l.rate
      && Limit(l.metric, Quantity(rows, l.metric) - l.quantity) in active
  }

  ghost predicate ChargesModelCost(included: int, rows: seq<UsageRecord>, lines: seq<Line>) {
    forall amount :: ModelCostLine(amount) in lines <==> amount > 0 && amount == Cost(rows) - included
  }

  ghost predicate IsPriced(annual: bool, p: Plan, active: seq<Entitlement>, included: int, rows: seq<UsageRecord>,
                           lines: seq<Line>) {
    && StartsWithPrice(annual, p, lines) && ChargesOverages(p, active, rows, lines)
    && ChargesNothingElse(p, active, rows, lines) && ChargesModelCost(included, rows, lines)
  }

  lemma {:induction false} ModelCostIsCharged(t: Terms, rows: seq<UsageRecord>, amount: int)
    ensures ModelCostLine(amount) in LinesOf(t, rows) <==> amount > 0 && amount == Cost(rows) - t.included
  {
    var l, lines, middle := ModelCostLine(amount), LinesOf(t, rows), QuotaLines(t.plan, Quotas(t.active, rows));
    QuotaLinesFit(t.plan, t.active, rows);
    assert l in middle ==> IsOverageLine(t.plan, t.active, rows, l);
    assert l in [BaseLine(Base(t))] + middle <==> l in middle;
    assert Max0(Cost(rows) - t.included) != 0 ==> lines[|lines| - 1] == ModelCostLine(Max0(Cost(rows) - t.included));
  }

  lemma {:induction false} OveragesAreCharged(t: Terms, rows: seq<UsageRecord>)
    ensures ChargesOverages(t.plan, t.active, rows, LinesOf(t, rows))
  {
    LinesSayWhatIsCharged(t, rows);
    forall e | e in t.active && Overage(e, rows) != 0 && RateOf(t.plan, e.metric) != 0
      ensures OverageLineOf(t.plan, e, rows) in LinesOf(t, rows)
    {}
  }

  lemma {:induction false} ChargesHaveReasons(t: Terms, rows: seq<UsageRecord>)
    ensures ChargesNothingElse(t.plan, t.active, rows, LinesOf(t, rows))
  {
    LinesSayWhatIsCharged(t, rows);
    forall l | l in LinesOf(t, rows) && l.OverageLine?
      ensures l.metric in t.plan.rates && l.rate == t.plan.rates[l.metric] && l.rate != 0
      ensures l.quantity > 0 && l.amount == l.quantity * l.rate
      ensures Limit(l.metric, Quantity(rows, l.metric) - l.quantity) in t.active
    {
      assert IsOverageLine(t.plan, t.active, rows, l);
      var e :| e in t.active && l == OverageLineOf(t.plan, e, rows);
      assert e == Limit(l.metric, Quantity(rows, l.metric) - l.quantity);
    }
  }

  /** An invoice charges the price of the cycle, every rated use beyond a limit, the model cost beyond
      what the plan includes, and nothing else. */
  lemma {:induction false} LinesArePriced(t: Terms, rows: seq<UsageRecord>)
    ensures IsPriced(t.annual, t.plan, t.active, t.included, rows, LinesOf(t, rows))
  {
    LinesSayWhatIsCharged(t, rows);
    OveragesAreCharged(t, rows);
    ChargesHaveReasons(t, rows);
    forall amount
      ensures ModelCostLine(amount) in LinesOf(t, rows) <==> amount > 0 && amount == Cost(rows) - t.included
    {
      ModelCostIsCharged(t, rows, amount);
    }
  }

  lemma {:induction false} QuotaLinesAddUp(p: Plan, entitlements: seq<Entitlement>, rows: seq<UsageRecord>)
    ensures SumOfLines(QuotaLines(p, Quotas(entitlements, rows))) == OverageCharge(p, entitlements, rows)
  {
    if entitlements == [] {
    } else {
      var n := |entitlements| - 1;
      QuotaLinesAddUp(p, entitlements[..n], rows);
      QuotaLinesGrow(p, entitlements, rows);
      SumOfLinesAndOne(QuotaLines(p, Quotas(entitlements[..n], rows)), OverageLineOf(p, entitlements[n], rows));
    }
  }

  lemma {:induction false} SumOfJoin(a: seq<Line>, b: seq<Line>)
    ensures SumOfLines(a + b) == SumOfLines(a) + SumOfLines(b)
  {
    if b == [] {
      assert a + b == a;
    } else {
      var n := |b| - 1;
      SumOfJoin(a, b[..n]);
      assert a + b == (a + b[..n]) + [b[n]];
      SumOfLinesAndOne(a + b[..n], b[n]);
    }
  }

  /** The line amounts add up to the formula for the subtotal. */
  lemma {:induction false} LinesAddUp(t: Terms, rows: seq<UsageRecord>)
    ensures SumOfLines(LinesOf(t, rows)) == Subtotal(t, rows)
    ensures SumOfLines(QuotaLines(t.plan, Quotas(t.active, rows))) == OverageCharge(t.plan, t.active, rows)
  {
    QuotaLinesAddUp(t.plan, t.active, rows);
    var base, middle := [BaseLine(Base(t))], QuotaLines(t.plan, Quotas(t.active, rows));
    SumOfJoin(base, middle);
    SumOfLinesAndOne([], base[0]);
    assert [] + [base[0]] == base;
    SumOfLinesAndOne(base + middle, ModelCostLine(ModelOverage(t, rows)));
  }

  lemma {:induction false} OneInvoiceMore(invoices: seq<Invoice>, i: Invoice, s: Subscription)
    requires OneInvoicePerPeriod(invoices) && SamePeriod(i, s) && !Billed(invoices, s)
    requires !NumberTaken(invoices, i.number)
    ensures OneInvoicePerPeriod(invoices + [i])
  {}

  class Biller {
    const meter: Meter
    const defaultRegion: string
    var invoices: seq<Invoice>

    constructor (meter: Meter, defaultRegion: string)
      ensures this.meter == meter && this.defaultRegion == defaultRegion && invoices == []
    {
      this.meter, this.defaultRegion, invoices := meter, defaultRegion, [];
    }

    /** What an invoice for this subscription is drawn from, if nothing raises. */
    ghost function TermsFor(s: Subscription): Option<Terms>
      reads this, meter
    {
      if s.plan !in meter.plans then None
      else
        var p := meter.plans[s.plan];
        match IncludedModelCost(p.entitlements)
        case None => None
        case Some(included) => Some(Terms(p, s.annual, included, ActiveEntitlements(meter.subscriptions, meter.plans)))
    }

    ghost predicate TaxFits(tax: TaxChoice, i: Invoice) {
      && 10000 * i.tax <= i.subtotal * RateFor(tax).bps < 10000 * (i.tax + 1)
      && i.total == i.subtotal + i.tax
      && i.taxKind == RateFor(tax).kind
      && i.taxRegion == (if tax.region != "" then tax.region else defaultRegion)
    }

    /** What an invoice promises about the usage it bills. */
    ghost predicate Faithful(t: Terms, s: Subscription, tax: TaxChoice, rows: seq<UsageRecord>, i: Invoice) {
      && SamePeriod(i, s) && i.number == s.number && i.status == Draft
      && i.subtotal == SumOfLines(i.lines) && i.subtotal == Subtotal(t, rows)
      && LinesFit(t, rows, i.lines) && IsPriced(s.annual, t.plan, t.active, t.included, rows, i.lines)
      && TaxFits(tax, i) && i.total == Total(t, tax, rows)
    }

    /** A draft over the period of the subscription, priced by its plan on what was used in that period. */
    ghost predicate IsBillFor(s: Subscription, i: Invoice)
      reads this, meter
    {
      && i.subscription == s.id && i.start == s.start && i.end == s.end && i.number == s.number
      && i.status == Draft && i.subtotal == SumOfLines(i.lines)
      && s.plan in meter.plans
      && var p := meter.plans[s.plan];
         IsPriced(s.annual, p, ActiveEntitlements(meter.subscriptions, meter.plans),
                  IncludedModelCost(p.entitlements).UnwrapOr(0), Window(meter.records, s.start, s.end), i.lines)
    }

    /** A call for a subscription whose plan exists. */
    ghost predicate Ended(s: Subscription, tax: TaxChoice, before: seq<Invoice>, invoice: Option<Invoice>)
      reads this, meter
    {
      if Billed(before, s) then
        && invoices == before
        && invoice.Some? && invoice.value in invoices && SamePeriod(invoice.value, s)
      else if TermsFor(s).None? || NumberTaken(before, s.number) then invoice.None? && invoices == before
      else
        && invoice.Some? && invoices == before + [invoice.value]
        && Faithful(TermsFor(s).value, s, tax, Window(meter.records, s.start, s.end), invoice.value)
    }

    method FindBilled(s: Subscription) returns (found: Option<Invoice>)
      ensures found.Some? <==> Billed(invoices, s)
      ensures found.Some? ==> found.value in invoices && SamePeriod(found.value, s)
    {
      for i := 0 to |invoices|
        invariant forall j :: 0 <= j < i ==> !SamePeriod(invoices[j], s)
      {
        if invoices[i].subscription == s.id && invoices[i].start == s.start && invoices[i].end == s.end {
          return Some(invoices[i]);
        }
      }
      found := None;
    }

    method HasNumber(number: string) returns (taken: bool)
      ensures taken <==> NumberTaken(invoices, number)
    {
      for i := 0 to |invoices|
        invariant forall j :: 0 <= j < i ==> invoices[j].number != number
      {
        if invoices[i].number == number { return true; }
      }
      taken := false;
    }

    method Taxed(s: Subscription, subtotal: int, lines: seq<Line>, tax: TaxChoice) returns (built: Invoice)
      ensures SamePeriod(built, s) && built.number == s.number && built.status == Draft
      ensures built.subtotal == subtotal && built.lines == lines && TaxFits(tax, built)
      ensures built.total == subtotal + Tax(subtotal, RateFor(tax).bps)
    {
      var rate := RateFor(tax);
      var owed := Tax(subtotal, rate.bps);
      var region := if tax.region != "" then tax.region else defaultRegion;
      TaxIsFloor(subtotal, rate.bps);
      built := Invoice(s.id, s.number, Draft, s.start, s.end, subtotal, owed, subtotal + owed, lines, rate.kind,
                       region);
    }

    /** The base line and the lines of the quota loop. */
    method OverageLines(p: Plan, base: int, quota: seq<Quota>) returns (lines: seq<Line>, subtotal: int)
      ensures lines == [BaseLine(base)] + QuotaLines(p, quota)
      ensures subtotal == base + SumOfLines(QuotaLines(p, quota))
    {
      lines, subtotal := [BaseLine(base)], base;
      for i := 0 to |quota|
        invariant lines == [BaseLine(base)] + QuotaLines(p, quota[..i])
        invariant subtotal == base + SumOfLines(QuotaLines(p, quota[..i]))
      {
        assert quota[..i + 1][..i] == quota[..i];
        var overage, rate := quota[i].overage, RateOf(p, quota[i].metric);
        if overage != 0 && rate != 0 {
          var amount := Charge(overage, rate);
          subtotal, lines := subtotal + amount, lines + [OverageLine(quota[i].metric, overage, rate, amount)];
          SumOfLinesAndOne(QuotaLines(p, quota[..i]), LineOf(p, quota[i]));
        }
      }
      assert quota[..|quota|] == quota;
    }

    /** The invoice itself, from the groups and quotas of the usage summary. */
    method Drawn(s: Subscription, p: Plan, included: int, tax: TaxChoice, usage: seq<Usage>, quota: seq<Quota>,
                 ghost t: Terms, ghost rows: seq<UsageRecord>)
      returns (built: Invoice)
      requires t.plan == p && t.annual == s.annual && t.included == included
      requires IsGrouping(usage, rows) && quota == Quotas(t.active, rows)
      ensures Faithful(t, s, tax, rows, built)
    {
      var base := if s.annual then p.annual else p.monthly;
      var lines, subtotal := OverageLines(p, base, quota);
      GroupsAddUp(usage, rows);
      var modelOverage := Max0(SumOfCosts(usage) - included);
      if modelOverage != 0 {
        subtotal, lines := subtotal + modelOverage, lines + [ModelCostLine(modelOverage)];
      }
      assert lines == LinesOf(t, rows);
      LinesAddUp(t, rows);
      assert subtotal == SumOfLines(lines);
      LinesSayWhatIsCharged(t, rows);
      LinesArePriced(t, rows);
      built := Taxed(s, subtotal, lines, tax);
    }

    /** None where the included model cost is no number. */
    method DrawFor(s: Subscription, p: Plan, tax: TaxChoice, now: int) returns (built: Option<Invoice>)
      requires s.plan in meter.plans && p == meter.plans[s.plan]
      ensures built.None? <==> TermsFor(s).None?
      ensures built.Some? ==> Faithful(TermsFor(s).value, s, tax, Window(meter.records, s.start, s.end), built.value)
      ensures built.Some? ==> IsBillFor(s, built.value)
    {
      var active, usage, quota := meter.UsageSummary(Some(s.start), Some(s.end), now);
      var included := IncludedModelCost(p.entitlements);
      if included.None? { return None; }
      ghost var t := TermsFor(s).value;
      var invoice := Drawn(s, p, included.value, tax, usage, quota, t, Window(meter.records, s.start, s.end));
      built := Some(invoice);
    }

    /** None is a raise: unknown subscription or plan, an entitlement that is no number, or a
        number some other invoice has. A period that has an invoice gets no second one. */
    method BuildInvoice(id: string, tax: TaxChoice, now: int) returns (invoice: Option<Invoice>)
      requires OneInvoicePerPeriod(invoices)
      modifies this`invoices
      ensures OneInvoicePerPeriod(invoices)
      ensures var sub := FindSubscription(meter.subscriptions, id);
              if sub.None? || sub.value.plan !in meter.plans then invoice.None? && invoices == old(invoices)
              else Ended(sub.value, tax, old(invoices), invoice)
      ensures invoices != old(invoices) ==>
                && invoice.Some? && invoices == old(invoices) + [invoice.value]
                && IsBillFor(FindSubscription(meter.subscriptions, id).value, invoice.value)
    {
      var sub := FindSubscription(meter.subscriptions, id);
      if sub.None? || sub.value.plan !in meter.plans { return None; }
      var s := sub.value;
      var p := meter.plans[s.plan];
      invoice := FindBilled(s);
      if invoice.Some? { return; }
      var built := DrawFor(s, p, tax, now);
      if built.None? { return None; }
      var taken := HasNumber(s.number);
      if taken { return None; }
      OneInvoiceMore(invoices, built.value, s);
      invoices := invoices + [built.value];
      invoice := built;
    }
  }

  // ----- Whose overages are charged -----

  ghost predicate AllAdmissible(rows: seq<UsageRecord>) {
    forall r <- rows :: Admissible(r)
  }

  /** The same terms with the quotas the invoiced plan itself grants. */
  function OwnTerms(t: Terms): Terms {
    t.(active := t.plan.entitlements)
  }

  /** On every metric the invoiced plan rates, it and the active plan have the same limit, or none. */
  ghost predicate LimitsAgree(t: Terms) {
    forall metric :: RateOf(t.plan, metric) != 0 ==> LimitOf(t.active, metric) == LimitOf(t.plan.entitlements, metric)
  }

  function OverageLinesOf(t: Terms, rows: seq<UsageRecord>): seq<Line> {
    QuotaLines(t.plan, Quotas(t.active, rows))
  }

  /** The invoice charges the overages of the invoiced plan: same overage lines, same subtotal. */
  ghost predicate ChargesOwnOverages(t: Terms, rows: seq<UsageRecord>) {
    && (forall l :: l in OverageLinesOf(t, rows) <==> l in OverageLinesOf(OwnTerms(t), rows))
    && Subtotal(t, rows) == Subtotal(OwnTerms(t), rows)
  }

  /** An overage line is there for exactly the limit its metric has. */
  lemma {:induction false} LineMeansLimit(t: Terms, rows: seq<UsageRecord>, metric: string, quantity: int)
    requires IsDictionary(t.active)
    ensures var rate, limit := RateOf(t.plan, metric), LimitOf(t.active, metric);
            OverageLine(metric, quantity, rate, Charge(quantity, rate)) in OverageLinesOf(t, rows) <==>
              limit.Some? && rate != 0 && quantity != 0 && quantity == Max0(Quantity(rows, metric) - limit.value)
  {
    var rate, limit := RateOf(t.plan, metric), LimitOf(t.active, metric);
    var l := OverageLine(metric, quantity, rate, Charge(quantity, rate));
    QuotaLinesFit(t.plan, t.active, rows);
    LimitIsAnEntry(t.active, metric);
    if l in OverageLinesOf(t, rows) {
      assert IsOverageLine(t.plan, t.active, rows, l);
      var e :| e in t.active && l == OverageLineOf(t.plan, e, rows);
      EntryIsTheLimit(t.active, e);
    }
  }

  lemma {:induction false} LineCarriesOver(t: Terms, u: Terms, rows: seq<UsageRecord>, l: Line)
    requires IsDictionary(t.active) && IsDictionary(u.active) && u.plan == t.plan
    requires forall metric :: RateOf(t.plan, metric) != 0 ==> LimitOf(t.active, metric) == LimitOf(u.active, metric)
    requires l in OverageLinesOf(t, rows) && IsOverageLine(t.plan, t.active, rows, l)
    ensures l in OverageLinesOf(u, rows)
  {
    LineMeansLimit(t, rows, l.metric, l.quantity);
    LineMeansLimit(u, rows, l.metric, l.quantity);
  }

  lemma {:induction false} SameLimitSameLine(t: Terms, rows: seq<UsageRecord>, l: Line)
    requires IsDictionary(t.active) && IsDictionary(t.plan.entitlements) && LimitsAgree(t)
    ensures l in OverageLinesOf(t, rows) <==> l in OverageLinesOf(OwnTerms(t), rows)
  {
    var own := OwnTerms(t);
    QuotaLinesFit(t.plan, t.active, rows);
    QuotaLinesFit(t.plan, own.active, rows);
    if l in OverageLinesOf(t, rows) {
      assert IsOverageLine(t.plan, t.active, rows, l);
      LineCarriesOver(t, own, rows, l);
    }
    if l in OverageLinesOf(own, rows) {
      assert IsOverageLine(t.plan, own.active, rows, l);
      LineCarriesOver(own, t, rows, l);
    }
  }

  ghost predicate NoRepeats(lines: seq<Line>) {
    forall i, j :: 0 <= i < j < |lines| ==> lines[i] != lines[j]
  }

  lemma {:induction false} NoLineTwice(p: Plan, entitlements: seq<Entitlement>, rows: seq<UsageRecord>)
    requires IsDictionary(entitlements)
    ensures NoRepeats(QuotaLines(p, Quotas(entitlements, rows)))
  {
    if entitlements == [] {
    } else {
      var n := |entitlements| - 1;
      NoLineTwice(p, entitlements[..n], rows);
      QuotaLinesGrow(p, entitlements, rows);
      QuotaLinesFit(p, entitlements[..n], rows);
      var before := QuotaLines(p, Quotas(entitlements[..n], rows));
      forall i | 0 <= i < |before|
        ensures before[i].OverageLine? && before[i].metric != entitlements[n].metric
      {
        assert IsOverageLine(p, entitlements[..n], rows, before[i]);
      }
    }
  }

  lemma {:induction false} LineTakenOut(lines: seq<Line>, k: nat)
    requires k < |lines| && NoRepeats(lines)
    ensures var rest := lines[..k] + lines[k + 1..];
            && SumOfLines(lines) == SumOfLines(rest) + lines[k].amount && NoRepeats(rest)
            && forall l :: l in rest <==> l in lines && l != lines[k]
  {
    assert lines == (lines[..k] + [lines[k]]) + lines[k + 1..];
    SumOfJoin(lines[..k] + [lines[k]], lines[k + 1..]);
    SumOfLinesAndOne(lines[..k], lines[k]);
    SumOfJoin(lines[..k], lines[k + 1..]);
  }

  /** A sum does not depend on the order of its lines. */
  lemma {:induction false} SumOfSameLines(a: seq<Line>, b: seq<Line>)
    requires NoRepeats(a) && NoRepeats(b) && forall l :: l in a <==> l in b
    ensures SumOfLines(a) == SumOfLines(b)
  {
    assert b != [] ==> b[0] in b;
    if a == [] {
    } else {
      var n := |a| - 1;
      assert a[n] in a;
      var k :| 0 <= k < |b| && b[k] == a[n];
      LineTakenOut(b, k);
      assert a[..n] + a[n + 1..] == a[..n];
      LineTakenOut(a, n);
      SumOfSameLines(a[..n], b[..k] + b[k + 1..]);
    }
  }

  lemma {:induction false} AgreeingLimitsChargeOwn(t: Terms, rows: seq<UsageRecord>)
    requires IsDictionary(t.active) && IsDictionary(t.plan.entitlements) && LimitsAgree(t)
    ensures ChargesOwnOverages(t, rows)
  {
    var own := OwnTerms(t);
    forall l
      ensures l in OverageLinesOf(t, rows) <==> l in OverageLinesOf(own, rows)
    {
      SameLimitSameLine(t, rows, l);
    }
    NoLineTwice(t.plan, t.active, rows);
    NoLineTwice(t.plan, own.active, rows);
    SumOfSameLines(OverageLinesOf(t, rows), OverageLinesOf(own, rows));
    LinesAddUp(t, rows);
    LinesAddUp(own, rows);
  }

  /** Invoices charge the overages of the plan they are for, whatever was used, iff the active plan
      limits every metric with a rate in the same way. */
  lemma {:induction false} OwnOveragesIff(t: Terms)
    requires IsDictionary(t.active) && IsDictionary(t.plan.entitlements)
    ensures LimitsAgree(t) <==> forall rows :: AllAdmissible(rows) ==> ChargesOwnOverages(t, rows)
  {
    forall rows | LimitsAgree(t)
      ensures ChargesOwnOverages(t, rows)
    {
      AgreeingLimitsChargeOwn(t, rows);
    }
    if !LimitsAgree(t) {
      var metric :| RateOf(t.plan, metric) != 0 && LimitOf(t.active, metric) != LimitOf(t.plan.entitlements, metric);
      var a, b := LimitOf(t.active, metric), LimitOf(t.plan.entitlements, metric);
      var enough := Max0(if a.Some? then a.value else 0) + Max0(if b.Some? then b.value else 0) + 1;
      var rows := [UsageRecord("", metric, enough, "", 0, "", None, 0)];
      assert Quantity(rows, metric) == enough;
      var over := if a.Some? then enough - a.value else enough - b.value;
      LineMeansLimit(t, rows, metric, over);
      LineMeansLimit(OwnTerms(t), rows, metric, over);
      assert !ChargesOwnOverages(t, rows);
    }
  }

  /** In particular an invoice of the active subscription charges its own overages. */
  lemma {:induction false} ActiveChargesOwn(b: Biller, s: Subscription, rows: seq<UsageRecord>)
    requires ActiveSubscription(b.meter.subscriptions) == Some(s) && b.TermsFor(s).Some?
    ensures ChargesOwnOverages(b.TermsFor(s).value, rows)
  {
    assert OwnTerms(b.TermsFor(s).value) == b.TermsFor(s).value;
  }

  /** A cancelled subscription is billed without the overage it ran up: 600 agent runs on a plan
      that includes 500 and charges 100 for each further one cost the base price only. */
  lemma {:induction false} CancelledOverageIsLost(b: Biller, s: Subscription, rows: seq<UsageRecord>)
    requires b.meter.subscriptions == [s] && s.status == Cancelled && !s.annual && s.plan in b.meter.plans
    requires b.meter.plans[s.plan] == Plan(99900, 999000, [Limit("agent_runs", 500)], map["agent_runs" := 100])
    requires Quantity(rows, "agent_runs") == 600 && Cost(rows) == 0
    ensures b.TermsFor(s).Some?
    ensures Subtotal(b.TermsFor(s).value, rows) == 99900
    ensures Subtotal(OwnTerms(b.TermsFor(s).value), rows) == 109900
  {
    var t := b.TermsFor(s).value;
    assert [s][..0] == [] && ActiveSubscription([s]) == None;
    assert OwnTerms(t).active == [Limit("agent_runs", 500)] && OwnTerms(t).active[..0] == [];
  }

  // ----- More usage, more to pay -----

  /** The invoiced plan rates no actively entitled metric negatively. */
  ghost predicate NoCredits(t: Terms) {
    forall e <- t.active :: e.Limit? ==> RateOf(t.plan, e.metric) >= 0
  }

  /** Total tax-inclusive price is strictly monotone in the subtotal. */
  lemma {:induction false} TotalFollowsSubtotal(a: int, b: int, bps: int)
    requires bps >= 0
    ensures a <= b <==> a + Tax(a, bps) <= b + Tax(b, bps)
  {
    if a <= b {
      assert a * bps <= b * bps;
    } else {
      assert a * bps >= b * bps;
    }
  }

  lemma {:induction false} RatesAreNotNegative(t: TaxChoice)
    ensures RateFor(t).bps >= 0
  {}

  lemma {:induction false} NotNegativeSums(rows: seq<UsageRecord>, metric: string)
    requires forall r <- rows :: Admissible(r)
    ensures Quantity(rows, metric) >= 0 && Cost(rows) >= 0
  {
    if rows == [] {
    } else {
      assert rows[0] in rows;
      NotNegativeSums(rows[1..], metric);
    }
  }

  lemma {:induction false} MoreUsage(before: seq<UsageRecord>, extra: seq<UsageRecord>, after: seq<UsageRecord>,
                                     metric: string)
    requires forall r <- extra :: Admissible(r)
    ensures Quantity(before + after, metric) <= Quantity(before + extra + after, metric)
    ensures Cost(before + after) <= Cost(before + extra + after)
  {
    SumsOfJoin(before, after, metric);
    SumsOfJoin(before + extra, after, metric);
    SumsOfJoin(before, extra, metric);
    NotNegativeSums(extra, metric);
  }

  lemma {:induction false} ChargeGrows(few: int, many: int, rate: int)
    requires few <= many && rate >= 0
    ensures Charge(few, rate) <= Charge(many, rate)
  {
    var d := many - few;
    assert many * rate == few * rate + d * rate;
    assert d * rate >= 0;
  }

  lemma {:induction false} MoreOverage(p: Plan, entitlements: seq<Entitlement>, before: seq<UsageRecord>,
                                       extra: seq<UsageRecord>, after: seq<UsageRecord>)
    requires forall r <- extra :: Admissible(r)
    requires forall e <- entitlements :: e.Limit? ==> RateOf(p, e.metric) >= 0
    ensures OverageCharge(p, entitlements, before + after) <= OverageCharge(p, entitlements, before + extra + after)
  {
    if entitlements == [] {
    } else {
      var n := |entitlements| - 1;
      var e := entitlements[n];
      assert e in entitlements;
      MoreOverage(p, entitlements[..n], before, extra, after);
      MoreUsage(before, extra, after, e.metric);
      if e.Limit? {
        ChargeGrows(Overage(e, before + after), Overage(e, before + extra + after), RateOf(p, e.metric));
      }
    }
  }

  /** Usage recorded anywhere in the period never lowers what the tenant pays. */
  lemma {:induction false} UsageNeverLowersTotal(t: Terms, tax: TaxChoice, before: seq<UsageRecord>,
                                                 extra: seq<UsageRecord>, after: seq<UsageRecord>)
    requires NoCredits(t) && forall r <- extra :: Admissible(r)
    ensures Total(t, tax, before + after) <= Total(t, tax, before + extra + after)
  {
    MoreOverage(t.plan, t.active, before, extra, after);
    MoreUsage(before, extra, after, "");
    RatesAreNotNegative(tax);
    TotalFollowsSubtotal(Subtotal(t, before + after), Subtotal(t, before + extra + after), RateFor(tax).bps);
  }

  ghost predicate RecordNeverLowers(t: Terms, tax: TaxChoice, rows: seq<UsageRecord>, r: UsageRecord) {
    Total(t, tax, rows) <= Total(t, tax, rows + [r])
  }

  lemma {:induction false} Credit(few: int, many: int, rate: int)
    requires few <= many && rate < 0
    ensures many * rate <= few * rate && (few < many ==> many * rate < few * rate)
  {
    var d := many - few;
    assert many * rate == few * rate + d * rate;
    if d > 0 {
      assert d * -rate > 0;
    }
  }

  lemma {:induction false} CreditLowersCharge(p: Plan, entitlements: seq<Entitlement>, e: Entitlement, r: UsageRecord)
    requires e.Limit? && RateOf(p, e.metric) < 0 && r.metric == e.metric && r.quantity > 0 && r.quantity > e.included
    ensures OverageCharge(p, entitlements, [r]) <= OverageCharge(p, entitlements, [])
    ensures e in entitlements ==> OverageCharge(p, entitlements, [r]) < OverageCharge(p, entitlements, [])
  {
    if entitlements == [] {
    } else {
      var n := |entitlements| - 1;
      var x := entitlements[n];
      CreditLowersCharge(p, entitlements[..n], e, r);
      assert entitlements == entitlements[..n] + [x];
      assert Quantity([r], x.metric) == if x.metric == e.metric then r.quantity else 0;
      var without, with := Overage(x, []), Overage(x, [r]);
      if x.metric == e.metric && x.Limit? {
        assert with >= without && (x == e ==> with > without);
        Credit(without, with, RateOf(p, e.metric));
      }
    }
  }

  /** More usage makes an invoice cheaper exactly when the invoiced plan rates a metric negatively
      that the active plan entitles. */
  lemma {:induction false} MonotoneUnlessCredited(t: Terms, tax: TaxChoice)
    ensures NoCredits(t) <==> forall rows, r :: Admissible(r) ==> RecordNeverLowers(t, tax, rows, r)
  {
    forall rows, r | NoCredits(t) && Admissible(r)
      ensures RecordNeverLowers(t, tax, rows, r)
    {
      UsageNeverLowersTotal(t, tax, rows, [r], []);
      assert rows + [] == rows && rows + [r] + [] == rows + [r];
    }
    if !NoCredits(t) {
      var e :| e in t.active && e.Limit? && RateOf(t.plan, e.metric) < 0;
      var r := UsageRecord("", e.metric, Max0(e.included) + 1, "", 0, "", None, 0);
      CreditLowersCharge(t.plan, t.active, e, r);
      AddedRow([], r);
      assert [] + [r] == [r];
      RatesAreNotNegative(tax);
      TotalFollowsSubtotal(Subtotal(t, []), Subtotal(t, [r]), RateFor(tax).bps);
      assert !RecordNeverLowers(t, tax, [], r);
    }
  }
}
