/** Two independent ways to pay an invoice, one ledger of billing events. */
module PaidLedger {
  import opened Basics
  import opened Invoicing

  datatype Tag = Opened | PaidByHand | Voided | PaidByWebhook

  /** The pair stands for the idempotency key of the event. */
  datatype BillingEvent = BillingEvent(invoice: nat, tag: Tag, amount: int)

  datatype Db = Db(invoices: seq<Invoice>, events: seq<BillingEvent>)

  function Targets(s: InvoiceStatus): set<InvoiceStatus> {
    match s
    case Draft => {Open, Void}
    case Open => {Paid, Void}
    case Paid => {}
    case Void => {}
  }

  function TagOf(target: InvoiceStatus): Tag
    requires target != Draft
  {
    match target
    case Open => Opened
    case Paid => PaidByHand
    case Void => Voided
  }

  predicate HasEvent(events: seq<BillingEvent>, i: nat, tag: Tag) {
    exists k :: 0 <= k < |events| && events[k].invoice == i && events[k].tag == tag
  }

  function Move(s: Db, i: nat, target: InvoiceStatus, tag: Tag): Db
    requires i < |s.invoices|
  {
    Db(s.invoices[i := s.invoices[i].(status := target)],
       if HasEvent(s.events, i, tag) then s.events else s.events + [BillingEvent(i, tag, s.invoices[i].total)])
  }

  predicate MayTransition(s: Db, i: nat, target: InvoiceStatus, providerRef: bool, manualEvidence: bool) {
    i < |s.invoices| && target in Targets(s.invoices[i].status) && (target == Paid ==> providerRef || manualEvidence)
  }

  /** A draft is opened or voided; an open invoice is voided, or paid with proof. */
  lemma {:induction false} TransitionsAre(s: Db, i: nat, target: InvoiceStatus, providerRef: bool, manualEvidence: bool)
    ensures MayTransition(s, i, target, providerRef, manualEvidence) <==>
              && i < |s.invoices|
              && ((s.invoices[i].status == Draft && target in {Open, Void})
                  || (s.invoices[i].status == Open
                      && (target == Void || (target == Paid && (providerRef || manualEvidence)))))
  {}

  /** What checking the signature of a webhook yields. */
  datatype Signature = Rejected | Verified(invoiceRef: Option<string>)

  datatype WebhookReply = Unverified | NoInvoiceRef | InvoiceNotFound | InvoicePaid | NoAction(status: InvoiceStatus)

  ghost predicate Named(s: Db, g: Signature, i: nat) {
    g.Verified? && g.invoiceRef.Some? && i < |s.invoices| && s.invoices[i].number == g.invoiceRef.value
  }

  // ----- Runs -----

  datatype Event =
    | EBuild(invoice: Invoice)
    | ETransition(i: nat, target: InvoiceStatus, providerRef: bool, manualEvidence: bool)
    | EWebhook(i: nat)
    | EWebhookIgnored

  /** EWebhook: a verified webhook that names invoice i. */
  function Step(s: Db, e: Event): Db {
    match e
    case EBuild(invoice) => s.(invoices := s.invoices + [invoice.(status := Draft)])
    case ETransition(i, target, ref, manual) =>
      if MayTransition(s, i, target, ref, manual) then Move(s, i, target, TagOf(target)) else s
    case EWebhook(i) =>
      if i < |s.invoices| && s.invoices[i].status == Open then Move(s, i, Paid, PaidByWebhook) else s
    case EWebhookIgnored => s
  }

  function Exec(s: Db, events: seq<Event>): Db {
    if events == [] then s else Step(Exec(s, events[..|events| - 1]), events[|events| - 1])
  }

  const EMPTY := Db([], [])

  predicate IsPayment(e: BillingEvent) {
    e.tag == PaidByHand || e.tag == PaidByWebhook
  }

  function Payments(events: seq<BillingEvent>, i: nat): nat {
    if events == [] then 0
    else
      var n := |events| - 1;
      Payments(events[..n], i) + if IsPayment(events[n]) && events[n].invoice == i then 1 else 0
  }

  function PaidAmount(events: seq<BillingEvent>): int {
    if events == [] then 0
    else
      var n := |events| - 1;
      PaidAmount(events[..n]) + if IsPayment(events[n]) then events[n].amount else 0
  }

  function PaidTotals(invoices: seq<Invoice>): int {
    if invoices == [] then 0
    else
      var n := |invoices| - 1;
      PaidTotals(invoices[..n]) + if invoices[n].status == Paid then invoices[n].total else 0
  }

  ghost predicate AmountsFit(s: Db) {
    forall e <- s.events :: e.invoice < |s.invoices| && e.amount == s.invoices[e.invoice].total
  }

  ghost predicate OnePaymentEach(s: Db) {
    forall i: nat {:trigger Payments(s.events, i)} ::
      Payments(s.events, i) == if i < |s.invoices| && s.invoices[i].status == Paid then 1 else 0
  }

  ghost predicate Balanced(s: Db) {
    && OnePaymentEach(s)
    && PaidAmount(s.events) == PaidTotals(s.invoices)
    && AmountsFit(s)
  }

  lemma {:induction false} StatusChanged(invoices: seq<Invoice>, i: nat, to: InvoiceStatus)
    requires i < |invoices| && invoices[i].status != Paid
    ensures PaidTotals(invoices[i := invoices[i].(status := to)]) ==
            PaidTotals(invoices) + if to == Paid then invoices[i].total else 0
  {
    var n := |invoices| - 1;
    var changed := invoices[i := invoices[i].(status := to)];
    if i < n {
      StatusChanged(invoices[..n], i, to);
      assert changed[..n] == invoices[..n][i := invoices[i].(status := to)];
    } else {
      assert changed[..n] == invoices[..n];
    }
  }

  lemma {:induction false} MoveKeepsAmounts(s: Db, i: nat, to: InvoiceStatus, tag: Tag)
    requires AmountsFit(s) && i < |s.invoices|
    ensures AmountsFit(Move(s, i, to, tag))
  {}

  lemma {:induction false} NoPaymentNoEvent(events: seq<BillingEvent>, i: nat, tag: Tag)
    requires Payments(events, i) == 0 && (tag == PaidByHand || tag == PaidByWebhook)
    ensures !HasEvent(events, i, tag)
  {
    if events == [] {
    } else {
      var n := |events| - 1;
      NoPaymentNoEvent(events[..n], i, tag);
      assert forall k :: 0 <= k < n ==> events[k] == events[..n][k];
    }
  }

  lemma {:induction false} EventAdded(events: seq<BillingEvent>, e: BillingEvent)
    ensures forall i: nat {:trigger Payments(events + [e], i)} ::
              Payments(events + [e], i) == Payments(events, i) + if IsPayment(e) && e.invoice == i then 1 else 0
    ensures PaidAmount(events + [e]) == PaidAmount(events) + if IsPayment(e) then e.amount else 0
  {
    assert (events + [e])[..|events|] == events;
  }

  lemma {:induction false} MoveAddsPayment(s: Db, i: nat, to: InvoiceStatus, tag: Tag)
    requires i < |s.invoices| && Payments(s.events, i) == 0
    requires to == Paid <==> tag == PaidByHand || tag == PaidByWebhook
    ensures var t := Move(s, i, to, tag);
            && (forall j: nat {:trigger Payments(t.events, j)} ::
                  Payments(t.events, j) == Payments(s.events, j) + if to == Paid && j == i then 1 else 0)
            && PaidAmount(t.events) == PaidAmount(s.events) + if to == Paid then s.invoices[i].total else 0
  {
    if to == Paid {
      NoPaymentNoEvent(s.events, i, tag);
    }
    EventAdded(s.events, BillingEvent(i, tag, s.invoices[i].total));
  }

  lemma {:induction false} OnePaymentMore(s: Db, t: Db, i: nat)
    requires OnePaymentEach(s) && i < |s.invoices| && s.invoices[i].status != Paid
    requires |t.invoices| == |s.invoices|
    requires forall j :: 0 <= j < |s.invoices| && j != i ==> t.invoices[j] == s.invoices[j]
    requires forall j: nat {:trigger Payments(t.events, j)} ::
               Payments(t.events, j) == Payments(s.events, j) + if t.invoices[i].status == Paid && j == i then 1 else 0
    ensures OnePaymentEach(t)
  {}

  /** Paying an open invoice, by either way. */
  lemma {:induction false} MoveKeepsBalanced(s: Db, i: nat, to: InvoiceStatus, tag: Tag)
    requires Balanced(s) && i < |s.invoices| && s.invoices[i].status != Paid
    requires to == Paid <==> tag == PaidByHand || tag == PaidByWebhook
    ensures Balanced(Move(s, i, to, tag))
  {
    StatusChanged(s.invoices, i, to);
    MoveAddsPayment(s, i, to, tag);
    MoveKeepsAmounts(s, i, to, tag);
    OnePaymentMore(s, Move(s, i, to, tag), i);
  }

  lemma {:induction false} StepKeepsBalanced(s: Db, e: Event)
    requires Balanced(s)
    ensures Balanced(Step(s, e))
  {
    match e
    case EBuild(invoice) =>
      var t := Step(s, e);
      assert t.invoices[..|s.invoices|] == s.invoices;
      forall j: nat
        ensures Payments(t.events, j) == if j < |t.invoices| && t.invoices[j].status == Paid then 1 else 0
      {
        assert Payments(s.events, j) == if j < |s.invoices| && s.invoices[j].status == Paid then 1 else 0;
      }
    case ETransition(i, target, ref, manual) =>
      if MayTransition(s, i, target, ref, manual) {
        MoveKeepsBalanced(s, i, target, TagOf(target));
      }
    case EWebhook(i) =>
      if i < |s.invoices| && s.invoices[i].status == Open {
        MoveKeepsBalanced(s, i, Paid, PaidByWebhook);
      }
    case EWebhookIgnored =>
  }

  /** After any interleaving of manual transitions and webhooks, replayed ones included: an
      invoice is PAID iff there is exactly one payment for it (and otherwise none), and the
      payments add up to the totals of the paid invoices. */
  lemma {:induction false} LedgerIsBalanced(events: seq<Event>)
    ensures var s := Exec(EMPTY, events);
            && (forall i: nat :: i < |s.invoices| ==>
                  && (s.invoices[i].status == Paid <==> Payments(s.events, i) == 1)
                  && (s.invoices[i].status != Paid <==> Payments(s.events, i) == 0))
            && PaidAmount(s.events) == PaidTotals(s.invoices)
    ensures Balanced(Exec(EMPTY, events))
  {
    if events == [] {
    } else {
      LedgerIsBalanced(events[..|events| - 1]);
      StepKeepsBalanced(Exec(EMPTY, events[..|events| - 1]), events[|events| - 1]);
    }
  }

  // ----- No payment without proof -----

  ghost predicate OpenedBy(events: seq<Event>, i: nat, j: nat) {
    j < |events| && events[j].ETransition? && events[j].i == i && events[j].target == Open
  }

  /** A verified webhook, or a transition that names a provider's reference or evidence at hand. */
  ghost predicate PaidBy(events: seq<Event>, i: nat, k: nat) {
    && k < |events|
    && (events[k] == EWebhook(i)
        || (events[k].ETransition? && events[k].i == i && events[k].target == Paid
            && (events[k].providerRef || events[k].manualEvidence)))
  }

  /** An open invoice was opened, and a paid one was opened first and paid with proof later. */
  ghost predicate Accounted(events: seq<Event>, i: nat, status: InvoiceStatus) {
    && (status == Open ==> exists j: nat :: OpenedBy(events, i, j))
    && (status == Paid ==> exists j: nat, k: nat :: j < k && OpenedBy(events, i, j) && PaidBy(events, i, k))
  }

  lemma {:induction false} StaysAccounted(events: seq<Event>, i: nat, status: InvoiceStatus)
    requires events != [] && Accounted(events[..|events| - 1], i, status)
    ensures Accounted(events, i, status)
  {
    var past := events[..|events| - 1];
    assert forall j: nat :: OpenedBy(past, i, j) ==> OpenedBy(events, i, j);
    assert forall k: nat :: PaidBy(past, i, k) ==> PaidBy(events, i, k);
  }

  /** In every run an invoice is PAID only after it was opened and then paid with proof. */
  lemma {:induction false} PaidOnlyWithProof(events: seq<Event>, i: nat)
    requires i < |Exec(EMPTY, events).invoices|
    ensures Accounted(events, i, Exec(EMPTY, events).invoices[i].status)
  {
    if events == [] {
    } else {
      var n := |events| - 1;
      var s, t := Exec(EMPTY, events[..n]), Exec(EMPTY, events);
      if i < |s.invoices| {
        PaidOnlyWithProof(events[..n], i);
        StaysAccounted(events, i, s.invoices[i].status);
        if t.invoices[i].status != s.invoices[i].status {
          assert t.invoices[i].status == Open ==> OpenedBy(events, i, n);
          if t.invoices[i].status == Paid {
            var j: nat :| OpenedBy(events[..n], i, j);
            assert OpenedBy(events, i, j) && PaidBy(events, i, n);
          }
        }
      }
    }
  }

  ghost predicate IsOnRecord(events: seq<BillingEvent>, i: nat, amount: int, tag: Tag) {
    exists e :: e in events && e.invoice == i && e.amount == amount && e.tag == tag
  }

  lemma {:induction false} EventIsThere(s: Db, i: nat, tag: Tag)
    requires AmountsFit(s) && i < |s.invoices| && HasEvent(s.events, i, tag)
    ensures IsOnRecord(s.events, i, s.invoices[i].total, tag)
  {
    var k :| 0 <= k < |s.events| && s.events[k].invoice == i && s.events[k].tag == tag;
    assert s.events[k] in s.events;
  }

  class Ledger {
    var invoices: seq<Invoice>
    var events: seq<BillingEvent>

    ghost function State(): Db
      reads this
    {
      Db(invoices, events)
    }

    ghost predicate Valid()
      reads this
    {
      Balanced(State())
    }

    constructor ()
      ensures Valid() && State() == EMPTY
    {
      invoices, events := [], [];
      new;
      LedgerIsBalanced([]);
    }

    method Record(i: nat, tag: Tag)
      requires i < |invoices|
      modifies this`events
      ensures events ==
                if HasEvent(old(events), i, tag) then old(events)
                else old(events) + [BillingEvent(i, tag, invoices[i].total)]
    {
      for k := 0 to |events|
        invariant forall j :: 0 <= j < k ==> !(events[j].invoice == i && events[j].tag == tag)
      {
        if events[k].invoice == i && events[k].tag == tag { return; }
      }
      events := events + [BillingEvent(i, tag, invoices[i].total)];
    }

    /** The status and its event. */
    method Change(i: nat, target: InvoiceStatus)
      requires AmountsFit(State()) && i < |invoices| && target != Draft
      modifies this
      ensures State() == Move(old(State()), i, target, TagOf(target))
      ensures IsOnRecord(events, i, invoices[i].total, TagOf(target))
    {
      invoices := invoices[i := invoices[i].(status := target)];
      ghost var before := events;
      Record(i, TagOf(target));
      assert !HasEvent(before, i, TagOf(target)) ==>
               events[|before|].invoice == i && events[|before|].tag == TagOf(target);
      EventIsThere(State(), i, TagOf(target));
    }

    method TransitionInvoice(i: nat, target: InvoiceStatus, providerRef: bool,
                             manualEvidence: bool) returns (raised: bool)
      requires Valid()
      modifies this
      ensures Valid()
      ensures State() == Step(old(State()), ETransition(i, target, providerRef, manualEvidence))
      ensures raised <==> !MayTransition(old(State()), i, target, providerRef, manualEvidence)
      ensures raised ==> State() == old(State())
      ensures !raised ==>
                && invoices == old(invoices)[i := old(invoices)[i].(status := target)]
                && IsOnRecord(events, i, invoices[i].total,
                              if target == Open then Opened else if target == Void then Voided else PaidByHand)
    {
      StepKeepsBalanced(State(), ETransition(i, target, providerRef, manualEvidence));
      if i >= |invoices| || target !in Targets(invoices[i].status) { return true; }
      if target == Paid && !(providerRef || manualEvidence) { return true; }
      Change(i, target);
      raised := false;
    }

    /** The invoice a verified webhook names. */
    method PayNamed(i: nat) returns (reply: WebhookReply)
      requires Valid() && i < |invoices|
      modifies this
      ensures Valid() && State() == Step(old(State()), EWebhook(i))
      ensures old(invoices)[i].status == Open ==> invoices == old(invoices)[i := old(invoices)[i].(status := Paid)]
      ensures old(invoices)[i].status != Open ==> State() == old(State())
      ensures reply == if old(invoices)[i].status in {Open, Paid} then InvoicePaid
                       else NoAction(old(invoices)[i].status)
    {
      StepKeepsBalanced(State(), EWebhook(i));
      if invoices[i].status == Open {
        invoices := invoices[i := invoices[i].(status := Paid)];
        Record(i, PaidByWebhook);
      }
      reply := if invoices[i].status == Paid then InvoicePaid else NoAction(invoices[i].status);
    }

    /** A webhook does something only if it is verified and names an OPEN invoice. */
    method VerifyBillingWebhook(signature: Signature) returns (reply: WebhookReply)
      requires Valid()
      modifies this
      ensures Valid()
      ensures reply == Unverified <==> signature.Rejected?
      ensures reply == NoInvoiceRef <==> signature == Verified(None)
      ensures reply == InvoiceNotFound <==> signature.Verified? && signature.invoiceRef.Some?
                                            && forall i: nat :: !Named(old(State()), signature, i)
      ensures reply in {Unverified, NoInvoiceRef, InvoiceNotFound} ==> State() == old(State())
      ensures reply == InvoicePaid || reply.NoAction? ==>
                exists i: nat :: Named(old(State()), signature, i)
                  && State() == Step(old(State()), EWebhook(i))
                  && (reply == InvoicePaid <==> old(invoices)[i].status in {Open, Paid})
                  && invoices == (if old(invoices)[i].status == Open
                                  then old(invoices)[i := old(invoices)[i].(status := Paid)] else old(invoices))
                  && (reply.NoAction? ==> State() == old(State()) && reply.status == invoices[i].status)
    {
      match signature
      case Rejected => return Unverified;
      case Verified(None) => return NoInvoiceRef;
      case Verified(Some(ref)) =>
        for i := 0 to |invoices|
          invariant forall j :: 0 <= j < i ==> invoices[j].number != ref
        {
          if invoices[i].number == ref {
            assert Named(State(), signature, i);
            reply := PayNamed(i);
            return;
          }
        }
        reply := InvoiceNotFound;
    }
  }

  // ----- Conservation -----

  ghost predicate IsPrefix(a: seq<BillingEvent>, b: seq<BillingEvent>) {
    |a| <= |b| && a == b[..|a|]
  }

  /** PAID and VOID are final, totals never change, and the ledger only grows. */
  lemma {:induction false} PaidAndVoidAreFinal(s: Db, events: seq<Event>)
    ensures var t := Exec(s, events);
            && |s.invoices| <= |t.invoices|
            && (forall i :: 0 <= i < |s.invoices| ==>
                  && t.invoices[i].(status := Draft) == s.invoices[i].(status := Draft)
                  && (s.invoices[i].status in {Paid, Void} ==> t.invoices[i].status == s.invoices[i].status))
            && IsPrefix(s.events, t.events)
  {
    if events == [] {
    } else {
      PaidAndVoidAreFinal(s, events[..|events| - 1]);
    }
  }
}
