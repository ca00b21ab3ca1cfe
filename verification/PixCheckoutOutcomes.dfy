/**
 * What a Pix checkout leaves behind, read off the rows before and after it
 * (services/app/src/modules/billing/subscriptions.ts:221-312, libs/shared/src/payments/providers/vindi.ts:90-133).
 */
module PixCheckoutOutcomes {
  import opened Prelude
  import opened Billing
  import opened PixCheckout
  import T = TrialAccess

  // ---------------------------------------------------------------- the polls

  predicate BringsQr(polls: seq<Poll>, i: nat) { i < |polls| && polls[i].Answer? && polls[i].qr.Some? }

  predicate BringsUrl(polls: seq<Poll>, i: nat) { i < |polls| && polls[i].Answer? && polls[i].url.Some? }

  /** The first of the polls k to 4 that brings a code, or 5. */
  function QrAt(polls: seq<Poll>, k: nat): (n: nat)
    requires k <= 5
    ensures k <= n <= 5 && (n < 5 ==> BringsQr(polls, n)) && forall j: nat :: k <= j < n ==> !BringsQr(polls, j)
    decreases 5 - k
  {
    if k == 5 || BringsQr(polls, k) then k else QrAt(polls, k + 1)
  }

  /** The first of the polls k to 4 that brings a link, or 5. */
  function UrlAt(polls: seq<Poll>, k: nat): (n: nat)
    requires k <= 5
    ensures k <= n <= 5 && (n < 5 ==> BringsUrl(polls, n)) && forall j: nat :: k <= j < n ==> !BringsUrl(polls, j)
    decreases 5 - k
  {
    if k == 5 || BringsUrl(polls, k) then k else UrlAt(polls, k + 1)
  }

  /** Polling a charge without a code gives the first code that comes in five polls, and the charge's own link or
      the first one that comes until then. */
  lemma {:induction false} PolledExact(charge: Charge, polls: seq<Poll>, k: nat)
    requires charge.qr.None? && k <= 5
    ensures var n, m := QrAt(polls, k), UrlAt(polls, k);
      Polled(charge, polls, k) ==
        charge.(qr := if n < 5 then polls[n].qr else None,
                url := if charge.url.Some? then charge.url
                       else if m < 5 && m <= n then polls[m].url else None)
    decreases 5 - k
  {
    if k < 5 {
      var next := match PollAt(polls, k)
        case NoAnswer => charge
        case Answer(url, qr) => charge.(url := if charge.url.Some? then charge.url else url, qr := qr);
      assert Polled(charge, polls, k) == Polled(next, polls, k + 1);
      if next.qr.None? { PolledExact(next, polls, k + 1); }
    }
  }

  lemma {:induction false} PolledDone(charge: Charge, polls: seq<Poll>, k: nat)
    requires charge.qr.Some?
    ensures Polled(charge, polls, k) == charge
  {
  }

  // ---------------------------------------------------------------- the rows

  predicate Unpaid(inv: Invoice) { inv.status.Pending? || inv.status.Overdue? }

  /** Invoice i is the last one that is still to be paid. */
  predicate LastUnpaid(invoices: seq<Invoice>, i: nat) {
    i < |invoices| && Unpaid(invoices[i]) && forall j :: i < j < |invoices| ==> !Unpaid(invoices[j])
  }

  lemma {:induction false} LatestOpenIs(invoices: seq<Invoice>) returns (i: nat)
    ensures if LatestOpen(invoices).Some? then LastUnpaid(invoices, i) && LatestOpen(invoices) == Some(invoices[i])
            else forall j :: 0 <= j < |invoices| ==> !Unpaid(invoices[j])
  {
    i := 0;
    if invoices != [] {
      var n := |invoices| - 1;
      if Unpaid(invoices[n]) {
        i := n;
      } else {
        i := LatestOpenIs(invoices[..n]);
      }
    }
  }

  /** The tenant waits for the first payment of a gateway subscription. */
  predicate Waits(sub: Sub) { sub.gatewayId.Some? && sub.status.PendingPayment? }

  /** It waits and the page can still show the code of its last unpaid invoice. */
  ghost predicate ShowsQr(s: State) {
    s.sub.Some? && Waits(s.sub.value) && exists i: nat :: LastUnpaid(s.invoices, i) && s.invoices[i].qr.Some?
  }

  /** The gateway is asked for a new subscription. */
  ghost predicate Asks(s: State, f: Faults) {
    s.sub.Some? && !ShowsQr(s) && (Waits(s.sub.value) ==> f.mark.Committed?)
  }

  /** The first bill can be paid: it is not rejected, and has a code or a link by the last of its polls. */
  predicate Payable(bill: Bill, polls: seq<Poll>) {
    !bill.status.BillFailed? &&
    (bill.qr.Some? || bill.url.Some? || (bill.status.BillPending? && (QrAt(polls, 0) < 5 || UrlAt(polls, 0) < 5)))
  }

  /** A new subscription and its first bill are written. */
  ghost predicate Saves(s: State, f: Faults) {
    Asks(s, f) && f.create.Created? && f.create.bill.Some? && Payable(f.create.bill.value, f.polls) &&
    !f.persist.RolledBack?
  }

  predicate OnRunningTrial(sub: Sub, now: int) {
    sub.status.Trialing? && sub.trialEndsAt.Some? && now < sub.trialEndsAt.value
  }

  lemma {:induction false} FirstChargeExact(g: Gateway, bill: Bill, polls: seq<Poll>)
    ensures var c, n, m := FirstCharge(g, bill, polls), QrAt(polls, 0), UrlAt(polls, 0);
      && c.id == g.next + 1 && c.status == bill.status && c.amountCents == bill.amountCents
      && (bill.qr.Some? || !bill.status.BillPending? ==> c.qr == bill.qr && c.url == bill.url)
      && (bill.qr.None? && bill.status.BillPending? ==>
            && c.qr == (if n < 5 then polls[n].qr else None)
            && c.url == if bill.url.Some? then bill.url else if m < 5 && m <= n then polls[m].url else None)
      && (Confirmable(c) <==> Payable(bill, polls))
  {
    hide Polled, QrAt, UrlAt;
    var c := Charge(g.next + 1, bill.qr, bill.url, bill.status, bill.amountCents);
    if bill.qr.None? { PolledExact(c, polls, 0); } else { PolledDone(c, polls, 0); }
  }

  lemma {:induction false} ShowsQrIff(s: State)
    ensures ShowsOpenQr(s) <==> ShowsQr(s)
    ensures ShowsQr(s) ==> s.sub.Some?
  {
    hide LatestOpen;
    var i := LatestOpenIs(s.invoices);
    if LatestOpen(s.invoices).Some? {
      forall j: nat | LastUnpaid(s.invoices, j) ensures j == i {}
    }
  }

  /** What the checkout answers, and the only ways in which it throws. */
  lemma {:induction false} AnswerIff(s: State, order: Order, f: Faults)
    ensures var r := Checkout(s, order, f).1;
      && (r.Ok? <==> ShowsQr(s) || (Saves(s, f) && f.persist.Committed?))
      && (r == Err(NotFound) <==> s.sub.None?)
      && (r == Err(GatewayFailure) <==> Asks(s, f) && !f.create.Created?)
      && (r == Err(NoInitialCharge) <==>
            Asks(s, f) && f.create.Created? &&
            (f.create.bill.None? || !Payable(f.create.bill.value, f.polls)))
  {
    hide FirstCharge, Confirmable, Payable, QrAt, UrlAt, LatestOpen, ShowsOpenQr, ShowsQr, FailOpen;
    ShowsQrIff(s);
    if f.create.Created? && f.create.bill.Some? {
      FirstChargeExact(s.gateway, f.create.bill.value, f.polls);
      if s.sub.Some? { FirstChargeExact(Prepared(s, f.cancelOld).gateway, f.create.bill.value, f.polls); }
    }
  }

  /**
   * The subscription row after a checkout. If one is saved with its first bill paid the tenant is active. If that
   * bill is still to be paid, whatever the status was before, the tenant is blocked exactly if it was not on a
   * running trial, and waits for the payment; on a running trial it keeps its status. The end of the trial is never
   * touched, and without a save the row is not.
   */
  lemma {:induction false} RowAfter(s: State, order: Order, f: Faults)
    requires s.sub.Some?
    ensures var t, was := Checkout(s, order, f).0, s.sub.value;
      if !Saves(s, f) then t.sub == s.sub else
        && t.sub.Some?
        && var row := t.sub.value;
           && row.planId == order.planId && row.gatewayId == Some(s.gateway.next)
           && row.trialEndsAt == was.trialEndsAt
           && if f.create.bill.value.status.BillPaid? then row.status.Active?
              else
                && (T.Blocked(Some(row), order.now) <==> !OnRunningTrial(was, order.now))
                && (if OnRunningTrial(was, order.now) then row.status == was.status else row.status.PendingPayment?)
  {
    hide FirstCharge, Confirmable, Payable, QrAt, UrlAt, LatestOpen, ShowsOpenQr, ShowsQr, FailOpen;
    ShowsQrIff(s);
    if f.create.Created? && f.create.bill.Some? {
      FirstChargeExact(Prepared(s, f.cancelOld).gateway, f.create.bill.value, f.polls);
    }
  }

  /** The invoices there were: a retry that cannot show a code fails those still to be paid, and nothing else
      changes. */
  lemma {:induction false} InvoicesKept(s: State, order: Order, f: Faults)
    requires s.sub.Some?
    ensures var t := Checkout(s, order, f).0;
      && |t.invoices| == |s.invoices| + (if Saves(s, f) then 1 else 0)
      && forall k :: 0 <= k < |s.invoices| ==>
           t.invoices[k] ==
           if Waits(s.sub.value) && !ShowsQr(s) && !f.mark.RolledBack? && Unpaid(s.invoices[k])
           then s.invoices[k].(status := InvoiceStatus.Failed) else s.invoices[k]
  {
    hide FirstCharge, Confirmable, Payable, QrAt, UrlAt, LatestOpen, ShowsOpenQr, ShowsQr;
    ShowsQrIff(s);
    if f.create.Created? && f.create.bill.Some? {
      FirstChargeExact(Prepared(s, f.cancelOld).gateway, f.create.bill.value, f.polls);
    }
  }

  /** The invoice of a saved subscription: the bill's id, its amount or else the price of the plan, and the code and
      the link that came with it or with the polls. */
  lemma {:induction false} InvoiceAdded(s: State, order: Order, f: Faults)
    requires Saves(s, f)
    ensures var t, bill := Checkout(s, order, f).0, f.create.bill.value;
      var n, m := QrAt(f.polls, 0), UrlAt(f.polls, 0);
      && |t.invoices| == |s.invoices| + 1
      && var inv := t.invoices[|s.invoices|];
         && inv.sub == 0 && inv.charge == s.gateway.next + 1 && inv.event.None?
         && inv.amountCents == (if bill.amountCents.Some? then bill.amountCents.value else order.priceCents)
         && inv.status == (if bill.status.BillPaid? then Paid else Pending)
         && (bill.qr.Some? || bill.status.BillPaid? ==> inv.qr == bill.qr && inv.url == bill.url)
         && (bill.qr.None? && !bill.status.BillPaid? ==>
               && inv.qr == (if n < 5 then f.polls[n].qr else None)
               && inv.url == if bill.url.Some? then bill.url else if m < 5 && m <= n then f.polls[m].url else None)
  {
    hide FirstCharge, Confirmable, QrAt, UrlAt, LatestOpen, ShowsOpenQr, ShowsQr, FailOpen;
    ShowsQrIff(s);
    FirstChargeExact(Prepared(s, f.cancelOld).gateway, f.create.bill.value, f.polls);
  }
}
