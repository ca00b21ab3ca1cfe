/**
 * The Pix checkout saga (services/app/src/modules/billing/subscriptions.ts,
 * libs/shared/src/payments/providers/vindi.ts): one checkout at a time, every gateway call and every
 * local transaction free to fail.
 */
module PixCheckout {
  import opened Prelude
  import opened Billing

  // ---------------------------------------------------------------- what can go wrong

  /** A cancellation is done, done but its answer is lost, or not done. */
  datatype CancelOutcome = Done | AnswerLost | Refused

  datatype BillStatus = BillPaid | BillPending | BillFailed

  datatype Bill = Bill(qr: Option<string>, url: Option<string>, status: BillStatus, amountCents: Option<int>)

  /** A creation is rejected, made but its answer is lost, or answered, with or without its first bill. */
  datatype CreateOutcome = Rejected | CreatedUnheard | Created(bill: Option<Bill>)

  datatype Poll = NoAnswer | Answer(url: Option<string>, qr: Option<string>)

  datatype Faults = Faults(mark: PersistOutcome, cancelOld: CancelOutcome, create: CreateOutcome, polls: seq<Poll>,
                           cancelUnconfirmed: CancelOutcome, persist: PersistOutcome, cancelNew: CancelOutcome)

  datatype Order = Order(planId: nat, priceCents: int, now: int)

  datatype CheckoutError = NotFound | LocalFailure | GatewayFailure | NoInitialCharge

  // ---------------------------------------------------------------- state

  /** The gateway numbers subscriptions and bills with one counter; a bill belongs to a subscription. */
  datatype Gateway = Gateway(live: set<nat>, billOf: map<nat, nat>, next: nat)

  /** One tenant: its only subscription, row 0, and its invoices in creation order. */
  datatype State = State(sub: Option<Sub>, invoices: seq<Invoice>, gateway: Gateway)

  datatype Charge = Charge(id: nat, qr: Option<string>, url: Option<string>, status: BillStatus,
                          amountCents: Option<int>)

  // ---------------------------------------------------------------- specification

  function CancelAt(g: Gateway, id: nat, outcome: CancelOutcome): Gateway {
    if outcome.Refused? then g else g.(live := g.live - {id})
  }

  function Opened(g: Gateway): Gateway {
    Gateway(g.live + {g.next}, g.billOf[g.next + 1 := g.next], g.next + 2)
  }

  function PollAt(polls: seq<Poll>, i: nat): Poll { if i < |polls| then polls[i] else NoAnswer }

  /** The charge after polls i to 4, stopping at the first QR code. */
  function Polled(charge: Charge, polls: seq<Poll>, i: nat): Charge
    decreases 5 - i
  {
    if i >= 5 || charge.qr.Some? then charge
    else match PollAt(polls, i)
      case NoAnswer => Polled(charge, polls, i + 1)
      case Answer(url, qr) =>
        Polled(charge.(url := if charge.url.Some? then charge.url else url, qr := qr), polls, i + 1)
  }

  function FirstCharge(g: Gateway, bill: Bill, polls: seq<Poll>): Charge {
    var charge := Charge(g.next + 1, bill.qr, bill.url, bill.status, bill.amountCents);
    if bill.status.BillPending? then Polled(charge, polls, 0) else charge
  }

  predicate Confirmable(charge: Charge) { (charge.qr.Some? || charge.url.Some?) && !charge.status.BillFailed? }

  function FailOpen(invoices: seq<Invoice>): (r: seq<Invoice>)
    ensures |r| == |invoices|
    ensures forall k :: 0 <= k < |r| ==>
      r[k] == if IsOpen(invoices[k]) then invoices[k].(status := InvoiceStatus.Failed) else invoices[k]
  {
    if invoices == [] then []
    else
      var last := invoices[|invoices| - 1];
      FailOpen(invoices[..|invoices| - 1]) + [if IsOpen(last) then last.(status := InvoiceStatus.Failed) else last]
  }

  /** The most recently created open invoice; the table is in creation order. */
  function LatestOpen(invoices: seq<Invoice>): Option<Invoice> {
    if invoices == [] then None
    else if IsOpen(invoices[|invoices| - 1]) then Some(invoices[|invoices| - 1])
    else LatestOpen(invoices[..|invoices| - 1])
  }

  /** An unpaid gateway subscription is stored: this checkout is a retry. */
  predicate Retry(sub: Sub) { sub.gatewayId.Some? && sub.status.PendingPayment? }

  predicate ShowsOpenQr(s: State) {
    s.sub.Some? && Retry(s.sub.value) && LatestOpen(s.invoices).Some? && LatestOpen(s.invoices).value.qr.Some?
  }

  /** Before the gateway is asked for a new subscription: a retry fails its open invoices, then cancels. */
  function Prepared(s: State, cancelOld: CancelOutcome): State
    requires s.sub.Some?
  {
    if Retry(s.sub.value)
    then s.(invoices := FailOpen(s.invoices), gateway := CancelAt(s.gateway, s.sub.value.gatewayId.value, cancelOld))
    else s
  }

  function Stored(s: State, id: nat, charge: Charge, order: Order): State
    requires s.sub.Some?
  {
    var paid := charge.status.BillPaid?;
    var sub := s.sub.value;
    s.(sub := Some(sub.(planId := order.planId, status := if paid then Active else StatusUntilPaid(sub, order.now),
                        gatewayId := Some(id))),
       invoices := s.invoices + [Invoice(0, charge.id, charge.amountCents.GetOr(order.priceCents),
                                         if paid then Paid else Pending, charge.qr, charge.url, None)])
  }

  function Answered(s: State, bill: Option<Bill>, order: Order, f: Faults): (State, Result<(), CheckoutError>)
    requires s.sub.Some?
  {
    var id := s.gateway.next;
    var made := s.(gateway := Opened(s.gateway));
    if bill.None? || !Confirmable(FirstCharge(s.gateway, bill.value, f.polls)) then
      (made.(gateway := CancelAt(made.gateway, id, f.cancelUnconfirmed)), Err(NoInitialCharge))
    else
      var charge := FirstCharge(s.gateway, bill.value, f.polls);
      var stored := if f.persist.RolledBack? then made else Stored(made, id, charge, order);
      if f.persist.Committed? then (stored, Ok(()))
      else (stored.(gateway := CancelAt(stored.gateway, id, f.cancelNew)), Err(LocalFailure))
  }

  function Checkout(s: State, order: Order, f: Faults): (State, Result<(), CheckoutError>) {
    if s.sub.None? then (s, Err(NotFound))
    else if ShowsOpenQr(s) then (s, Ok(()))
    else if Retry(s.sub.value) && !f.mark.Committed? then
      (if f.mark.RolledBack? then s else s.(invoices := FailOpen(s.invoices)), Err(LocalFailure))
    else
      var p := Prepared(s, f.cancelOld);
      match f.create
      case Rejected => (p, Err(GatewayFailure))
      case CreatedUnheard => (p.(gateway := Opened(p.gateway)), Err(GatewayFailure))
      case Created(bill) => Answered(p, bill, order, f)
  }

  // ---------------------------------------------------------------- the saga in its own form

  class Vindi {
    var g: Gateway

    constructor (g: Gateway)
      ensures this.g == g
    {
      this.g := g;
    }

    method CancelSubscription(id: nat, outcome: CancelOutcome) returns (ok: bool)
      modifies this
      ensures g == CancelAt(old(g), id, outcome) && ok == outcome.Done?
    {
      if outcome != Refused {
        g := g.(live := g.live - {id});
      }
      ok := outcome == Done;
    }

    method WaitForPixQrCode(first: Charge, polls: seq<Poll>) returns (charge: Charge)
      ensures charge == if first.status.BillPending? then Polled(first, polls, 0) else first
    {
      charge := first;
      if charge.qr.Some? || charge.status != BillPending {
        return;
      }
      var i := 0;
      while i < 5
        invariant 0 <= i <= 5 && charge.qr.None?
        invariant Polled(charge, polls, i) == Polled(first, polls, 0)
      {
        match PollAt(polls, i) {
          case NoAnswer =>
          case Answer(url, qr) =>
            if url.Some? && charge.url.None? {
              charge := charge.(url := url);
            }
            if qr.Some? {
              charge := charge.(qr := qr);
              return;
            }
        }
        i := i + 1;
      }
    }

    method CreateRecurringPixCharge(f: Faults) returns (r: Result<(nat, Charge), CheckoutError>)
      modifies this
      ensures f.create.Rejected? ==> g == old(g) && r == Err(GatewayFailure)
      ensures f.create.CreatedUnheard? ==> g == Opened(old(g)) && r == Err(GatewayFailure)
      ensures f.create.Created? ==>
        if f.create.bill.Some? && Confirmable(FirstCharge(old(g), f.create.bill.value, f.polls))
        then g == Opened(old(g)) && r == Ok((old(g).next, FirstCharge(old(g), f.create.bill.value, f.polls)))
        else g == CancelAt(Opened(old(g)), old(g).next, f.cancelUnconfirmed) && r == Err(NoInitialCharge)
    {
      if f.create.Rejected? {
        return Err(GatewayFailure);
      }
      var id := g.next;
      g := Gateway(g.live + {id}, g.billOf[id + 1 := id], id + 2);
      if f.create.CreatedUnheard? {
        return Err(GatewayFailure);
      }
      var bill := f.create.bill;
      if bill.Some? {
        var charge := WaitForPixQrCode(
          Charge(id + 1, bill.value.qr, bill.value.url, bill.value.status, bill.value.amountCents), f.polls);
        if (charge.qr.Some? || charge.url.Some?) && charge.status != BillFailed {
          return Ok((id, charge));
        }
      }
      var _ := CancelSubscription(id, f.cancelUnconfirmed);
      r := Err(NoInitialCharge);
    }
  }

  class Checkouts {
    var sub: Option<Sub>
    var invoices: seq<Invoice>
    const vindi: Vindi

    constructor (s: State)
      ensures Now() == s && fresh(vindi)
    {
      sub, invoices := s.sub, s.invoices;
      vindi := new Vindi(s.gateway);
    }

    function Now(): State
      reads this, vindi
    {
      State(sub, invoices, vindi.g)
    }

    method FailOpenInvoices()
      modifies this`invoices
      ensures invoices == FailOpen(old(invoices))
    {
      var was := invoices;
      var k := 0;
      while k < |was|
        invariant 0 <= k <= |was| && |invoices| == |was|
        invariant forall j :: 0 <= j < |was| ==> invoices[j] == if j < k then FailOpen(was)[j] else was[j]
      {
        if IsOpen(invoices[k]) {
          invoices := invoices[k := invoices[k].(status := InvoiceStatus.Failed)];
        }
        k := k + 1;
      }
    }

    method Persist(id: nat, charge: Charge, order: Order)
      requires sub.Some?
      modifies this
      ensures State(sub, invoices, vindi.g) == Stored(old(Now()), id, charge, order)
    {
      var paid := charge.status == BillPaid;
      var current := sub.value;
      sub := Some(current.(planId := order.planId, gatewayId := Some(id),
                           status := if paid then Active else StatusUntilPaid(current, order.now)));
      invoices := invoices + [Invoice(0, charge.id, charge.amountCents.GetOr(order.priceCents),
                                      if paid then Paid else Pending, charge.qr, charge.url, None)];
    }

    method CreateRecurringPixSubscription(order: Order, f: Faults) returns (r: Result<(), CheckoutError>)
      modifies this, vindi
      ensures (Now(), r) == Checkout(old(Now()), order, f)
    {
      if sub.None? {
        return Err(NotFound);
      }
      var current := sub.value;
      var openInvoice := LatestOpen(invoices);
      if current.gatewayId.Some? && current.status == PendingPayment {
        if openInvoice.Some? && openInvoice.value.qr.Some? {
          return Ok(());
        }
        if f.mark != RolledBack {
          FailOpenInvoices();
        }
        if f.mark != Committed {
          return Err(LocalFailure);
        }
        var _ := vindi.CancelSubscription(current.gatewayId.value, f.cancelOld);
      }
      var result := vindi.CreateRecurringPixCharge(f);
      if result.Err? {
        return Err(result.error);
      }
      var (id, charge) := result.value;
      if f.persist != RolledBack {
        Persist(id, charge, order);
      }
      if f.persist == Committed {
        return Ok(());
      }
      var _ := vindi.CancelSubscription(id, f.cancelNew);
      r := Err(LocalFailure);
    }
  }
}
