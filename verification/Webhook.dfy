/**
 * Processing of verified gateway events (services/app/src/modules/billing/webhook.ts:105-235, with the
 * lookup of schemas/migrations/0005_billing_webhook_lookup_function.sql). A row's id is its index.
 */
module Webhook {
  import opened Prelude
  import opened Billing

  datatype Event =
    | Ignored
    | ChargeCreated(id: string, charge: nat, gatewaySub: nat, amountCents: Option<int>,
                    qr: Option<string>, url: Option<string>)
    | PixUpdated(charge: nat, code: string, link: Option<string>)
    | ChargePaid(id: string, charge: nat)
    | ChargeFailed(charge: nat)
    | SubscriptionCanceled(gatewaySub: nat)

  datatype Audit = InvoiceCreated(invoice: nat) | InvoicePaid(invoice: nat)
    | InvoiceFailed(invoice: nat) | SubCanceled(sub: nat)

  datatype Books = Books(subs: seq<Sub>, invoices: seq<Invoice>, audits: seq<Audit>)

  /** Each makes the handler throw, so that the gateway delivers again. */
  datatype WebhookError = NoMatch | NoAmount | EventIdTaken

  // ---------------------------------------------------------------- specification

  /** The first invoice with this charge id. */
  function FindInvoice(invoices: seq<Invoice>, charge: nat): (r: Option<nat>)
    ensures r.Some? ==> r.value < |invoices| && invoices[r.value].charge == charge
    ensures r.None? ==> forall k :: 0 <= k < |invoices| ==> invoices[k].charge != charge
    ensures r.Some? ==> forall k :: 0 <= k < r.value ==> invoices[k].charge != charge
  {
    if invoices == [] then None
    else
      var n := |invoices| - 1;
      var earlier := FindInvoice(invoices[..n], charge);
      if earlier.Some? then earlier
      else if invoices[n].charge == charge then Some(n)
      else None
  }

  function FindSub(subs: seq<Sub>, gatewaySub: nat): (r: Option<nat>)
    ensures r.Some? ==> r.value < |subs| && subs[r.value].gatewayId == Some(gatewaySub)
    ensures r.None? ==> forall k :: 0 <= k < |subs| ==> subs[k].gatewayId != Some(gatewaySub)
    ensures r.Some? ==> forall k :: 0 <= k < r.value ==> subs[k].gatewayId != Some(gatewaySub)
  {
    if subs == [] then None
    else
      var n := |subs| - 1;
      var earlier := FindSub(subs[..n], gatewaySub);
      if earlier.Some? then earlier
      else if subs[n].gatewayId == Some(gatewaySub) then Some(n)
      else None
  }

  /** The unique constraint on gateway_event_id, over every invoice. */
  predicate EventTaken(invoices: seq<Invoice>, id: string) {
    exists k :: 0 <= k < |invoices| && invoices[k].event == Some(id)
  }

  function SetSub(subs: seq<Sub>, i: nat, status: SubStatus): seq<Sub> {
    if i < |subs| then subs[i := subs[i].(status := status)] else subs
  }

  function Completed(inv: Invoice, e: Event): Invoice
    requires e.ChargeCreated?
  {
    inv.(qr := if inv.qr.None? then e.qr else inv.qr, amountCents := e.amountCents.GetOr(inv.amountCents))
  }

  function Create(b: Books, plans: map<nat, int>, e: Event, sub: nat): Result<Books, WebhookError>
    requires e.ChargeCreated? && sub < |b.subs|
  {
    var planId := b.subs[sub].planId;
    if e.amountCents.None? && planId !in plans then Err(NoAmount)
    else if EventTaken(b.invoices, e.id) then Err(EventIdTaken)
    else
      var amount := if e.amountCents.Some? then e.amountCents.value else plans[planId];
      Ok(b.(invoices := b.invoices + [Invoice(sub, e.charge, amount, Pending, e.qr, e.url, Some(e.id))],
            audits := b.audits + [InvoiceCreated(|b.invoices|)]))
  }

  predicate PixChanges(inv: Invoice, code: string) { IsOpen(inv) && inv.qr != Some(code) }

  function Paying(b: Books, i: nat, id: string): Result<Books, WebhookError>
    requires i < |b.invoices|
  {
    var inv := b.invoices[i];
    if inv.event == Some(id) then Ok(b)
    else if EventTaken(b.invoices, id) then Err(EventIdTaken)
    else Ok(Books(SetSub(b.subs, inv.sub, Active), b.invoices[i := inv.(status := Paid, event := Some(id))],
                  b.audits + [InvoicePaid(i)]))
  }

  function Failing(b: Books, i: nat): Books
    requires i < |b.invoices|
  {
    var inv := b.invoices[i];
    if inv.status.Failed? then b
    else Books(SetSub(b.subs, inv.sub, PastDue), b.invoices[i := inv.(status := Failed)], b.audits + [InvoiceFailed(i)])
  }

  function Canceling(b: Books, i: nat): Books
    requires i < |b.subs|
  {
    if b.subs[i].status.Canceled? then b
    else b.(subs := SetSub(b.subs, i, Canceled), audits := b.audits + [SubCanceled(i)])
  }

  /** One delivery: the new rows, or an error and no change. */
  function Deliver(b: Books, plans: map<nat, int>, e: Event): Result<Books, WebhookError> {
    match e
    case Ignored => Ok(b)
    case ChargeCreated(_, charge, gatewaySub, _, _, _) =>
      (var found := FindInvoice(b.invoices, charge);
       var sub := FindSub(b.subs, gatewaySub);
       if found.Some? then Ok(b.(invoices := b.invoices[found.value := Completed(b.invoices[found.value], e)]))
       else if sub.Some? then Create(b, plans, e, sub.value)
       else Err(NoMatch))
    case PixUpdated(charge, code, link) =>
      (var found := FindInvoice(b.invoices, charge);
       if found.None? then Err(NoMatch)
       else
         var inv := b.invoices[found.value];
         if !PixChanges(inv, code) then Ok(b)
         else
           var shown := inv.(qr := Some(code), url := if link.Some? then link else inv.url);
           Ok(b.(invoices := b.invoices[found.value := shown])))
    case ChargePaid(id, charge) =>
      (var found := FindInvoice(b.invoices, charge);
       if found.None? then Err(NoMatch) else Paying(b, found.value, id))
    case ChargeFailed(charge) =>
      (var found := FindInvoice(b.invoices, charge);
       if found.None? then Err(NoMatch) else Ok(Failing(b, found.value)))
    case SubscriptionCanceled(gatewaySub) =>
      (var found := FindSub(b.subs, gatewaySub);
       if found.None? then Err(NoMatch) else Ok(Canceling(b, found.value)))
  }

  // ---------------------------------------------------------------- the handler in its own form

  class Handler {
    var subs: seq<Sub>
    var invoices: seq<Invoice>
    var audits: seq<Audit>
    const plans: map<nat, int>

    constructor (b: Books, plans: map<nat, int>)
      ensures Now() == b && this.plans == plans
    {
      subs, invoices, audits := b.subs, b.invoices, b.audits;
      this.plans := plans;
    }

    function Now(): Books
      reads this
    {
      Books(subs, invoices, audits)
    }

    method SetStatus(sub: nat, status: SubStatus)
      modifies this`subs
      ensures subs == SetSub(old(subs), sub, status)
    {
      if sub < |subs| {
        subs := subs[sub := subs[sub].(status := status)];
      }
    }

    method Created(e: Event, found: Option<nat>, sub: Option<nat>) returns (r: Result<(), WebhookError>)
      requires e.ChargeCreated? && found == FindInvoice(invoices, e.charge) && sub == FindSub(subs, e.gatewaySub)
      modifies this
      ensures var d := Deliver(old(Now()), plans, e);
        if d.Ok? then r.Ok? && Now() == d.value else r == Err(d.error) && Now() == old(Now())
    {
      if found.Some? {
        var existing := invoices[found.value];
        var fillQr := existing.qr.None? && e.qr.Some?;
        var fixAmount := e.amountCents.Some? && e.amountCents.value != existing.amountCents;
        if fillQr || fixAmount {
          invoices := invoices[found.value := existing.(
            qr := if fillQr then e.qr else existing.qr,
            amountCents := if fixAmount then e.amountCents.value else existing.amountCents)];
        }
        assert invoices == old(invoices)[found.value := Completed(existing, e)];
        return Ok(());
      }
      if sub.None? {
        return Err(NoMatch);
      }
      var planId := subs[sub.value].planId;
      if e.amountCents.None? && planId !in plans {
        return Err(NoAmount);
      }
      if EventTaken(invoices, e.id) {
        return Err(EventIdTaken);
      }
      var amount := if e.amountCents.Some? then e.amountCents.value else plans[planId];
      audits := audits + [InvoiceCreated(|invoices|)];
      invoices := invoices + [Invoice(sub.value, e.charge, amount, Pending, e.qr, e.url, Some(e.id))];
      r := Ok(());
    }

    method PayInvoice(i: nat, id: string) returns (r: Result<(), WebhookError>)
      requires i < |invoices|
      modifies this
      ensures var d := Paying(old(Now()), i, id);
        if d.Ok? then r.Ok? && Now() == d.value else r == Err(d.error) && Now() == old(Now())
    {
      var count := if invoices[i].event.None? || invoices[i].event.value != id then 1 else 0;
      if count == 0 {
        return Ok(());
      }
      if EventTaken(invoices, id) {
        return Err(EventIdTaken);
      }
      invoices := invoices[i := invoices[i].(status := Paid, event := Some(id))];
      SetStatus(invoices[i].sub, Active);
      audits := audits + [InvoicePaid(i)];
      r := Ok(());
    }

    method FailInvoice(i: nat)
      requires i < |invoices|
      modifies this
      ensures Now() == Failing(old(Now()), i)
    {
      if invoices[i].status != Failed {
        invoices := invoices[i := invoices[i].(status := Failed)];
        SetStatus(invoices[i].sub, PastDue);
        audits := audits + [InvoiceFailed(i)];
      }
    }

    method ProcessVerifiedWebhook(e: Event) returns (r: Result<(), WebhookError>)
      modifies this
      ensures var d := Deliver(old(Now()), plans, e);
        if d.Ok? then r.Ok? && Now() == d.value else r == Err(d.error) && Now() == old(Now())
    {
      if e.Ignored? {
        return Ok(());
      }
      var found := if e.SubscriptionCanceled? then None else FindInvoice(invoices, e.charge);
      var sub := if e.SubscriptionCanceled? || e.ChargeCreated? then FindSub(subs, e.gatewaySub) else None;
      if found.None? && sub.None? {
        return Err(NoMatch);
      }
      match e {
        case ChargeCreated(_, _, _, _, _, _) =>
          r := Created(e, found, sub);
          return;
        case PixUpdated(_, code, link) =>
          var inv := invoices[found.value];
          if IsOpen(inv) && (inv.qr.None? || inv.qr.value != code) {
            invoices := invoices[found.value := inv.(qr := Some(code), url := if link.Some? then link else inv.url)];
          }
        case ChargePaid(id, _) =>
          r := PayInvoice(found.value, id);
          return;
        case ChargeFailed(_) =>
          FailInvoice(found.value);
        case SubscriptionCanceled(_) =>
          if subs[sub.value].status != Canceled {
            SetStatus(sub.value, Canceled);
            audits := audits + [SubCanceled(sub.value)];
          }
      }
      r := Ok(());
    }
  }
}
