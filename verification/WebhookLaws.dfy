/** Re-delivery, interleaving and finality of gateway events. */
module WebhookLaws {
  import opened Prelude
  import opened Billing
  import opened Webhook

  /** A delivery that throws leaves the rows as they were. */
  function After(b: Books, plans: map<nat, int>, e: Event): Books {
    match Deliver(b, plans, e) case Ok(c) => c case Err(_) => b
  }

  function Run(b: Books, plans: map<nat, int>, es: seq<Event>): Books {
    if es == [] then b else After(Run(b, plans, es[..|es| - 1]), plans, es[|es| - 1])
  }

  // ---------------------------------------------------------------- delivering twice

  lemma {:induction false} FindInvoiceUpdate(invoices: seq<Invoice>, charge: nat, i: nat, inv: Invoice)
    requires i < |invoices| && inv.charge == invoices[i].charge
    ensures FindInvoice(invoices[i := inv], charge) == FindInvoice(invoices, charge)
  {
    var updated := invoices[i := inv];
    var n := |invoices| - 1;
    if i < n {
      FindInvoiceUpdate(invoices[..n], charge, i, inv);
      assert updated[..n] == invoices[..n][i := inv];
    } else {
      assert updated[..n] == invoices[..n];
    }
  }

  lemma {:induction false} FindInvoiceAppend(invoices: seq<Invoice>, charge: nat, inv: Invoice)
    ensures FindInvoice(invoices + [inv], charge) ==
            if FindInvoice(invoices, charge).Some? then FindInvoice(invoices, charge)
            else if inv.charge == charge then Some(|invoices|) else None
  {
    assert (invoices + [inv])[..|invoices|] == invoices;
  }

  lemma {:induction false} CreatedTwice(b: Books, plans: map<nat, int>, e: Event)
    requires e.ChargeCreated? && Deliver(b, plans, e).Ok?
    ensures Deliver(Deliver(b, plans, e).value, plans, e) == Ok(Deliver(b, plans, e).value)
  {
    var c := Deliver(b, plans, e).value;
    var found := FindInvoice(b.invoices, e.charge);
    if found.Some? {
      FindInvoiceUpdate(b.invoices, e.charge, found.value, Completed(b.invoices[found.value], e));
      assert c.invoices[found.value := Completed(c.invoices[found.value], e)] == c.invoices;
    } else {
      FindInvoiceAppend(b.invoices, e.charge, c.invoices[|b.invoices|]);
      assert c.invoices == b.invoices + [c.invoices[|b.invoices|]];
      assert c.invoices[|b.invoices| := Completed(c.invoices[|b.invoices|], e)] == c.invoices;
    }
  }

  lemma {:induction false} SetSubKeepsFind(subs: seq<Sub>, gatewaySub: nat, i: nat, status: SubStatus)
    ensures FindSub(SetSub(subs, i, status), gatewaySub) == FindSub(subs, gatewaySub)
    decreases |subs|
  {
    if subs != [] {
      var n := |subs| - 1;
      SetSubKeepsFind(subs[..n], gatewaySub, i, status);
      assert SetSub(subs, i, status)[..n] == SetSub(subs[..n], i, status);
    }
  }

  /** Delivering any event twice in a row is delivering it once, whether it was applied, ignored or refused. */
  lemma {:induction false} DeliverTwice(b: Books, plans: map<nat, int>, e: Event)
    ensures After(After(b, plans, e), plans, e) == After(b, plans, e)
  {
    if Deliver(b, plans, e).Ok? {
      var c := Deliver(b, plans, e).value;
      match e {
        case Ignored =>
        case ChargeCreated(_, _, _, _, _, _) => CreatedTwice(b, plans, e);
        case PixUpdated(charge, code, link) =>
          var i := FindInvoice(b.invoices, charge).value;
          FindInvoiceUpdate(b.invoices, charge, i, c.invoices[i]);
          assert c.invoices == b.invoices[i := c.invoices[i]];
        case ChargePaid(id, charge) =>
          var i := FindInvoice(b.invoices, charge).value;
          FindInvoiceUpdate(b.invoices, charge, i, c.invoices[i]);
          assert c.invoices == b.invoices[i := c.invoices[i]];
        case ChargeFailed(charge) =>
          var i := FindInvoice(b.invoices, charge).value;
          FindInvoiceUpdate(b.invoices, charge, i, c.invoices[i]);
          assert c.invoices == b.invoices[i := c.invoices[i]];
        case SubscriptionCanceled(gatewaySub) =>
          SetSubKeepsFind(b.subs, gatewaySub, FindSub(b.subs, gatewaySub).value, Canceled);
      }
    }
  }

  // ---------------------------------------------------------------- one payment, many deliveries

  /** Subscription i gets this status; everything else about the subscriptions stays. */
  predicate SetsStatus(b: seq<Sub>, c: seq<Sub>, i: nat, status: SubStatus) {
    |c| == |b| && forall k :: 0 <= k < |b| ==> c[k] == if k == i then b[k].(status := status) else b[k]
  }

  /** All of a payment's work: the invoice is paid under the id, its subscription active, the change audited. */
  predicate PaysFully(b: Books, c: Books, i: nat, id: string) {
    i < |b.invoices| && c.invoices == b.invoices[i := b.invoices[i].(status := Paid, event := Some(id))] &&
    SetsStatus(b.subs, c.subs, b.invoices[i].sub, Active) && c.audits == b.audits + [InvoicePaid(i)]
  }

  /** All of a failure's work: the invoice is failed, its subscription past due, the change audited. */
  predicate FailsFully(b: Books, c: Books, i: nat) {
    i < |b.invoices| && c.invoices == b.invoices[i := b.invoices[i].(status := InvoiceStatus.Failed)] &&
    SetsStatus(b.subs, c.subs, b.invoices[i].sub, PastDue) && c.audits == b.audits + [InvoiceFailed(i)]
  }

  /** All of a cancellation's work. */
  predicate CancelsFully(b: Books, c: Books, i: nat) {
    i < |b.subs| && SetsStatus(b.subs, c.subs, i, SubStatus.Canceled) && c.invoices == b.invoices &&
    c.audits == b.audits + [SubCanceled(i)]
  }

  /** The first invoice with this charge id; the same as FindInvoice says of its result. */
  predicate IsInvoice(b: Books, charge: nat, i: nat) {
    i < |b.invoices| && b.invoices[i].charge == charge && forall k :: 0 <= k < i ==> b.invoices[k].charge != charge
  }

  predicate IsSub(b: Books, gatewaySub: nat, i: nat) {
    i < |b.subs| && b.subs[i].gatewayId == Some(gatewaySub) &&
    forall k :: 0 <= k < i ==> b.subs[k].gatewayId != Some(gatewaySub)
  }

  lemma {:induction false} FoundInvoice(b: Books, charge: nat, i: nat)
    requires IsInvoice(b, charge, i)
    ensures FindInvoice(b.invoices, charge) == Some(i)
  {
    assert b.invoices[i].charge == charge;
  }

  lemma {:induction false} FoundSub(b: Books, gatewaySub: nat, i: nat)
    requires IsSub(b, gatewaySub, i)
    ensures FindSub(b.subs, gatewaySub) == Some(i)
  {
    assert b.subs[i].gatewayId == Some(gatewaySub);
  }

  /** A failure does all of its work on an invoice that had not failed, and nothing on one that had. */
  lemma {:induction false} FailureApplies(b: Books, plans: map<nat, int>, charge: nat, i: nat)
    requires IsInvoice(b, charge, i)
    ensures var c := After(b, plans, ChargeFailed(charge));
      if b.invoices[i].status.Failed? then c == b else FailsFully(b, c, i)
  {
    FoundInvoice(b, charge, i);
  }

  lemma {:induction false} CancellationApplies(b: Books, plans: map<nat, int>, gatewaySub: nat, i: nat)
    requires IsSub(b, gatewaySub, i)
    ensures var c := After(b, plans, SubscriptionCanceled(gatewaySub));
      if b.subs[i].status.Canceled? then c == b else CancelsFully(b, c, i)
  {
    FoundSub(b, gatewaySub, i);
  }

  /** A bill that is known gets the QR code it lacked and the amount of the bill, and nothing else changes. */
  lemma {:induction false} KnownBillApplies(b: Books, plans: map<nat, int>, e: Event, i: nat)
    requires e.ChargeCreated? && IsInvoice(b, e.charge, i)
    ensures var c := After(b, plans, e);
      && c.subs == b.subs && c.audits == b.audits && |c.invoices| == |b.invoices|
      && forall k :: 0 <= k < |b.invoices| ==>
           c.invoices[k] == if k != i then b.invoices[k] else
             b.invoices[k].(qr := if b.invoices[k].qr.Some? then b.invoices[k].qr else e.qr,
                            amountCents := if e.amountCents.Some? then e.amountCents.value
                                           else b.invoices[k].amountCents)
  {
    FoundInvoice(b, e.charge, i);
  }

  /** A bill that is not known becomes a pending invoice of its subscription with the bill's own amount, or that of
      the plan, and one audit entry; it is refused without either amount or when its event id is taken. */
  lemma {:induction false} NewBillApplies(b: Books, plans: map<nat, int>, e: Event, i: nat)
    requires e.ChargeCreated? && IsSub(b, e.gatewaySub, i)
    requires forall k :: 0 <= k < |b.invoices| ==> b.invoices[k].charge != e.charge
    ensures var c := After(b, plans, e);
      if (e.amountCents.None? && b.subs[i].planId !in plans) || EventTaken(b.invoices, e.id) then
        Deliver(b, plans, e).Err? && c == b
      else
        && Deliver(b, plans, e).Ok? && c.subs == b.subs && c.audits == b.audits + [InvoiceCreated(|b.invoices|)]
        && c.invoices == b.invoices +
           [Invoice(i, e.charge, if e.amountCents.Some? then e.amountCents.value else plans[b.subs[i].planId],
                    Pending, e.qr, e.url, Some(e.id))]
  {
    FoundSub(b, e.gatewaySub, i);
    assert FindInvoice(b.invoices, e.charge).None?;
  }

  /** A late QR code fills or replaces the one of an open invoice, with the link if there is one; nothing else
      changes, and nothing at all on an invoice that is not open any more. */
  lemma {:induction false} LateQrApplies(b: Books, plans: map<nat, int>, e: Event, i: nat)
    requires e.PixUpdated? && IsInvoice(b, e.charge, i)
    ensures var c := After(b, plans, e);
      && c.subs == b.subs && c.audits == b.audits && |c.invoices| == |b.invoices|
      && (!b.invoices[i].status.Pending? && !b.invoices[i].status.Overdue? ==> c == b)
      && (b.invoices[i].status.Pending? || b.invoices[i].status.Overdue? ==>
            && c.invoices[i].qr == Some(e.code)
            && (b.invoices[i].qr != Some(e.code) && e.link.Some? ==> c.invoices[i].url == e.link)
            && (b.invoices[i].qr == Some(e.code) || e.link.None? ==> c.invoices[i].url == b.invoices[i].url))
      && forall k :: 0 <= k < |b.invoices| ==>
           c.invoices[k] == if k != i then b.invoices[k] else
             b.invoices[k].(qr := c.invoices[k].qr, url := c.invoices[k].url)
  {
    FoundInvoice(b, e.charge, i);
  }

  /** The gateway is asked to deliver again exactly when nothing matches, a new bill has no amount, or another
      invoice, or a bill, already carries the event id. */
  lemma {:induction false} RefusedIff(b: Books, plans: map<nat, int>, e: Event)
    ensures Deliver(b, plans, e).Err? <==>
      match e
      case Ignored => false
      case ChargeCreated(id, charge, gatewaySub, amount, _, _) =>
        && (forall k :: 0 <= k < |b.invoices| ==> b.invoices[k].charge != charge)
        && (forall i: nat :: IsSub(b, gatewaySub, i) ==>
              (amount.None? && b.subs[i].planId !in plans) || EventTaken(b.invoices, id))
      case PixUpdated(charge, _, _) => forall k :: 0 <= k < |b.invoices| ==> b.invoices[k].charge != charge
      case ChargePaid(id, charge) =>
        forall i: nat :: IsInvoice(b, charge, i) ==> b.invoices[i].event != Some(id) && EventTaken(b.invoices, id)
      case ChargeFailed(charge) => forall k :: 0 <= k < |b.invoices| ==> b.invoices[k].charge != charge
      case SubscriptionCanceled(gatewaySub) =>
        forall k :: 0 <= k < |b.subs| ==> b.subs[k].gatewayId != Some(gatewaySub)
  {
    match e {
      case ChargeCreated(_, charge, gatewaySub, _, _, _) =>
        var i := FindSub(b.subs, gatewaySub);
        if i.Some? { assert IsSub(b, gatewaySub, i.value); }
      case ChargePaid(_, charge) =>
        var i := FindInvoice(b.invoices, charge);
        if i.Some? { assert IsInvoice(b, charge, i.value); }
      case _ =>
    }
  }

  predicate IsPaid(e: Event, charge: nat) { e.ChargePaid? && e.charge == charge }

  predicate IsFailed(e: Event, charge: nat) { e.ChargeFailed? && e.charge == charge }

  /** The id belongs to the payments of this charge alone. */
  predicate OwnId(e: Event, charge: nat, id: string) {
    (e.ChargePaid? ==> (e.charge == charge <==> e.id == id)) &&
    (e.ChargeCreated? ==> e.id != id)
  }

  predicate OwnIds(es: seq<Event>, charge: nat, id: string) {
    forall k :: 0 <= k < |es| ==> OwnId(es[k], charge, id)
  }

  predicate SomePaid(es: seq<Event>, charge: nat) { exists k :: 0 <= k < |es| && IsPaid(es[k], charge) }

  predicate SomeFailed(es: seq<Event>, charge: nat) { exists k :: 0 <= k < |es| && IsFailed(es[k], charge) }

  /** How many payment deliveries for this charge changed anything in the run. */
  function PaymentsApplied(b: Books, plans: map<nat, int>, es: seq<Event>, charge: nat): nat {
    if es == [] then 0
    else
      var before := Run(b, plans, es[..|es| - 1]);
      var e := es[|es| - 1];
      PaymentsApplied(b, plans, es[..|es| - 1], charge) +
      if IsPaid(e, charge) && After(before, plans, e) != before then 1 else 0
  }

  /** Who holds the event id: the invoice of this charge once paid, and no other ever. */
  predicate Holds(b: Books, charge: nat, id: string, i: nat, held: bool) {
    FindInvoice(b.invoices, charge) == Some(i) &&
    (b.invoices[i].event == Some(id) <==> held) &&
    (forall k :: 0 <= k < |b.invoices| && k != i ==> b.invoices[k].event != Some(id))
  }

  lemma {:induction false} UpdateKeepsHolds(b: Books, c: Books, charge: nat, id: string, i: nat, held: bool, j: nat,
      inv: Invoice)
    requires Holds(b, charge, id, i, held) && j < |b.invoices| && c.invoices == b.invoices[j := inv]
    requires inv.charge == b.invoices[j].charge && inv.event == b.invoices[j].event
    ensures Holds(c, charge, id, i, held)
  {
    FindInvoiceUpdate(b.invoices, charge, j, inv);
  }

  lemma {:induction false} OtherKeepsHolds(b: Books, plans: map<nat, int>, e: Event, charge: nat, id: string,
      i: nat, held: bool)
    requires Holds(b, charge, id, i, held) && OwnId(e, charge, id) && !IsPaid(e, charge)
    ensures Holds(After(b, plans, e), charge, id, i, held)
  {
    hide FindInvoice, FindSub, SetSub;
    var c := After(b, plans, e);
    match e {
      case Ignored =>
      case ChargeCreated(eid, other, _, _, _, _) =>
        var found := FindInvoice(b.invoices, other);
        if found.Some? {
          UpdateKeepsHolds(b, c, charge, id, i, held, found.value, Completed(b.invoices[found.value], e));
        } else if c != b {
          FindInvoiceAppend(b.invoices, charge, c.invoices[|b.invoices|]);
          assert c.invoices == b.invoices + [c.invoices[|b.invoices|]];
        }
      case PixUpdated(other, _, _) =>
        var found := FindInvoice(b.invoices, other);
        if found.Some? {
          UpdateKeepsHolds(b, c, charge, id, i, held, found.value, c.invoices[found.value]);
        }
      case ChargePaid(eid, other) =>
        var found := FindInvoice(b.invoices, other);
        if c != b {
          FindInvoiceUpdate(b.invoices, charge, found.value, c.invoices[found.value]);
          assert found.value != i;
        }
      case ChargeFailed(other) =>
        var found := FindInvoice(b.invoices, other);
        if found.Some? {
          UpdateKeepsHolds(b, c, charge, id, i, held, found.value, c.invoices[found.value]);
        }
      case SubscriptionCanceled(_) =>
    }
  }

  /** A payment of the charge does all of its work when the id is not held yet, and nothing when it is. */
  lemma {:induction false} PaidTakesHold(b: Books, plans: map<nat, int>, charge: nat, id: string, i: nat, held: bool)
    requires Holds(b, charge, id, i, held)
    ensures var c := After(b, plans, ChargePaid(id, charge));
      && Holds(c, charge, id, i, true) && (c != b <==> !held)
      && (!held ==> PaysFully(b, c, i, id))
  {
    if !held {
      FindInvoiceUpdate(b.invoices, charge, i, b.invoices[i].(status := Paid, event := Some(id)));
      assert After(b, plans, ChargePaid(id, charge)).invoices[i].event != b.invoices[i].event;
    }
  }

  lemma {:induction false} RunHolds(b: Books, plans: map<nat, int>, es: seq<Event>, charge: nat, id: string, i: nat)
    requires Holds(b, charge, id, i, false) && OwnIds(es, charge, id)
    ensures Holds(Run(b, plans, es), charge, id, i, SomePaid(es, charge))
    ensures PaymentsApplied(b, plans, es, charge) == if SomePaid(es, charge) then 1 else 0
    decreases |es|
  {
    if es != [] {
      var n := |es| - 1;
      var before := Run(b, plans, es[..n]);
      RunHolds(b, plans, es[..n], charge, id, i);
      SomePaidSplit(es, charge);
      assert OwnId(es[n], charge, id);
      if IsPaid(es[n], charge) {
        PaidTakesHold(before, plans, charge, id, i, SomePaid(es[..n], charge));
      } else {
        OtherKeepsHolds(before, plans, es[n], charge, id, i, SomePaid(es[..n], charge));
      }
    }
  }

  lemma {:induction false} SomePaidSplit(es: seq<Event>, charge: nat)
    requires es != []
    ensures SomePaid(es, charge) <==> SomePaid(es[..|es| - 1], charge) || IsPaid(es[|es| - 1], charge)
    ensures SomeFailed(es, charge) <==> SomeFailed(es[..|es| - 1], charge) || IsFailed(es[|es| - 1], charge)
  {
    var shorter := es[..|es| - 1];
    if SomePaid(es, charge) && !IsPaid(es[|es| - 1], charge) {
      var k :| 0 <= k < |es| && IsPaid(es[k], charge);
      assert IsPaid(shorter[k], charge);
    }
    if SomePaid(shorter, charge) {
      var k :| 0 <= k < |shorter| && IsPaid(shorter[k], charge);
      assert IsPaid(es[k], charge);
    }
    if SomeFailed(es, charge) && !IsFailed(es[|es| - 1], charge) {
      var k :| 0 <= k < |es| && IsFailed(es[k], charge);
      assert IsFailed(shorter[k], charge);
    }
    if SomeFailed(shorter, charge) {
      var k :| 0 <= k < |shorter| && IsFailed(shorter[k], charge);
      assert IsFailed(es[k], charge);
    }
  }

  // ---------------------------------------------------------------- paid is not final

  /** Position of the first payment of the charge, or the length of the run. */
  function FirstPaid(es: seq<Event>, charge: nat): (r: nat)
    ensures r <= |es|
    ensures r < |es| <==> SomePaid(es, charge)
  {
    if es == [] then 0
    else
      SomePaidSplit(es, charge);
      var n := |es| - 1;
      if SomePaid(es[..n], charge) then FirstPaid(es[..n], charge)
      else if IsPaid(es[n], charge) then n
      else n + 1
  }

  lemma {:induction false} FirstPaidBefore(es: seq<Event>, charge: nat, k: nat)
    requires k <= |es|
    ensures SomePaid(es[..k], charge) <==> FirstPaid(es, charge) < k
    decreases |es|
  {
    var n := |es| - 1;
    if k == |es| {
      assert es[..k] == es;
    } else {
      SomePaidSplit(es, charge);
      FirstPaidBefore(es[..n], charge, k);
      assert es[..n][..k] == es[..k];
      if !SomePaid(es[..n], charge) { FirstPaidBefore(es[..n], charge, n); }
    }
  }

  lemma {:induction false} RunPrefix(b: Books, plans: map<nat, int>, es: seq<Event>, k: nat)
    requires k < |es|
    ensures Run(b, plans, es[..k + 1]) == After(Run(b, plans, es[..k]), plans, es[k])
  {
    assert es[..k + 1][..k] == es[..k];
  }

  /**
   * When every payment event of an invoice carries one id that it did not hold and nothing else uses, then in
   * any run, however the other events interleave, exactly one of those deliveries takes effect, namely the
   * first: it pays the invoice, activates the subscription and writes audit, and every later one changes
   * nothing at all.
   */
  lemma {:induction false} OnePaymentApplies(b: Books, plans: map<nat, int>, es: seq<Event>, charge: nat, id: string,
      k: nat)
    requires FindInvoice(b.invoices, charge).Some? && !EventTaken(b.invoices, id) && OwnIds(es, charge, id)
    requires k < |es| && IsPaid(es[k], charge)
    ensures PaymentsApplied(b, plans, es, charge) == 1
    ensures var before, after := Run(b, plans, es[..k]), Run(b, plans, es[..k + 1]);
      if k == FirstPaid(es, charge) then PaysFully(before, after, FindInvoice(b.invoices, charge).value, id)
      else after == before
  {
    hide Run, FindInvoice, PaymentsApplied, FirstPaid;
    var i := FindInvoice(b.invoices, charge).value;
    RunHolds(b, plans, es, charge, id, i);
    RunHolds(b, plans, es[..k], charge, id, i);
    RunPrefix(b, plans, es, k);
    FirstPaidBefore(es, charge, k);
    FirstPaidBefore(es, charge, k + 1);
    assert SomePaid(es[..k + 1], charge) by { assert IsPaid(es[..k + 1][k], charge); }
    assert OwnId(es[k], charge, id);
    PaidTakesHold(Run(b, plans, es[..k]), plans, charge, id, i, SomePaid(es[..k], charge));
  }

  /** An event that is neither a payment nor a failure of this charge leaves the invoice's status alone. */
  lemma {:induction false} OtherKeepsStatus(b: Books, plans: map<nat, int>, e: Event, charge: nat)
    requires FindInvoice(b.invoices, charge).Some? && !IsPaid(e, charge) && !IsFailed(e, charge)
    ensures var i := FindInvoice(b.invoices, charge).value;
      i < |After(b, plans, e).invoices| && After(b, plans, e).invoices[i].status == b.invoices[i].status
  {
  }

  function StatusAfter(es: seq<Event>, charge: nat, initial: InvoiceStatus): InvoiceStatus {
    var p := FirstPaid(es, charge);
    var start := if p < |es| then p else 0;
    if SomeFailed(es[start..], charge) then InvoiceStatus.Failed
    else if p < |es| then InvoiceStatus.Paid
    else initial
  }

  lemma {:induction false} StatusAfterStep(es: seq<Event>, charge: nat, initial: InvoiceStatus)
    requires es != []
    ensures var n := |es| - 1;
      StatusAfter(es, charge, initial) ==
      if IsFailed(es[n], charge) then InvoiceStatus.Failed
      else if IsPaid(es[n], charge) && !SomePaid(es[..n], charge) then InvoiceStatus.Paid
      else StatusAfter(es[..n], charge, initial)
  {
    var n := |es| - 1;
    var p := FirstPaid(es, charge);
    SomePaidSplit(es, charge);
    var start := if p < |es| then p else 0;
    SomePaidSplit(es[start..], charge);
    assert es[start..][..|es| - start - 1] == es[..n][start..];
    assert es[start..][|es| - start - 1] == es[n];
  }

  /**
   * The exact final status: a failure delivered after the first payment wins for good, because the
   * re-delivered payment is then taken for a duplicate.
   */
  lemma {:induction false} FinalStatus(b: Books, plans: map<nat, int>, es: seq<Event>, charge: nat, id: string, i: nat)
    requires Holds(b, charge, id, i, false) && OwnIds(es, charge, id)
    ensures Holds(Run(b, plans, es), charge, id, i, SomePaid(es, charge))
    ensures Run(b, plans, es).invoices[i].status == StatusAfter(es, charge, b.invoices[i].status)
    decreases |es|
  {
    RunHolds(b, plans, es, charge, id, i);
    if es != [] {
      var n := |es| - 1;
      var before := Run(b, plans, es[..n]);
      FinalStatus(b, plans, es[..n], charge, id, i);
      StatusAfterStep(es, charge, b.invoices[i].status);
      assert OwnId(es[n], charge, id);
      if IsPaid(es[n], charge) {
        PaidTakesHold(before, plans, charge, id, i, SomePaid(es[..n], charge));
      } else if !IsFailed(es[n], charge) {
        OtherKeepsStatus(before, plans, es[n], charge);
      }
    }
  }

  /** So a received payment stands exactly when no failure of its charge is delivered after it. */
  lemma {:induction false} PaymentStandsIff(b: Books, plans: map<nat, int>, es: seq<Event>, charge: nat, id: string,
      i: nat)
    requires Holds(b, charge, id, i, false) && OwnIds(es, charge, id) && SomePaid(es, charge)
    ensures i < |Run(b, plans, es).invoices|
    ensures Run(b, plans, es).invoices[i].status.Paid? <==> !SomeFailed(es[FirstPaid(es, charge)..], charge)
  {
    FinalStatus(b, plans, es, charge, id, i);
  }

  // ---------------------------------------------------------------- the status of a subscription

  /** A delivery that decides the status of subscription i: a payment under a fresh id and the failure of one of its
      invoices that had not failed, and its own cancellation. */
  predicate Decides(b: Books, e: Event, i: nat) {
    match e
    case ChargePaid(id, charge) =>
      var found := FindInvoice(b.invoices, charge);
      found.Some? && b.invoices[found.value].sub == i && b.invoices[found.value].event != Some(id) &&
      !EventTaken(b.invoices, id)
    case ChargeFailed(charge) =>
      var found := FindInvoice(b.invoices, charge);
      found.Some? && b.invoices[found.value].sub == i && !b.invoices[found.value].status.Failed?
    case SubscriptionCanceled(gatewaySub) => FindSub(b.subs, gatewaySub) == Some(i)
    case _ => false
  }

  /** Nothing from position k on decided the status. */
  predicate NoneDecides(b: Books, plans: map<nat, int>, es: seq<Event>, i: nat, k: nat) {
    forall j :: k <= j < |es| ==> !Decides(Run(b, plans, es[..j]), es[j], i)
  }

  /** The last delivery that decided the status, if any did. */
  predicate LastDecision(b: Books, plans: map<nat, int>, es: seq<Event>, i: nat, last: Option<nat>) {
    match last
    case None => NoneDecides(b, plans, es, i, 0)
    case Some(k) => k < |es| && Decides(Run(b, plans, es[..k]), es[k], i) && NoneDecides(b, plans, es, i, k + 1)
  }

  lemma {:induction false} EarlierDecision(b: Books, plans: map<nat, int>, es: seq<Event>, i: nat, last: Option<nat>)
    requires es != [] && LastDecision(b, plans, es, i, last) && last != Some(|es| - 1)
    ensures LastDecision(b, plans, es[..|es| - 1], i, last)
    ensures !Decides(Run(b, plans, es[..|es| - 1]), es[|es| - 1], i)
  {
    hide Decides, Run;
    var shorter := es[..|es| - 1];
    forall j | 0 <= j < |shorter| ensures shorter[..j] == es[..j] && shorter[j] == es[j] {}
  }

  lemma {:induction false} DecidedStatus(b: Books, plans: map<nat, int>, e: Event, i: nat)
    requires i < |b.subs|
    ensures var c := After(b, plans, e);
      && i < |c.subs|
      && c.subs[i] == if !Decides(b, e, i) then b.subs[i] else
           match e
           case ChargePaid(_, _) => b.subs[i].(status := Active)
           case ChargeFailed(_) => b.subs[i].(status := PastDue)
           case _ => b.subs[i].(status := SubStatus.Canceled)
  {
    hide FindInvoice, FindSub, EventTaken;
  }

  /**
   * The status of a subscription after any run: active, past due or canceled as the last payment, failure or
   * cancellation said that applied to it, or its first status; no run changes anything else about it.
   */
  lemma {:induction false} FinalSubscription(b: Books, plans: map<nat, int>, es: seq<Event>, i: nat, last: Option<nat>)
    requires i < |b.subs| && LastDecision(b, plans, es, i, last)
    ensures var c := Run(b, plans, es);
      && i < |c.subs|
      && c.subs[i] == if last.None? then b.subs[i] else
           match es[last.value]
           case ChargePaid(_, _) => b.subs[i].(status := Active)
           case ChargeFailed(_) => b.subs[i].(status := PastDue)
           case _ => b.subs[i].(status := SubStatus.Canceled)
    decreases |es|
  {
    hide After, Decides, LastDecision;
    if es != [] {
      var n := |es| - 1;
      if last == Some(n) {
        SubKept(b, plans, es[..n], i);
        assert Decides(Run(b, plans, es[..n]), es[n], i) by { LastDecides(b, plans, es, i, n); }
      } else {
        EarlierDecision(b, plans, es, i, last);
        FinalSubscription(b, plans, es[..n], i, last);
        if last.Some? { LastDecides(b, plans, es[..n], i, last.value); }
      }
      DecidedStatus(Run(b, plans, es[..n]), plans, es[n], i);
    } else {
      assert last.None? by { NothingDecided(b, plans, i, last); }
    }
  }

  lemma {:induction false} LastDecides(b: Books, plans: map<nat, int>, es: seq<Event>, i: nat, k: nat)
    requires LastDecision(b, plans, es, i, Some(k))
    ensures k < |es| && Decides(Run(b, plans, es[..k]), es[k], i)
  {
  }

  lemma {:induction false} NothingDecided(b: Books, plans: map<nat, int>, i: nat, last: Option<nat>)
    requires LastDecision(b, plans, [], i, last)
    ensures last.None?
  {
  }

  lemma {:induction false} SubKept(b: Books, plans: map<nat, int>, es: seq<Event>, i: nat)
    requires i < |b.subs|
    ensures i < |Run(b, plans, es).subs|
    ensures Run(b, plans, es).subs[i] == b.subs[i].(status := Run(b, plans, es).subs[i].status)
    decreases |es|
  {
    hide After, Decides;
    if es != [] {
      SubKept(b, plans, es[..|es| - 1], i);
      DecidedStatus(Run(b, plans, es[..|es| - 1]), plans, es[|es| - 1], i);
    }
  }
}
