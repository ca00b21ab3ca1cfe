/**
 * Deliveries that land inside a checkout. The checkout reads the row, marks the open invoices, calls the gateway
 * and writes the row at the end, in separate transactions (services/app/src/modules/billing/subscriptions.ts:221-312).
 */
module PixCheckoutRaces {
  import opened Prelude
  import opened Billing
  import opened PixCheckout
  import opened PixCheckoutLaws
  import W = Webhook
  import T = TrialAccess

  function HeardAll(s: State, es: seq<W.Event>): State {
    if es == [] then s else Heard(HeardAll(s, es[..|es| - 1]), es[|es| - 1])
  }

  /** The final update as the source does it: the new status comes from the row that was read at the start. */
  function StoredOver(s: State, read: Sub, id: nat, charge: Charge, order: Order): State
    requires s.sub.Some?
  {
    var t := Stored(s, id, charge, order);
    var status := if charge.status.BillPaid? then Active else StatusUntilPaid(read, order.now);
    t.(sub := Some(t.sub.value.(status := status)))
  }

  function AnsweredOver(s: State, read: Sub, bill: Option<Bill>, order: Order, f: Faults): State
    requires s.sub.Some?
  {
    var id, made := s.gateway.next, s.(gateway := Opened(s.gateway));
    if bill.None? || !Confirmable(FirstCharge(s.gateway, bill.value, f.polls)) then
      made.(gateway := CancelAt(made.gateway, id, f.cancelUnconfirmed))
    else
      var charge := FirstCharge(s.gateway, bill.value, f.polls);
      var stored := if f.persist.RolledBack? then made else StoredOver(made, read, id, charge, order);
      if f.persist.Committed? then stored else stored.(gateway := CancelAt(stored.gateway, id, f.cancelNew))
  }

  /** Up to the answer of the gateway: `early` lands before the open invoices are marked, `late` after that. */
  function Asked(s: State, f: Faults, early: seq<W.Event>, late: seq<W.Event>): State
    requires s.sub.Some?
  {
    var marked := HeardAll(s, early);
    HeardAll(if !Retry(s.sub.value) then marked
             else marked.(invoices := FailOpen(marked.invoices),
                          gateway := CancelAt(marked.gateway, s.sub.value.gatewayId.value, f.cancelOld)),
             late)
  }

  /** A checkout with these deliveries between its first read and its last write. */
  function Beside(s: State, order: Order, f: Faults, early: seq<W.Event>, late: seq<W.Event>): State {
    if s.sub.None? || ShowsOpenQr(s) then HeardAll(HeardAll(s, early), late)
    else if Retry(s.sub.value) && !f.mark.Committed? then
      var marked := HeardAll(s, early);
      HeardAll(if f.mark.RolledBack? then marked else marked.(invoices := FailOpen(marked.invoices)), late)
    else
      var u := Asked(s, f, early, late);
      if u.sub.None? then u
      else
        match f.create
        case Rejected => u
        case CreatedUnheard => u.(gateway := Opened(u.gateway))
        case Created(bill) => AnsweredOver(u, s.sub.value, bill, order, f)
  }

  /** Without deliveries this is the checkout. */
  lemma {:induction false} BesideNothing(s: State, order: Order, f: Faults)
    ensures Beside(s, order, f, [], []) == Next(s, order, f)
  {
    hide FirstCharge, Confirmable, FailOpen, LatestOpen;
  }

  lemma {:induction false} HeardKeepsIds(s: State, e: W.Event)
    ensures Heard(s, e).gateway == s.gateway && StoredIds(Heard(s, e)) == StoredIds(s)
    ensures s.sub.Some? <==> Heard(s, e).sub.Some?
  {
    hide W.FindInvoice, W.FindSub, W.EventTaken;
  }

  lemma {:induction false} HeardAllKeepsIds(s: State, es: seq<W.Event>)
    ensures HeardAll(s, es).gateway == s.gateway && StoredIds(HeardAll(s, es)) == StoredIds(s)
    ensures s.sub.Some? <==> HeardAll(s, es).sub.Some?
  {
    hide Heard, StoredIds;
    if es != [] {
      HeardAllKeepsIds(s, es[..|es| - 1]);
      HeardKeepsIds(HeardAll(s, es[..|es| - 1]), es[|es| - 1]);
    }
  }

  lemma {:induction false} AskedIds(s: State, f: Faults, early: seq<W.Event>, late: seq<W.Event>)
    requires s.sub.Some?
    ensures var u, p := Asked(s, f, early, late), Prepared(s, f.cancelOld);
            u.sub.Some? && u.gateway == p.gateway && StoredIds(u) == StoredIds(p)
  {
    hide HeardAll, FailOpen;
    var marked := HeardAll(s, early);
    HeardAllKeepsIds(s, early);
    HeardAllKeepsIds(marked, late);
    if Retry(s.sub.value) {
      HeardAllKeepsIds(marked.(invoices := FailOpen(marked.invoices),
                               gateway := CancelAt(marked.gateway, s.sub.value.gatewayId.value, f.cancelOld)), late);
    }
  }

  lemma {:induction false} AnsweredOverIds(u: State, p: State, read: Sub, bill: Option<Bill>, order: Order, f: Faults)
    requires u.sub.Some? && p.sub.Some? && u.gateway == p.gateway && StoredIds(u) == StoredIds(p)
    ensures var t, v := AnsweredOver(u, read, bill, order, f), Answered(p, bill, order, f).0;
            t.gateway == v.gateway && StoredIds(t) == StoredIds(v)
  {
    hide FirstCharge, Confirmable;
  }

  /** Deliveries inside a checkout change neither what is live at the gateway nor the stored id. */
  lemma {:induction false} BesideIds(s: State, order: Order, f: Faults, early: seq<W.Event>, late: seq<W.Event>)
    ensures var t, v := Beside(s, order, f, early, late), Next(s, order, f);
            t.gateway == v.gateway && StoredIds(t) == StoredIds(v)
  {
    hide HeardAll, FailOpen, AnsweredOver, Answered, Asked, LatestOpen;
    var marked := HeardAll(s, early);
    HeardAllKeepsIds(s, early);
    HeardAllKeepsIds(marked, late);
    HeardAllKeepsIds(marked.(invoices := FailOpen(marked.invoices)), late);
    if s.sub.Some? {
      AskedIds(s, f, early, late);
      if f.create.Created? {
        AnsweredOverIds(Asked(s, f, early, late), Prepared(s, f.cancelOld), s.sub.value, f.create.bill, order, f);
      }
    }
  }

  /** So the cases in which a checkout leaves an orphan are the same whatever is delivered inside it. */
  lemma {:induction false} OrphanIffBeside(s: State, order: Order, f: Faults, early: seq<W.Event>, late: seq<W.Event>)
    requires WellNumbered(s) && Orphans(s) == {}
    ensures Orphans(Beside(s, order, f, early, late)) == {} <==> !LeavesOrphan(s, f)
  {
    hide Beside, Next, LeavesOrphan, WellNumbered, StoredIds;
    OrphanIff(s, order, f);
    BesideIds(s, order, f, early, late);
  }

  // ---------------------------------------------------------------- payments that are overwritten

  /** The checkout writes a new subscription whose first bill is not paid yet. */
  predicate SavesUnpaid(s: State, f: Faults)
    requires s.sub.Some?
  {
    var g := Prepared(s, f.cancelOld).gateway;
    f.create.Created? && Saved(Prepared(s, f.cancelOld), f.create.bill, f) &&
    !FirstCharge(g, f.create.bill.value, f.polls).status.BillPaid?
  }

  /**
   * A tenant that has become active inside the checkout is active after it unless the checkout saves an unpaid
   * subscription, and then it has the status that the row read at the start gives. The paid invoices stay paid.
   */
  lemma {:induction false} PaymentLostIff(s: State, order: Order, f: Faults, early: seq<W.Event>, late: seq<W.Event>)
    requires ReachesGateway(s, f)
    ensures var u, t := Asked(s, f, early, late), Beside(s, order, f, early, late);
      && u.sub.Some? && t.sub.Some?
      && (u.sub.value.status.Active? ==> (t.sub.value.status.Active? <==> !SavesUnpaid(s, f)))
      && (SavesUnpaid(s, f) ==> t.sub.value.status == StatusUntilPaid(s.sub.value, order.now))
      && |u.invoices| <= |t.invoices| && t.invoices[..|u.invoices|] == u.invoices
  {
    hide HeardAll, FailOpen, Asked, Confirmable, Polled, LatestOpen;
    AskedIds(s, f, early, late);
    var u, t := Asked(s, f, early, late), Beside(s, order, f, early, late);
    assert t.invoices[..|u.invoices|] == u.invoices;
  }

  /** The failing input: a bill of the subscription being replaced is paid while the new one is created. The
      invoice is paid and the tenant is blocked. */
  lemma {:induction false} PaidInsideBlocked(s: State, order: Order, f: Faults, id: string, charge: nat, now: int)
    requires ReachesGateway(s, f) && Retry(s.sub.value) && SavesUnpaid(s, f)
    requires W.FindInvoice(s.invoices, charge).Some? && !W.EventTaken(s.invoices, id)
    requires s.invoices[W.FindInvoice(s.invoices, charge).value].sub == 0
    ensures var found := W.FindInvoice(s.invoices, charge).value;
      var t := Beside(s, order, f, [W.ChargePaid(id, charge)], []);
      && found < |t.invoices| && t.invoices[found].status.Paid?
      && T.Blocked(t.sub, now)
  {
    hide FailOpen, Asked, Confirmable, Polled, SavesUnpaid, Beside, W.FindInvoice, W.EventTaken;
    var e, found := W.ChargePaid(id, charge), W.FindInvoice(s.invoices, charge).value;
    PaymentLostIff(s, order, f, [e], []);
    PaidAsked(s, f, id, charge);
    var u, t := Asked(s, f, [e], []), Beside(s, order, f, [e], []);
    assert t.invoices[..|u.invoices|][found] == t.invoices[found];
  }

  lemma {:induction false} PaidAsked(s: State, f: Faults, id: string, charge: nat)
    requires s.sub.Some? && Retry(s.sub.value)
    requires W.FindInvoice(s.invoices, charge).Some? && !W.EventTaken(s.invoices, id)
    requires s.invoices[W.FindInvoice(s.invoices, charge).value].sub == 0
    ensures var found, u := W.FindInvoice(s.invoices, charge).value, Asked(s, f, [W.ChargePaid(id, charge)], []);
            found < |u.invoices| && u.invoices[found].status.Paid? && u.sub.Some? && u.sub.value.status.Active?
  {
    var e := W.ChargePaid(id, charge);
    assert [e][..0] == [] && HeardAll(s, [e]) == Heard(s, e);
    EventOfFound(s.invoices, W.FindInvoice(s.invoices, charge).value, id);
  }

  lemma {:induction false} EventOfFound(invoices: seq<Invoice>, i: nat, id: string)
    requires i < |invoices| && !W.EventTaken(invoices, id)
    ensures invoices[i].event != Some(id)
  {
  }
}
