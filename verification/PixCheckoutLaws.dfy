/** Orphans, open invoices and late cancellations over runs of Pix checkouts. */
module PixCheckoutLaws {
  import opened Prelude
  import opened Billing
  import opened PixCheckout
  import W = Webhook
  import T = TrialAccess

  /** Ids handed out so far are below the counter. */
  predicate WellNumbered(s: State) {
    (forall id :: id in s.gateway.live ==> id < s.gateway.next) &&
    (s.sub.Some? && s.sub.value.gatewayId.Some? ==> s.sub.value.gatewayId.value < s.gateway.next) &&
    (forall k :: 0 <= k < |s.invoices| ==> s.invoices[k].charge in s.gateway.billOf) &&
    (forall bill :: bill in s.gateway.billOf ==> bill < s.gateway.next && s.gateway.billOf[bill] < s.gateway.next)
  }

  function StoredIds(s: State): set<nat> {
    if s.sub.Some? && s.sub.value.gatewayId.Some? then {s.sub.value.gatewayId.value} else {}
  }

  /** Subscriptions that charge at the gateway while the tenant's row does not know them. */
  function Orphans(s: State): set<nat> { s.gateway.live - StoredIds(s) }

  function Next(s: State, order: Order, f: Faults): State { Checkout(s, order, f).0 }

  // ---------------------------------------------------------------- exactly when a checkout leaks

  predicate ReachesGateway(s: State, f: Faults) {
    s.sub.Some? && !ShowsOpenQr(s) && (Retry(s.sub.value) ==> f.mark.Committed?)
  }

  predicate Unconfirmable(s: State, f: Faults) {
    f.create.Created? &&
    (f.create.bill.None? || !Confirmable(FirstCharge(s.gateway, f.create.bill.value, f.polls)))
  }

  /** The stored subscription is live and this checkout does not get it cancelled. */
  predicate OldStaysLive(s: State, f: Faults) {
    s.sub.Some? && s.sub.value.gatewayId.Some? && s.sub.value.gatewayId.value in s.gateway.live &&
    (!Retry(s.sub.value) || f.cancelOld.Refused?)
  }

  predicate LeavesOrphan(s: State, f: Faults) {
    ReachesGateway(s, f) &&
    match f.create
    case Rejected => false
    case CreatedUnheard => true
    case Created(_) =>
      if Unconfirmable(s, f) then f.cancelUnconfirmed.Refused?
      else if f.persist.RolledBack? then f.cancelNew.Refused?
      else OldStaysLive(s, f)
  }

  lemma {:induction false} PreparedWellNumbered(s: State, cancelOld: CancelOutcome)
    requires WellNumbered(s) && s.sub.Some?
    ensures WellNumbered(Prepared(s, cancelOld))
  {
  }

  lemma {:induction false} OpenedWellNumbered(s: State)
    requires WellNumbered(s)
    ensures WellNumbered(s.(gateway := Opened(s.gateway)))
  {
  }

  lemma {:induction false} AnsweredWellNumbered(s: State, bill: Option<Bill>, order: Order, f: Faults)
    requires WellNumbered(s) && s.sub.Some?
    ensures WellNumbered(Answered(s, bill, order, f).0)
  {
    OpenedWellNumbered(s);
    var made := s.(gateway := Opened(s.gateway));
    if bill.Some? {
      StoredWellNumbered(made, s.gateway.next, FirstCharge(s.gateway, bill.value, f.polls), order);
    }
  }

  lemma {:induction false} PolledKeepsId(charge: Charge, polls: seq<Poll>, i: nat)
    ensures Polled(charge, polls, i).id == charge.id
    decreases 5 - i
  {
    if i < 5 && charge.qr.None? {
      match PollAt(polls, i) {
        case NoAnswer => PolledKeepsId(charge, polls, i + 1);
        case Answer(url, qr) =>
          PolledKeepsId(charge.(url := if charge.url.Some? then charge.url else url, qr := qr), polls, i + 1);
      }
    }
  }

  lemma {:induction false} FirstChargeId(g: Gateway, bill: Bill, polls: seq<Poll>)
    ensures FirstCharge(g, bill, polls).id == g.next + 1
  {
    PolledKeepsId(Charge(g.next + 1, bill.qr, bill.url, bill.status, bill.amountCents), polls, 0);
  }

  lemma {:induction false} StoredWellNumbered(s: State, id: nat, charge: Charge, order: Order)
    requires WellNumbered(s) && s.sub.Some? && id < s.gateway.next
    ensures charge.id in s.gateway.billOf ==> WellNumbered(Stored(s, id, charge, order))
  {
  }

  lemma {:induction false} NextWellNumbered(s: State, order: Order, f: Faults)
    requires WellNumbered(s)
    ensures WellNumbered(Next(s, order, f))
  {
    if ReachesGateway(s, f) {
      var p := Prepared(s, f.cancelOld);
      PreparedWellNumbered(s, f.cancelOld);
      OpenedWellNumbered(p);
      if f.create.Created? {
        AnsweredWellNumbered(p, f.create.bill, order, f);
      }
    }
  }

  /** Whether the answered creation ends up saved on the row. */
  predicate Saved(s: State, bill: Option<Bill>, f: Faults) {
    bill.Some? && Confirmable(FirstCharge(s.gateway, bill.value, f.polls)) && !f.persist.RolledBack?
  }

  /** Whether the new subscription is cancelled again. */
  predicate Undone(s: State, bill: Option<Bill>, f: Faults) {
    if bill.None? || !Confirmable(FirstCharge(s.gateway, bill.value, f.polls)) then !f.cancelUnconfirmed.Refused?
    else !f.persist.Committed? && !f.cancelNew.Refused?
  }

  lemma {:induction false} AnsweredGateway(s: State, bill: Option<Bill>, order: Order, f: Faults)
    requires s.sub.Some? && s.gateway.next !in s.gateway.live
    ensures var t := Answered(s, bill, order, f).0;
      && t.gateway.live == s.gateway.live + (if Undone(s, bill, f) then {} else {s.gateway.next})
      && StoredIds(t) == if Saved(s, bill, f) then {s.gateway.next} else StoredIds(s)
  {
    var t := Answered(s, bill, order, f).0;
    assert t.gateway.live == if Undone(s, bill, f) then s.gateway.live + {s.gateway.next} - {s.gateway.next}
                             else s.gateway.live + {s.gateway.next};
    assert s.gateway.live + {s.gateway.next} - {s.gateway.next} == s.gateway.live;
  }

  /** Cancelling or not, the preparation keeps the stored id; live loses at most that one. */
  lemma {:induction false} PreparedGateway(s: State, f: Faults)
    requires s.sub.Some?
    ensures var p := Prepared(s, f.cancelOld);
      && StoredIds(p) == StoredIds(s) && p.gateway.next == s.gateway.next && p.gateway.billOf == s.gateway.billOf
      && p.gateway.live <= s.gateway.live
      && (forall id :: id in StoredIds(s) ==> (id in p.gateway.live <==> OldStaysLive(s, f)))
  {
  }

  /**
   * From a state without orphans, a checkout leaves one exactly when: the gateway created a
   * subscription whose answer was lost; or the compensating cancellation of an unusable or unsaved one
   * was refused; or a new one was saved over a live one that was not cancelled, either because that
   * cancellation was refused or because the row was not waiting for payment.
   */
  lemma {:induction false} OrphanIff(s: State, order: Order, f: Faults)
    requires WellNumbered(s) && Orphans(s) == {}
    ensures Orphans(Next(s, order, f)) == {} <==> !LeavesOrphan(s, f)
  {
    var id := s.gateway.next;
    assert id !in s.gateway.live && id !in StoredIds(s);
    NoOrphanMeans(s);
    if ReachesGateway(s, f) {
      var p := Prepared(s, f.cancelOld);
      PreparedGateway(s, f);
      assert id !in p.gateway.live;
      match f.create {
        case Rejected =>
          NoOrphanMeans(p);
        case CreatedUnheard =>
          assert id in Orphans(p.(gateway := Opened(p.gateway)));
        case Created(bill) =>
          AnsweredGateway(p, bill, order, f);
          AnsweredIff(s, order, f);
      }
    }
  }

  lemma {:induction false} NoOrphanMeans(s: State)
    ensures Orphans(s) == {} <==> s.gateway.live <= StoredIds(s)
  {
    assert Orphans(s) == {} ==> forall x :: x in s.gateway.live ==> x in StoredIds(s) by {
      if Orphans(s) == {} {
        forall x | x in s.gateway.live ensures x in StoredIds(s) {
          assert x !in Orphans(s);
        }
      }
    }
  }

  lemma {:induction false} AnsweredIff(s: State, order: Order, f: Faults)
    requires WellNumbered(s) && s.gateway.live <= StoredIds(s) && ReachesGateway(s, f) && f.create.Created?
    ensures Orphans(Next(s, order, f)) == {} <==> !LeavesOrphan(s, f)
  {
    var id := s.gateway.next;
    var p := Prepared(s, f.cancelOld);
    var t := Next(s, order, f);
    PreparedGateway(s, f);
    AnsweredGateway(p, f.create.bill, order, f);
    NoOrphanMeans(t);
    if Saved(p, f.create.bill, f) {
      assert t.gateway.live <= {id} <==> p.gateway.live <= {id};
      assert id !in p.gateway.live;
    } else {
      assert id !in StoredIds(t);
    }
  }

  // ---------------------------------------------------------------- runs

  datatype Attempt = Attempt(order: Order, faults: Faults)

  datatype Step = Try(attempt: Attempt) | Hear(event: W.Event)

  function BooksOf(s: State): W.Books
    requires s.sub.Some?
  {
    W.Books([s.sub.value], s.invoices, [])
  }

  /** A webhook delivery, seen by one tenant. */
  function Heard(s: State, e: W.Event): State {
    if s.sub.None? then s
    else match W.Deliver(BooksOf(s), map[], e)
      case Err(_) => s
      case Ok(b) => if |b.subs| == 1 then s.(sub := Some(b.subs[0]), invoices := b.invoices) else s
  }

  function StepFrom(s: State, step: Step): State {
    match step
    case Try(a) => Next(s, a.order, a.faults)
    case Hear(e) => Heard(s, e)
  }

  function RunOf(s: State, steps: seq<Step>): State {
    if steps == [] then s else StepFrom(RunOf(s, steps[..|steps| - 1]), steps[|steps| - 1])
  }

  /** No cancellation is refused and no creation goes unheard; everything else may fail. */
  predicate Tame(f: Faults) {
    !f.cancelOld.Refused? && !f.cancelUnconfirmed.Refused? && !f.cancelNew.Refused? && !f.create.CreatedUnheard?
  }

  predicate Waiting(s: State) { s.sub.None? || s.sub.value.status.PendingPayment? }

  /** The bill belongs to a gateway subscription other than the stored one. */
  predicate Replaced(s: State, charge: nat) {
    charge in s.gateway.billOf && s.gateway.billOf[charge] !in StoredIds(s)
  }

  /** Nothing is live at the gateway and every invoice has failed. */
  predicate Settled(s: State) {
    s.gateway.live == {} && forall k :: 0 <= k < |s.invoices| ==> s.invoices[k].status.Failed?
  }

  /** The tenant's invoice for this bill is marked paid. */
  predicate PaidBill(s: State, charge: nat) {
    var found := W.FindInvoice(s.invoices, charge);
    found.Some? && s.invoices[found.value].status.Paid?
  }

  /**
   * Any checkout that starts waiting for payment or settled, and any delivery, early or late, except a new bill
   * of the stored subscription, which is a renewal.
   */
  predicate Allowed(s: State, step: Step) {
    match step
    case Try(a) => (Waiting(s) || Settled(s)) && Tame(a.faults)
    case Hear(e) => e.ChargeCreated? ==> W.FindInvoice(s.invoices, e.charge).Some? || e.gatewaySub !in StoredIds(s)
  }

  predicate AllowedRun(s: State, steps: seq<Step>) {
    forall k :: 0 <= k < |steps| ==> Allowed(RunOf(s, steps[..k]), steps[k])
  }

  function OpenCount(invoices: seq<Invoice>): nat {
    if invoices == [] then 0
    else OpenCount(invoices[..|invoices| - 1]) + if IsOpen(invoices[|invoices| - 1]) then 1 else 0
  }

  /** An open invoice is a bill of the stored subscription, and a paid one ends the waiting. */
  predicate Current(s: State, inv: Invoice) {
    (IsOpen(inv) ==> inv.charge in s.gateway.billOf && s.gateway.billOf[inv.charge] in StoredIds(s)) &&
    (inv.status.Paid? ==> !Waiting(s))
  }

  predicate Inv(s: State) {
    WellNumbered(s) && Orphans(s) == {} && OpenCount(s.invoices) <= 1 &&
    (forall k :: 0 <= k < |s.invoices| ==> s.invoices[k].sub == 0 && Current(s, s.invoices[k]))
  }

  /** A new tenant: nothing at the gateway, no invoice. */
  predicate Fresh(s: State) {
    s.gateway.live == {} && s.invoices == [] && s.gateway.billOf == map[] &&
    (s.sub.Some? ==> s.sub.value.gatewayId.None?)
  }

  lemma {:induction false} FailOpenNone(invoices: seq<Invoice>)
    ensures OpenCount(FailOpen(invoices)) == 0
    decreases |invoices|
  {
    if invoices != [] {
      FailOpenNone(invoices[..|invoices| - 1]);
      assert FailOpen(invoices)[..|invoices| - 1] == FailOpen(invoices[..|invoices| - 1]);
    }
  }

  lemma {:induction false} NoneOpen(invoices: seq<Invoice>)
    requires forall k :: 0 <= k < |invoices| ==> !IsOpen(invoices[k])
    ensures OpenCount(invoices) == 0
  {
    if invoices != [] {
      NoneOpen(invoices[..|invoices| - 1]);
    }
  }

  lemma {:induction false} OpenCountUpdate(invoices: seq<Invoice>, i: nat, inv: Invoice)
    requires i < |invoices| && IsOpen(inv) == IsOpen(invoices[i])
    ensures OpenCount(invoices[i := inv]) == OpenCount(invoices)
    decreases |invoices|
  {
    var n := |invoices| - 1;
    if i < n {
      OpenCountUpdate(invoices[..n], i, inv);
      assert invoices[i := inv][..n] == invoices[..n][i := inv];
    } else {
      assert invoices[i := inv][..n] == invoices[..n];
    }
  }

  lemma {:induction false} OpenCountClose(invoices: seq<Invoice>, i: nat, inv: Invoice)
    requires i < |invoices| && !IsOpen(inv)
    ensures OpenCount(invoices[i := inv]) <= OpenCount(invoices)
    decreases |invoices|
  {
    var n := |invoices| - 1;
    if i < n {
      OpenCountClose(invoices[..n], i, inv);
      assert invoices[i := inv][..n] == invoices[..n][i := inv];
    } else {
      assert invoices[i := inv][..n] == invoices[..n];
    }
  }

  predicate AllFailed(invoices: seq<Invoice>) {
    forall k :: 0 <= k < |invoices| ==> invoices[k].status.Failed? && invoices[k].sub == 0
  }

  /** After the preparation of an allowed checkout no invoice is open, and none is paid either. */
  lemma {:induction false} PreparedClean(s: State, cancelOld: CancelOutcome)
    requires Inv(s) && s.sub.Some? && (Waiting(s) || Settled(s))
    ensures AllFailed(Prepared(s, cancelOld).invoices)
  {
    var p := Prepared(s, cancelOld);
    forall k | 0 <= k < |p.invoices| ensures p.invoices[k].status.Failed? && p.invoices[k].sub == 0 {
      assert Current(s, s.invoices[k]);
    }
  }

  lemma {:induction false} TryKeeps(s: State, order: Order, f: Faults)
    requires Inv(s) && (Waiting(s) || Settled(s)) && Tame(f)
    ensures Inv(Next(s, order, f))
  {
    NextWellNumbered(s, order, f);
    OrphanIff(s, order, f);
    if ReachesGateway(s, f) {
      PreparedClean(s, f.cancelOld);
      TryInvoices(s, order, f);
    } else {
      StoppedKeeps(s, order, f);
    }
  }

  /** A checkout that stops before the gateway has at most failed the open invoices. */
  lemma {:induction false} StoppedKeeps(s: State, order: Order, f: Faults)
    requires Inv(s) && !ReachesGateway(s, f)
    ensures var t := Next(s, order, f);
      OpenCount(t.invoices) <= 1 &&
      forall k :: 0 <= k < |t.invoices| ==> t.invoices[k].sub == 0 && Current(t, t.invoices[k])
  {
    var t := Next(s, order, f);
    if t.invoices != s.invoices {
      FailOpenNone(s.invoices);
      forall k | 0 <= k < |t.invoices| ensures t.invoices[k].sub == 0 && Current(t, t.invoices[k]) {
        assert Current(s, s.invoices[k]);
      }
    }
  }

  lemma {:induction false} FailedCount(invoices: seq<Invoice>)
    requires AllFailed(invoices)
    ensures OpenCount(invoices) == 0
  {
    NoneOpen(invoices);
  }

  lemma {:induction false} TryInvoices(s: State, order: Order, f: Faults)
    requires WellNumbered(s) && ReachesGateway(s, f) && AllFailed(Prepared(s, f.cancelOld).invoices)
    ensures var t := Next(s, order, f);
      OpenCount(t.invoices) <= 1 &&
      forall k :: 0 <= k < |t.invoices| ==> t.invoices[k].sub == 0 && Current(t, t.invoices[k])
  {
    hide Polled, FirstCharge, FailOpen, Confirmable;
    var p := Prepared(s, f.cancelOld);
    FailedCount(p.invoices);
    if f.create.Created? && Saved(p, f.create.bill, f) {
      var t := Next(s, order, f);
      SavedInvoice(p, order, f);
      assert t.invoices[..|p.invoices|] == p.invoices;
    }
  }

  /** A saved checkout appends one invoice, a bill of the id now stored. */
  lemma {:induction false} SavedInvoice(s: State, order: Order, f: Faults)
    requires s.sub.Some? && f.create.Created? && Saved(s, f.create.bill, f)
    ensures var t := Answered(s, f.create.bill, order, f).0;
      |t.invoices| == |s.invoices| + 1 && t.invoices[..|s.invoices|] == s.invoices &&
      t.invoices[|s.invoices|].sub == 0 && Current(t, t.invoices[|s.invoices|])
  {
    FirstChargeId(s.gateway, f.create.bill.value, f.polls);
  }

  // ---------------------------------------------------------------- deliveries

  /** A delivery that rewrites one invoice in place. */
  lemma {:induction false} RewriteKeeps(s: State, t: State, i: nat, inv: Invoice)
    requires Inv(s) && s.sub.Some? && t.sub.Some? && t.gateway == s.gateway && StoredIds(t) == StoredIds(s)
    requires i < |s.invoices| && t.invoices == s.invoices[i := inv]
    requires inv.charge == s.invoices[i].charge && inv.sub == 0 && Current(t, inv)
    requires !IsOpen(inv) || IsOpen(s.invoices[i])
    requires Waiting(t) ==> Waiting(s)
    ensures Inv(t)
  {
    hide OpenCount;
    if IsOpen(inv) { OpenCountUpdate(s.invoices, i, inv); } else { OpenCountClose(s.invoices, i, inv); }
    forall k | 0 <= k < |t.invoices| ensures t.invoices[k].sub == 0 && Current(t, t.invoices[k]) {
      assert Current(s, s.invoices[k]);
    }
    forall k | 0 <= k < |t.invoices| ensures t.invoices[k].charge in t.gateway.billOf {
      assert s.invoices[k].charge in s.gateway.billOf;
    }
    assert Orphans(t) == Orphans(s);
  }

  lemma {:induction false} CompletionKeeps(s: State, e: W.Event)
    requires Inv(s) && s.sub.Some? && (e.ChargeCreated? || e.PixUpdated?)
    requires W.FindInvoice(s.invoices, e.charge).Some?
    ensures Inv(Heard(s, e))
  {
    hide Inv, OpenCount;
    var t, i := Heard(s, e), W.FindInvoice(s.invoices, e.charge).value;
    if t != s {
      InvAt(s, i);
      assert t.invoices == s.invoices[i := t.invoices[i]];
      RewriteKeeps(s, t, i, t.invoices[i]);
    }
  }

  lemma {:induction false} InvAt(s: State, i: nat)
    requires Inv(s) && i < |s.invoices|
    ensures s.invoices[i].sub == 0 && Current(s, s.invoices[i]) && s.invoices[i].charge in s.gateway.billOf
  {
  }

  lemma {:induction false} PaymentKeeps(s: State, e: W.Event)
    requires Inv(s) && s.sub.Some? && e.ChargePaid?
    ensures Inv(Heard(s, e))
  {
    hide Inv, OpenCount;
    var t, found := Heard(s, e), W.FindInvoice(s.invoices, e.charge);
    if t != s {
      InvAt(s, found.value);
      assert t.invoices == s.invoices[found.value := t.invoices[found.value]];
      RewriteKeeps(s, t, found.value, t.invoices[found.value]);
    }
  }

  lemma {:induction false} FailureKeeps(s: State, e: W.Event)
    requires Inv(s) && s.sub.Some? && e.ChargeFailed?
    ensures Inv(Heard(s, e))
  {
    hide Inv, OpenCount;
    var t, found := Heard(s, e), W.FindInvoice(s.invoices, e.charge);
    if t != s {
      InvAt(s, found.value);
      assert t.invoices == s.invoices[found.value := t.invoices[found.value]];
      RewriteKeeps(s, t, found.value, t.invoices[found.value]);
    }
  }

  lemma {:induction false} CancelKeeps(s: State, e: W.Event)
    requires Inv(s) && s.sub.Some? && e.SubscriptionCanceled?
    ensures Inv(Heard(s, e))
  {
    var t := Heard(s, e);
    forall k | 0 <= k < |t.invoices| ensures t.invoices[k].sub == 0 && Current(t, t.invoices[k]) {
      assert Current(s, s.invoices[k]);
    }
  }

  /** The bill_created of a subscription that is not stored, such as one that is still being created. */
  lemma {:induction false} UnknownBillIgnored(s: State, e: W.Event)
    requires s.sub.Some? && e.ChargeCreated? && W.FindInvoice(s.invoices, e.charge).None?
    requires e.gatewaySub !in StoredIds(s)
    ensures Heard(s, e) == s
  {
    assert W.FindSub(BooksOf(s).subs, e.gatewaySub).None?;
  }

  lemma {:induction false} HearKeeps(s: State, e: W.Event)
    requires Inv(s) && Allowed(s, Hear(e))
    ensures Inv(Heard(s, e))
  {
    hide Inv;
    if s.sub.Some? {
      match e {
        case Ignored =>
        case ChargeCreated(_, charge, _, _, _, _) =>
          if W.FindInvoice(s.invoices, charge).Some? { CompletionKeeps(s, e); } else { UnknownBillIgnored(s, e); }
        case PixUpdated(charge, _, _) => if W.FindInvoice(s.invoices, charge).Some? { CompletionKeeps(s, e); }
        case ChargePaid(_, _) => PaymentKeeps(s, e);
        case ChargeFailed(_) => FailureKeeps(s, e);
        case SubscriptionCanceled(_) => CancelKeeps(s, e);
      }
    }
  }

  /** A late failure or cancellation of a bill changes something exactly when its invoice is not failed yet;
      for a bill of a replaced subscription that means exactly when the bill was paid all the same. */
  lemma {:induction false} LateFailureIff(s: State, charge: nat)
    requires Inv(s) && s.sub.Some?
    ensures var found := W.FindInvoice(s.invoices, charge);
      && (Heard(s, W.ChargeFailed(charge)) != s <==> found.Some? && !s.invoices[found.value].status.Failed?)
      && (Heard(s, W.ChargeFailed(charge)) != s ==> charge in s.gateway.billOf)
      && (Replaced(s, charge) ==> (Heard(s, W.ChargeFailed(charge)) != s <==> PaidBill(s, charge)))
  {
    hide OpenCount;
    var found := W.FindInvoice(s.invoices, charge);
    if found.Some? {
      InvAt(s, found.value);
      if !s.invoices[found.value].status.Failed? {
        assert Heard(s, W.ChargeFailed(charge)).invoices[found.value] != s.invoices[found.value];
      }
    }
  }

  /** So the charge.failed of a replaced bill nobody paid changes nothing: no invoice, no status, no audit. */
  lemma {:induction false} LateCancelIgnored(s: State, charge: nat)
    requires Inv(s) && s.sub.Some? && Replaced(s, charge) && !PaidBill(s, charge)
    ensures match W.Deliver(BooksOf(s), map[], W.ChargeFailed(charge))
      case Ok(b) => b == BooksOf(s)
      case Err(e) => e == W.NoMatch && forall k :: 0 <= k < |s.invoices| ==> s.invoices[k].charge != charge
  {
    var found := W.FindInvoice(s.invoices, charge);
    if found.Some? {
      assert Current(s, s.invoices[found.value]);
    }
  }

  /** A late cancellation of a gateway subscription changes the row exactly when the row still stores its id
      and is not canceled yet. */
  lemma {:induction false} LateCancellationIff(s: State, id: nat)
    requires s.sub.Some?
    ensures Heard(s, W.SubscriptionCanceled(id)) != s <==> id in StoredIds(s) && !s.sub.value.status.Canceled?
  {
  }

  /**
   * Over any run of such checkouts: at most the stored subscription is live at the gateway and at most
   * one invoice is open, after every step.
   */
  lemma {:induction false} RunStaysTidy(s: State, steps: seq<Step>)
    requires Inv(s) && AllowedRun(s, steps)
    ensures Inv(RunOf(s, steps))
    decreases |steps|
  {
    if steps != [] {
      hide Inv, AllowedRun, Allowed, StepFrom;
      var n := |steps| - 1;
      AllowedBefore(s, steps);
      RunStaysTidy(s, steps[..n]);
      StepStaysTidy(RunOf(s, steps[..n]), steps[n]);
    }
  }

  lemma {:induction false} AllowedBefore(s: State, steps: seq<Step>)
    requires steps != [] && AllowedRun(s, steps)
    ensures var n := |steps| - 1; AllowedRun(s, steps[..n]) && Allowed(RunOf(s, steps[..n]), steps[n])
  {
    hide Allowed, RunOf;
    var n := |steps| - 1;
    forall k | 0 <= k < n ensures Allowed(RunOf(s, steps[..n][..k]), steps[..n][k]) {
      assert steps[..n][..k] == steps[..k];
    }
  }

  lemma {:induction false} StepStaysTidy(s: State, step: Step)
    requires Inv(s) && Allowed(s, step)
    ensures Inv(StepFrom(s, step))
  {
    hide Inv, Next, Heard;
    match step {
      case Try(a) => TryKeeps(s, a.order, a.faults);
      case Hear(e) => HearKeeps(s, e);
    }
  }

  /**
   * From signup on and wherever the run stands: only the stored subscription is live, at most one invoice is
   * open, a late failure of a replaced subscription's bill touches the tenant exactly if that bill was paid, and
   * a late subscription_canceled exactly if the row still stores that id and is not canceled yet.
   */
  lemma {:induction false} CheckoutsStayTidy(s: State, steps: seq<Step>, charge: nat, id: nat)
    requires Fresh(s) && AllowedRun(s, steps)
    ensures var t := RunOf(s, steps);
      && t.gateway.live <= StoredIds(t)
      && OpenCount(t.invoices) <= 1
      && (t.sub.Some? ==>
            && (Heard(t, W.ChargeFailed(charge)) != t ==> charge in t.gateway.billOf)
            && (Replaced(t, charge) ==> (Heard(t, W.ChargeFailed(charge)) != t <==> PaidBill(t, charge)))
            && (Heard(t, W.SubscriptionCanceled(id)) != t <==> id in StoredIds(t) && !t.sub.value.status.Canceled?))
  {
    hide OpenCount, RunOf, Heard, AllowedRun;
    FreshInv(s);
    RunStaysTidy(s, steps);
    var t := RunOf(s, steps);
    NoOrphanMeans(t);
    if t.sub.Some? {
      LateFailureIff(t, charge);
      LateCancellationIff(t, id);
    }
  }

  lemma {:induction false} FreshInv(s: State)
    requires Fresh(s)
    ensures Inv(s)
  {
    assert Orphans(s) == {};
  }

  /**
   * A retry that cancels the stored subscription and then saves no new one leaves its id on the row. The
   * failures of its bills are no-ops by then, but the subscription_canceled of that same cancellation turns a
   * tenant that never paid, and was blocked, into a canceled one, which is not blocked.
   */
  lemma {:induction false} FailedRetryUnblocks(s: State, order: Order, f: Faults, charge: nat, now: int)
    requires Inv(s) && Tame(f) && ReachesGateway(s, f) && Retry(s.sub.value)
    requires Next(s, order, f).sub == s.sub
    ensures var t := Next(s, order, f);
      var u := Heard(t, W.SubscriptionCanceled(s.sub.value.gatewayId.value));
      && t.gateway.live == {} && Settled(t)
      && Heard(t, W.ChargeFailed(charge)) == t
      && T.Blocked(t.sub, now)
      && u.sub == Some(s.sub.value.(status := Canceled)) && !T.Blocked(u.sub, now)
  {
    hide OpenCount, Heard, Next, Prepared, W.Deliver, W.FindInvoice, FailOpen;
    var t := Next(s, order, f);
    TryKeeps(s, order, f);
    PreparedClean(s, f.cancelOld);
    FailedRetryGateway(s, order, f);
    LateFailureIff(t, charge);
    AllFailedLate(t, charge);
    HeardCancellation(t, s.sub.value.gatewayId.value);
  }

  lemma {:induction false} AllFailedLate(s: State, charge: nat)
    requires Settled(s)
    ensures var found := W.FindInvoice(s.invoices, charge);
            found.Some? ==> s.invoices[found.value].status.Failed?
  {
  }

  lemma {:induction false} HeardCancellation(s: State, id: nat)
    requires s.sub.Some? && s.sub.value.gatewayId == Some(id) && !s.sub.value.status.Canceled?
    ensures Heard(s, W.SubscriptionCanceled(id)).sub == Some(s.sub.value.(status := Canceled))
  {
  }

  lemma {:induction false} FailedRetryGateway(s: State, order: Order, f: Faults)
    requires Inv(s) && Tame(f) && ReachesGateway(s, f) && Retry(s.sub.value) && Next(s, order, f).sub == s.sub
    ensures Next(s, order, f).gateway.live == {}
    ensures Next(s, order, f).invoices == Prepared(s, f.cancelOld).invoices
  {
    hide Inv, FirstCharge, Confirmable, FailOpen;
    var p := Prepared(s, f.cancelOld);
    RetryGateway(s, f);
    if f.create.Created? { AnsweredGateway(p, f.create.bill, order, f); }
  }

  lemma {:induction false} RetryGateway(s: State, f: Faults)
    requires Inv(s) && Tame(f) && s.sub.Some? && Retry(s.sub.value)
    ensures Prepared(s, f.cancelOld).gateway.live == {} && s.sub.value.gatewayId.value < s.gateway.next
    ensures Prepared(s, f.cancelOld).gateway.next == s.gateway.next
  {
    hide OpenCount;
    NoOrphanMeans(s);
  }
}
