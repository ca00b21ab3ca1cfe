/**
 * Who may use the system while unpaid (services/app/src/modules/auth/rbac.ts:26-48), under everything
 * the billing code may do to a tenant on trial at the same time.
 */
module TrialAccess {
  import opened Prelude
  import opened Billing
  import PixCheckout
  import W = Webhook
  import L = WebhookLaws
  import M = MonthlyCharge

  // ---------------------------------------------------------------- the access check

  /** The answer of isSubscriptionBlocked; a tenant without a subscription is not blocked. */
  predicate Blocked(sub: Option<Sub>, now: int) {
    sub.Some? &&
    match sub.value.status
    case PendingPayment => true
    case Trialing => sub.value.trialEndsAt.None? || sub.value.trialEndsAt.value <= now
    case _ => false
  }

  predicate Expired(sub: Sub, now: int) {
    sub.status.Trialing? && sub.trialEndsAt.Some? && sub.trialEndsAt.value <= now
  }

  /** What the check writes over `row` after it has read `read`: nothing locks the row between the two. */
  function Rewritten(read: Sub, now: int, row: Sub): Sub {
    if Expired(read, now) then row.(status := PendingPayment, trialEndsAt := None) else row
  }

  /** The row after the check: an expired trial has been rewritten. */
  function Checked(sub: Sub, now: int): Sub { Rewritten(sub, now, sub) }

  class Access {
    var sub: Option<Sub>

    constructor (sub: Option<Sub>)
      ensures this.sub == sub
    {
      this.sub := sub;
    }

    method IsSubscriptionBlocked(now: int) returns (r: bool)
      modifies this
      ensures r == Blocked(old(sub), now)
      ensures sub == if old(sub).None? then None else Some(Checked(old(sub).value, now))
      ensures Blocked(sub, now) == r
      ensures r <==> (
        old(sub).Some? && var row := old(sub).value;
        row.status.PendingPayment? || (row.status.Trialing? && (row.trialEndsAt.None? || row.trialEndsAt.value <= now)))
      ensures sub == old(sub) ||
              (old(sub).Some? && old(sub).value.status.Trialing? && old(sub).value.trialEndsAt.Some? &&
               old(sub).value.trialEndsAt.value <= now &&
               sub == Some(old(sub).value.(status := PendingPayment, trialEndsAt := None)))
    {
      if sub.None? {
        return false;
      }
      var row := sub.value;
      if row.status == Trialing && row.trialEndsAt.Some? {
        if row.trialEndsAt.value > now {
          return false;
        }
        sub := Some(row.(status := PendingPayment, trialEndsAt := None));
        return true;
      }
      r := row.status == PendingPayment || row.status == Trialing;
    }
  }

  // ---------------------------------------------------------------- a tenant on trial

  /** snapshots holds the row each checkout under way read before it called the gateway. */
  datatype World = World(now: int, sub: Sub, invoices: seq<Invoice>, core: M.Core, snapshots: map<nat, Sub>)

  /** Everything but payments, failures, cancellations and admin actions. */
  datatype Event =
    | Tick(time: int)
    | Begin(checkout: nat)
    | FailOpenInvoices
    | Finish(checkout: nat, planId: nat, gatewayId: nat, invoice: Option<Invoice>)
    | ChoosePix(planId: nat)
    | ChangePlan(planId: nat)
    | Cron(attempt: M.Attempt)
    | Hear(event: W.Event)
    | Check

  predicate Enabled(w: World, e: Event) {
    match e
    case Tick(t) => w.now <= t
    case Finish(id, _, _, _) => id in w.snapshots
    case Hear(event) => event.Ignored? || event.ChargeCreated? || event.PixUpdated?
    case _ => true
  }

  /** The row and the core as the monthly charge sees them. */
  function CoreOf(w: World): M.Core {
    w.core.(plan := w.core.plan.(status := w.sub.status, trialEndsAt := w.sub.trialEndsAt))
  }

  function Next(w: World, month: int -> int, plans: map<nat, int>, e: Event): World
    requires Enabled(w, e)
  {
    match e
    case Tick(t) => w.(now := t)
    case Begin(id) => w.(snapshots := w.snapshots[id := w.sub])
    case FailOpenInvoices => w.(invoices := PixCheckout.FailOpen(w.invoices))
    case Finish(id, planId, gatewayId, invoice) =>
      w.(sub := w.sub.(planId := planId, gatewayId := Some(gatewayId),
                 status := StatusUntilPaid(w.snapshots[id], w.now)),
         invoices := w.invoices + (if invoice.Some? then [invoice.value] else []),
         snapshots := w.snapshots - {id})
    case ChoosePix(planId) => w.(sub := w.sub.(planId := planId, status := StatusUntilPaid(w.sub, w.now)))
    case ChangePlan(planId) => w.(sub := w.sub.(planId := planId))
    case Cron(a) =>
      (var core := M.Generate(CoreOf(w), month, a.(readAt := w.now)).0;
       w.(core := core, sub := w.sub.(status := core.plan.status, trialEndsAt := core.plan.trialEndsAt)))
    case Hear(event) =>
      (match W.Deliver(W.Books([w.sub], w.invoices, []), plans, event)
       case Ok(b) => if |b.subs| == 1 then w.(sub := b.subs[0], invoices := b.invoices) else w
       case Err(_) => w)
    case Check => w.(sub := Checked(w.sub, w.now))
  }

  predicate Possible(w: World, month: int -> int, plans: map<nat, int>, es: seq<Event>)
    decreases |es|
  {
    es == [] || (Enabled(w, es[0]) && Possible(Next(w, month, plans, es[0]), month, plans, es[1..]))
  }

  function Run(w: World, month: int -> int, plans: map<nat, int>, es: seq<Event>): World
    requires Possible(w, month, plans, es)
    decreases |es|
  {
    if es == [] then w else Run(Next(w, month, plans, es[0]), month, plans, es[1..])
  }

  /** A row seen at or before now: still on the trial that ends at `end`, or past it and waiting. */
  predicate OnTrial(sub: Sub, end: int, now: int) {
    (sub.status.Trialing? && sub.trialEndsAt == Some(end)) || (sub.status.PendingPayment? && end <= now)
  }

  predicate Inv(w: World, end: int) {
    OnTrial(w.sub, end, w.now) && forall id :: id in w.snapshots ==> OnTrial(w.snapshots[id], end, w.now)
  }

  /** The monthly charge never writes status or trial. */
  lemma {:induction false} CronKeepsAccess(c: M.Core, month: int -> int, a: M.Attempt)
    ensures M.Generate(c, month, a).0.plan.status == c.plan.status
    ensures M.Generate(c, month, a).0.plan.trialEndsAt == c.plan.trialEndsAt
  {
  }

  lemma {:induction false} StepKeeps(w: World, month: int -> int, plans: map<nat, int>, e: Event, end: int)
    requires Inv(w, end) && Enabled(w, e)
    ensures Inv(Next(w, month, plans, e), end)
  {
    if e.Cron? {
      CronKeepsAccess(CoreOf(w), month, e.attempt.(readAt := w.now));
    }
  }

  lemma {:induction false} RunKeeps(w: World, month: int -> int, plans: map<nat, int>, es: seq<Event>, end: int)
    requires Inv(w, end) && Possible(w, month, plans, es)
    ensures Inv(Run(w, month, plans, es), end)
    decreases |es|
  {
    if es != [] {
      StepKeeps(w, month, plans, es[0], end);
      RunKeeps(Next(w, month, plans, es[0]), month, plans, es[1..], end);
    }
  }

  /**
   * However checkouts with stale snapshots, cron runs, plan changes, new bills, late QR codes and access
   * checks interleave, the tenant is blocked exactly from the end of the trial on: no checkout cuts the
   * trial short and none extends it.
   */
  lemma {:induction false} TrialAccessExact(w: World, month: int -> int, plans: map<nat, int>, es: seq<Event>, end: int)
    requires w.sub.status.Trialing? && w.sub.trialEndsAt == Some(end) && w.snapshots == map[]
    requires Possible(w, month, plans, es)
    ensures var v := Run(w, month, plans, es); Blocked(Some(v.sub), v.now) <==> end <= v.now
  {
    RunKeeps(w, month, plans, es, end);
  }

  // ---------------------------------------------------------------- what opens access

  /** What ends the blocking of subscription i: the three deliveries that decide its status. */
  predicate Opens(b: W.Books, e: W.Event, i: nat) { L.Decides(b, e, i) }

  /** Paid, past due or canceled: none of these is blocked, and deliveries lead only to these. */
  predicate Open(sub: Sub) { sub.status.Active? || sub.status.PastDue? || sub.status.Canceled? }

  lemma {:induction false} DeliverySetsOpen(b: W.Books, plans: map<nat, int>, e: W.Event, i: nat)
    requires i < |b.subs|
    ensures var c := L.After(b, plans, e);
      && i < |c.subs|
      && (c.subs[i] == b.subs[i] || Open(c.subs[i]))
      && (Opens(b, e, i) ==> Open(c.subs[i]))
      && (!Opens(b, e, i) ==> c.subs[i].status == b.subs[i].status || Open(b.subs[i]))
  {
    hide W.FindInvoice, W.FindSub, W.EventTaken;
  }

  /** One delivery ends the blocking of a subscription in exactly these three cases; only the first of them
      is a payment. */
  lemma {:induction false} UnblockedIff(b: W.Books, plans: map<nat, int>, e: W.Event, i: nat, now: int)
    requires i < |b.subs| && Blocked(Some(b.subs[i]), now)
    ensures i < |L.After(b, plans, e).subs|
    ensures !Blocked(Some(L.After(b, plans, e).subs[i]), now) <==> Opens(b, e, i)
  {
    hide L.After, Opens;
    DeliverySetsOpen(b, plans, e, i);
  }

  predicate NeverOpened(b: W.Books, plans: map<nat, int>, es: seq<W.Event>, i: nat) {
    forall k :: 0 <= k < |es| ==> !Opens(L.Run(b, plans, es[..k]), es[k], i)
  }

  /** Over any run of deliveries a blocked tenant is still blocked exactly when none of them opened access. */
  lemma {:induction false} BlockedUntilOpened(b: W.Books, plans: map<nat, int>, es: seq<W.Event>, i: nat, now: int)
    requires i < |b.subs| && Blocked(Some(b.subs[i]), now)
    ensures i < |L.Run(b, plans, es).subs|
    ensures Blocked(Some(L.Run(b, plans, es).subs[i]), now) <==> NeverOpened(b, plans, es, i)
    ensures Blocked(Some(L.Run(b, plans, es).subs[i]), now) || Open(L.Run(b, plans, es).subs[i])
    decreases |es|
  {
    hide L.After, Opens;
    if es != [] {
      var n := |es| - 1;
      var before := L.Run(b, plans, es[..n]);
      BlockedUntilOpened(b, plans, es[..n], i, now);
      DeliverySetsOpen(before, plans, es[n], i);
      NeverOpenedSplit(b, plans, es, i);
      if Blocked(Some(before.subs[i]), now) { UnblockedIff(before, plans, es[n], i, now); }
    }
  }

  lemma {:induction false} NeverOpenedSplit(b: W.Books, plans: map<nat, int>, es: seq<W.Event>, i: nat)
    requires es != []
    ensures NeverOpened(b, plans, es, i) <==>
            NeverOpened(b, plans, es[..|es| - 1], i) && !Opens(L.Run(b, plans, es[..|es| - 1]), es[|es| - 1], i)
  {
    hide L.Run, Opens;
    var n := |es| - 1;
    if NeverOpened(b, plans, es[..n], i) && !Opens(L.Run(b, plans, es[..n]), es[n], i) {
      forall k | 0 <= k < |es| ensures !Opens(L.Run(b, plans, es[..k]), es[k], i) {
        if k < n {
          assert !Opens(L.Run(b, plans, es[..n][..k]), es[..n][k], i);
          assert es[..n][..k] == es[..k];
        }
      }
    }
    if NeverOpened(b, plans, es, i) {
      forall k | 0 <= k < n ensures !Opens(L.Run(b, plans, es[..n][..k]), es[..n][k], i) {
        assert es[..n][..k] == es[..k];
      }
    }
  }

  /** When deliveries open access between the read and the write of a check, the check blocks the tenant again
      exactly if the row it read was an expired trial: a payment can be undone this way. */
  lemma {:induction false} CheckRaceIff(b: W.Books, plans: map<nat, int>, es: seq<W.Event>, i: nat, now: int)
    requires i < |b.subs| && Blocked(Some(b.subs[i]), now) && !NeverOpened(b, plans, es, i)
    ensures i < |L.Run(b, plans, es).subs|
    ensures var row := L.Run(b, plans, es).subs[i];
            && !Blocked(Some(row), now)
            && (Blocked(Some(Rewritten(b.subs[i], now, row)), now) <==> Expired(b.subs[i], now))
  {
    hide L.Run, NeverOpened;
    BlockedUntilOpened(b, plans, es, i, now);
  }
}
