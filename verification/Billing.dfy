/** Rows shared by the billing modules (libs/shared/prisma/schema.prisma, models Subscription and Invoice). */
module Billing {
  import opened Prelude

  datatype SubStatus = Trialing | PendingPayment | Active | PastDue | Canceled

  datatype Sub = Sub(status: SubStatus, trialEndsAt: Option<int>, gatewayId: Option<nat>, planId: nat)

  datatype InvoiceStatus = Pending | Overdue | Paid | Failed

  /** One invoice of subscription row sub; charge is gateway_charge_id, event is gateway_event_id. */
  datatype Invoice = Invoice(sub: nat, charge: nat, amountCents: int, status: InvoiceStatus, qr: Option<string>,
                             url: Option<string>, event: Option<string>)

  /** A local transaction commits, rolls back, or commits while its caller is told it failed. */
  datatype PersistOutcome = Committed | RolledBack | CommittedUnheard

  predicate IsOpen(inv: Invoice) { inv.status.Pending? || inv.status.Overdue? }

  /** statusUntilPaid: a running trial keeps its access until the first payment. */
  function StatusUntilPaid(sub: Sub, now: int): SubStatus {
    if sub.status.Trialing? && sub.trialEndsAt.Some? && sub.trialEndsAt.value > now then Trialing else PendingPayment
  }
}
