/**
 * Monthly charges (services/app/src/modules/billing/monthly-charge.ts): one attempt as a whole, then any
 * number of cron and checkout attempts racing for the same tenant.
 */
module MonthlyCharge {
  import opened Prelude
  import opened Billing

  /** Milliseconds; toISOString().slice(0, 10) is the day number. */
  const DAY: int := 86_400_000

  function DayOf(t: int): int { t / DAY }

  /** The idempotency key of a subscription's billing cycle: the day its current period ends. */
  datatype Key = Initial | OnDay(day: int)

  function KeyOf(periodEnd: Option<int>): Key {
    match periodEnd case None => Initial case Some(t) => OnDay(DayOf(t))
  }

  /** The subscription columns this function reads; it alone writes the period. */
  datatype Plan = Plan(status: SubStatus, trialEndsAt: Option<int>, periodStart: Option<int>, periodEnd: Option<int>)

  /** A generated invoice, with the key and the moment its attempt read the row. */
  datatype Charge = Charge(id: nat, key: Key, readAt: int, start: int, end: int)

  /** charges is what a gateway that honours idempotency keys holds. */
  datatype Core = Core(plan: Plan, invoices: seq<Charge>, charges: map<Key, nat>, next: nat)

  /** The order call fails, is made but not heard, or is answered with or without the Pix code. */
  datatype Outcome = NotMade | MadeUnheard | Incomplete | Answered

  /** What one attempt meets besides the row: setting, data, gateway, clock readings and the end of its transaction. */
  datatype Attempt = Attempt(pixBoleto: bool, recurring: bool, planFound: bool, hasTaxId: bool, readAt: int,
                             outcome: Outcome, persistAt: int, persist: PersistOutcome)

  // ---------------------------------------------------------------- one attempt

  predicate Billable(p: Plan, now: int) {
    (p.status.Active? || p.status.Trialing? || p.status.PendingPayment?) &&
    !(p.status.Trialing? && p.trialEndsAt.Some? && p.trialEndsAt.value > now)
  }

  predicate Due(p: Plan, now: int) { p.periodEnd.None? || p.periodEnd.value <= now }

  predicate Proceeds(p: Plan, a: Attempt, now: int) {
    a.pixBoleto && !a.recurring && Billable(p, now) && Due(p, now) && a.planFound
  }

  /** createOneOffCharge under a key: the charge already made for it, or a new one. */
  function Ordered(c: Core, key: Key): Core {
    if key in c.charges then c else c.(charges := c.charges[key := c.next], next := c.next + 1)
  }

  function Saved(c: Core, charge: Charge): Core {
    c.(invoices := c.invoices + [charge],
       plan := c.plan.(periodStart := Some(charge.start), periodEnd := Some(charge.end)))
  }

  /** generateChargeForTenant: true when a charge was generated, Err when it threw, which it does when it was
      rolled back and when its commit went unheard. */
  function Generate(c: Core, month: int -> int, a: Attempt): (Core, Result<bool, ()>) {
    var key := KeyOf(c.plan.periodEnd);
    if !Proceeds(c.plan, a, a.readAt) then (c, Ok(false))
    else if !a.hasTaxId || a.outcome.NotMade? then (c, Err(()))
    else
      var ordered := Ordered(c, key);
      if !a.outcome.Answered? || a.persist.RolledBack? then (ordered, Err(()))
      else
        (Saved(ordered, Charge(ordered.charges[key], key, a.readAt, a.persistAt, month(a.persistAt))),
         if a.persist.Committed? then Ok(true) else Err(()))
  }

  function Counted(cores: map<nat, Core>, month: int -> int, attempts: map<nat, Attempt>, ids: seq<nat>,
                   r: Result<bool, ()>): nat
  {
    if ids == [] then 0
    else
      var t := ids[|ids| - 1];
      Counted(cores, month, attempts, ids[..|ids| - 1], r) +
      if t in cores && t in attempts && Generate(cores[t], month, attempts[t]).1 == r then 1 else 0
  }

  class Biller {
    var cores: map<nat, Core>
    const month: int -> int

    constructor (cores: map<nat, Core>, month: int -> int)
      ensures this.cores == cores && this.month == month
    {
      this.cores := cores;
      this.month := month;
    }

    method CreateOneOffCharge(tenant: nat, key: Key) returns (id: nat)
      requires tenant in cores
      modifies this
      ensures cores == old(cores)[tenant := Ordered(old(cores)[tenant], key)]
      ensures key in cores[tenant].charges && id == cores[tenant].charges[key]
    {
      var c := cores[tenant];
      if key !in c.charges {
        c := c.(charges := c.charges[key := c.next], next := c.next + 1);
      }
      cores := cores[tenant := c];
      id := c.charges[key];
    }

    method GenerateChargeForTenant(tenant: nat, a: Attempt) returns (r: Result<bool, ()>)
      requires tenant in cores
      modifies this
      ensures r == Generate(old(cores)[tenant], month, a).1
      ensures cores == old(cores)[tenant := Generate(old(cores)[tenant], month, a).0]
      ensures r == Ok(true) <==>
        var p := old(cores)[tenant].plan;
        && a.pixBoleto && !a.recurring && a.planFound && a.hasTaxId
        && (p.status.Active? || p.status.PendingPayment? ||
            (p.status.Trialing? && (p.trialEndsAt.None? || p.trialEndsAt.value <= a.readAt)))
        && (p.periodEnd.None? || p.periodEnd.value <= a.readAt)
        && a.outcome.Answered? && a.persist.Committed?
      ensures r == Ok(true) ==>
        && cores[tenant].plan.periodStart == Some(a.persistAt)
        && cores[tenant].plan.periodEnd == Some(month(a.persistAt))
        && |cores[tenant].invoices| == |old(cores)[tenant].invoices| + 1
    {
      var plan := cores[tenant].plan;
      assert cores == cores[tenant := cores[tenant]];
      if !a.pixBoleto || a.recurring {
        return Ok(false);
      }
      if plan.status == PastDue || plan.status == Canceled {
        return Ok(false);
      }
      if plan.status == Trialing && plan.trialEndsAt.Some? && plan.trialEndsAt.value > a.readAt {
        return Ok(false);
      }
      var due := plan.periodEnd.None? || plan.periodEnd.value <= a.readAt;
      if !due || !a.planFound {
        return Ok(false);
      }
      if !a.hasTaxId || a.outcome == NotMade {
        return Err(());
      }
      var key := KeyOf(plan.periodEnd);
      var id := CreateOneOffCharge(tenant, key);
      if a.outcome != Answered || a.persist == RolledBack {
        return Err(());
      }
      var c := cores[tenant];
      var periodEnd := month(a.persistAt);
      cores := cores[tenant := c.(
        invoices := c.invoices + [Charge(id, key, a.readAt, a.persistAt, periodEnd)],
        plan := c.plan.(periodStart := Some(a.persistAt), periodEnd := Some(periodEnd)))];
      r := if a.persist == Committed then Ok(true) else Err(());
    }

    /** Every tenant gets its own attempt and its own outcome, whatever happened to the ones before it. */
    method GenerateMonthlyCharges(ids: seq<nat>, attempts: map<nat, Attempt>)
      returns (generated: nat, skipped: nat, failed: nat)
      requires forall j, k :: 0 <= j < k < |ids| ==> ids[j] != ids[k]
      requires forall k :: 0 <= k < |ids| ==> ids[k] in cores && ids[k] in attempts
      modifies this
      ensures cores.Keys == old(cores).Keys
      ensures forall t :: t in cores ==>
        cores[t] == if t in ids then Generate(old(cores)[t], month, attempts[t]).0 else old(cores)[t]
      ensures generated == Counted(old(cores), month, attempts, ids, Ok(true))
      ensures skipped == Counted(old(cores), month, attempts, ids, Ok(false))
      ensures failed == Counted(old(cores), month, attempts, ids, Err(()))
    {
      hide Generate;
      generated, skipped, failed := 0, 0, 0;
      var k := 0;
      while k < |ids|
        invariant 0 <= k <= |ids| && cores.Keys == old(cores).Keys
        invariant forall t :: t in cores ==>
          cores[t] == if t in ids[..k] then Generate(old(cores)[t], month, attempts[t]).0 else old(cores)[t]
        invariant generated == Counted(old(cores), month, attempts, ids[..k], Ok(true))
        invariant skipped == Counted(old(cores), month, attempts, ids[..k], Ok(false))
        invariant failed == Counted(old(cores), month, attempts, ids[..k], Err(()))
      {
        assert ids[..k + 1][..k] == ids[..k] && ids[k] !in ids[..k];
        var r := GenerateChargeForTenant(ids[k], attempts[ids[k]]);
        match r {
          case Ok(did) =>
            if did {
              generated := generated + 1;
            } else {
              skipped := skipped + 1;
            }
          case Err(e) =>
            assert e == ();
            failed := failed + 1;
        }
        k := k + 1;
      }
      assert ids[..k] == ids;
    }
  }

  // ---------------------------------------------------------------- racing attempts

  /** How far an attempt's transaction has come. */
  datatype Stage =
    | Locked
    | Reading(key: Key, readAt: int)
    | Paying(charge: nat, key: Key, readAt: int)
    | Written(invoice: Charge)

  datatype World = World(now: int, core: Core, holder: Option<nat>, stages: map<nat, Stage>)

  datatype Event =
    | Tick(time: int)
    | Acquire(who: nat)
    | Read(who: nat, given: Attempt)
    | Order(who: nat, outcome: Outcome)
    | Write(who: nat)
    | Commit(who: nat)
    | Rollback(who: nat)
    | StatusChange(status: SubStatus, trialEndsAt: Option<int>)

  /** The lock is waited for until it is free; status changes by others take no lock. */
  predicate Enabled(w: World, e: Event) {
    match e
    case Tick(t) => w.now <= t
    case Acquire(who) => w.holder.None? && who !in w.stages
    case Read(who, _) => who in w.stages && w.stages[who].Locked?
    case Order(who, _) => who in w.stages && w.stages[who].Reading?
    case Write(who) => who in w.stages && w.stages[who].Paying?
    case Commit(who) => who in w.stages && w.stages[who].Written?
    case Rollback(who) => who in w.stages
    case StatusChange(_, _) => true
  }

  /** The end of who's transaction, which releases its lock. */
  function Left(w: World, who: nat): World {
    w.(holder := if w.holder == Some(who) then None else w.holder, stages := w.stages - {who})
  }

  function Next(w: World, month: int -> int, e: Event): World
    requires Enabled(w, e)
  {
    match e
    case Tick(t) => w.(now := t)
    case Acquire(who) => w.(holder := Some(who), stages := w.stages[who := Locked])
    case Read(who, a) =>
      if !Proceeds(w.core.plan, a, w.now) || !a.hasTaxId then Left(w, who)
      else w.(stages := w.stages[who := Reading(KeyOf(w.core.plan.periodEnd), w.now)])
    case Order(who, outcome) =>
      (var s := w.stages[who];
       var v := if outcome.NotMade? then w else w.(core := Ordered(w.core, s.key));
       if outcome.Answered? then v.(stages := v.stages[who := Paying(v.core.charges[s.key], s.key, s.readAt)])
       else Left(v, who))
    case Write(who) =>
      (var s := w.stages[who];
       w.(stages := w.stages[who := Written(Charge(s.charge, s.key, s.readAt, w.now, month(w.now)))]))
    case Commit(who) => Left(w.(core := Saved(w.core, w.stages[who].invoice)), who)
    case Rollback(who) => Left(w, who)
    case StatusChange(status, trialEndsAt) =>
      w.(core := w.core.(plan := w.core.plan.(status := status, trialEndsAt := trialEndsAt)))
  }

  predicate Possible(w: World, month: int -> int, es: seq<Event>)
    decreases |es|
  {
    es == [] || (Enabled(w, es[0]) && Possible(Next(w, month, es[0]), month, es[1..]))
  }

  function Run(w: World, month: int -> int, es: seq<Event>): World
    requires Possible(w, month, es)
    decreases |es|
  {
    if es == [] then w else Run(Next(w, month, es[0]), month, es[1..])
  }
}
