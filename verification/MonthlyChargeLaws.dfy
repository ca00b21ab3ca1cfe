/** Billing cycles under racing attempts: periods, invoices, idempotency keys and gateway charges. */
module MonthlyChargeLaws {
  import opened Prelude
  import opened Billing
  import opened MonthlyCharge

  /** Adding a month moves forward by at least one whole day. */
  ghost predicate Advances(month: int -> int) { forall t :: month(t) >= t + DAY }

  /** When the period before the k-th generated invoice ended; e0 is what the row held at first. */
  function EndBefore(invoices: seq<Charge>, e0: Option<int>, k: nat): Option<int>
    requires k <= |invoices|
  {
    if k == 0 then e0 else Some(invoices[k - 1].end)
  }

  predicate Linked(c: Core, e0: Option<int>, k: nat)
    requires k < |c.invoices|
  {
    var inv := c.invoices[k];
    var before := EndBefore(c.invoices, e0, k);
    inv.key == KeyOf(before) && (before.Some? ==> before.value <= inv.readAt) &&
    inv.readAt <= inv.start && inv.start + DAY <= inv.end &&
    inv.key in c.charges && c.charges[inv.key] == inv.id
  }

  predicate Invoiced(c: Core, key: Key) { exists k :: 0 <= k < |c.invoices| && c.invoices[k].key == key }

  /** The cycle a due attempt would bill now. */
  function CurrentKey(c: Core): Key { KeyOf(c.plan.periodEnd) }

  predicate ChargesSound(c: Core) {
    (forall key :: key in c.charges ==> key == CurrentKey(c) || Invoiced(c, key)) &&
    (forall key :: key in c.charges ==> c.charges[key] < c.next) &&
    (forall k1, k2 :: k1 in c.charges && k2 in c.charges && c.charges[k1] == c.charges[k2] ==> k1 == k2)
  }

  predicate CoreOk(c: Core, e0: Option<int>) {
    c.plan.periodEnd == EndBefore(c.invoices, e0, |c.invoices|) &&
    (c.invoices != [] ==> c.plan.periodStart == Some(c.invoices[|c.invoices| - 1].start)) &&
    (forall k :: 0 <= k < |c.invoices| ==> Linked(c, e0, k)) &&
    ChargesSound(c)
  }

  predicate DueAt(c: Core, key: Key, readAt: int) {
    key == CurrentKey(c) && (c.plan.periodEnd.Some? ==> c.plan.periodEnd.value <= readAt)
  }

  predicate StageOk(w: World, s: Stage) {
    match s
    case Locked => true
    case Reading(key, readAt) => DueAt(w.core, key, readAt) && readAt <= w.now
    case Paying(charge, key, readAt) =>
      DueAt(w.core, key, readAt) && readAt <= w.now && key in w.core.charges && w.core.charges[key] == charge
    case Written(inv) =>
      DueAt(w.core, inv.key, inv.readAt) && inv.readAt <= inv.start <= w.now && inv.start + DAY <= inv.end &&
      inv.key in w.core.charges && w.core.charges[inv.key] == inv.id
  }

  /** Only the lock holder has a transaction under way. */
  predicate Exclusive(w: World) {
    (forall a :: a in w.stages ==> w.holder == Some(a)) && (w.holder.Some? ==> w.holder.value in w.stages)
  }

  predicate Inv(w: World, e0: Option<int>) {
    Exclusive(w) && CoreOk(w.core, e0) && (forall a :: a in w.stages ==> StageOk(w, w.stages[a]))
  }

  /** No attempt under way and nothing generated yet, whatever period the row holds. */
  predicate Start(w: World) {
    w.holder.None? && w.stages == map[] && w.core.invoices == [] && w.core.charges == map[]
  }

  // ---------------------------------------------------------------- steps on the rows

  lemma {:induction false} OrderedOk(c: Core, e0: Option<int>)
    requires CoreOk(c, e0)
    ensures CoreOk(Ordered(c, CurrentKey(c)), e0) && CurrentKey(c) in Ordered(c, CurrentKey(c)).charges
    ensures Ordered(c, CurrentKey(c)).plan == c.plan
  {
    var key := CurrentKey(c);
    if key !in c.charges {
      var d := Ordered(c, key);
      forall k | 0 <= k < |d.invoices| ensures Linked(d, e0, k) {
        assert Linked(c, e0, k);
      }
      forall other | other in d.charges ensures other == CurrentKey(d) || Invoiced(d, other) {
        if other != key {
          assert other in c.charges && Invoiced(c, other);
          var k :| 0 <= k < |c.invoices| && c.invoices[k].key == other;
          assert d.invoices[k].key == other;
        }
      }
    }
  }

  lemma {:induction false} SavedOk(c: Core, e0: Option<int>, charge: Charge)
    requires CoreOk(c, e0) && DueAt(c, charge.key, charge.readAt)
    requires charge.readAt <= charge.start && charge.start + DAY <= charge.end
    requires charge.key in c.charges && c.charges[charge.key] == charge.id
    ensures CoreOk(Saved(c, charge), e0)
  {
    var d := Saved(c, charge);
    forall k | 0 <= k < |d.invoices| ensures Linked(d, e0, k) {
      if k < |c.invoices| {
        assert Linked(c, e0, k) && d.invoices[k] == c.invoices[k];
      }
    }
    forall key | key in d.charges ensures Invoiced(d, key) {
      if key == charge.key {
        assert d.invoices[|c.invoices|].key == key;
      } else {
        assert Invoiced(c, key);
        var k :| 0 <= k < |c.invoices| && c.invoices[k].key == key;
        assert d.invoices[k].key == key;
      }
    }
  }

  lemma {:induction false} StatusKeeps(c: Core, e0: Option<int>, status: SubStatus, trialEndsAt: Option<int>)
    requires CoreOk(c, e0)
    ensures CoreOk(c.(plan := c.plan.(status := status, trialEndsAt := trialEndsAt)), e0)
  {
    var d := c.(plan := c.plan.(status := status, trialEndsAt := trialEndsAt));
    forall k | 0 <= k < |d.invoices| ensures Linked(d, e0, k) {
      assert Linked(c, e0, k);
    }
    forall key | key in d.charges ensures key == CurrentKey(d) || Invoiced(d, key) {
      if Invoiced(c, key) {
        var k :| 0 <= k < |c.invoices| && c.invoices[k].key == key;
        assert d.invoices[k].key == key;
      }
    }
  }

  // ---------------------------------------------------------------- steps of the race

  lemma {:induction false} StepKeeps(w: World, month: int -> int, e: Event, e0: Option<int>)
    requires Inv(w, e0) && Advances(month) && Enabled(w, e)
    ensures Inv(Next(w, month, e), e0)
  {
    hide CoreOk, Ordered, Saved;
    match e {
      case Tick(_) =>
      case Acquire(_) =>
      case Read(_, _) =>
      case Order(who, outcome) =>
        assert StageOk(w, w.stages[who]);
        OrderedOk(w.core, e0);
      case Write(who) =>
        assert StageOk(w, w.stages[who]);
        assert month(w.now) >= w.now + DAY;
      case Commit(who) =>
        assert StageOk(w, w.stages[who]);
        SavedOk(w.core, e0, w.stages[who].invoice);
      case Rollback(_) =>
      case StatusChange(status, trialEndsAt) =>
        StatusKeeps(w.core, e0, status, trialEndsAt);
        forall a | a in w.stages ensures StageOk(Next(w, month, e), w.stages[a]) {
          assert StageOk(w, w.stages[a]);
        }
    }
  }

  lemma {:induction false} RunKeeps(w: World, month: int -> int, es: seq<Event>, e0: Option<int>)
    requires Inv(w, e0) && Advances(month) && Possible(w, month, es)
    ensures Inv(Run(w, month, es), e0)
    decreases |es|
  {
    if es != [] {
      StepKeeps(w, month, es[0], e0);
      RunKeeps(Next(w, month, es[0]), month, es[1..], e0);
    }
  }

  lemma {:induction false} Reaches(w: World, month: int -> int, es: seq<Event>)
    requires Start(w) && Advances(month) && Possible(w, month, es)
    ensures Inv(Run(w, month, es), w.core.plan.periodEnd)
  {
    RunKeeps(w, month, es, w.core.plan.periodEnd);
  }

  // ---------------------------------------------------------------- what holds in every reachable world

  lemma {:induction false} PeriodsOrdered(c: Core, e0: Option<int>, j: nat, k: nat)
    requires CoreOk(c, e0) && j < k < |c.invoices|
    ensures c.invoices[j].end <= c.invoices[k].start
    decreases k
  {
    assert Linked(c, e0, k) && Linked(c, e0, k - 1);
    if j < k - 1 {
      PeriodsOrdered(c, e0, j, k - 1);
    }
  }

  lemma {:induction false} KeysDiffer(c: Core, e0: Option<int>, j: nat, k: nat)
    requires CoreOk(c, e0) && j < k < |c.invoices|
    ensures c.invoices[j].key != c.invoices[k].key
  {
    assert Linked(c, e0, j) && Linked(c, e0, k);
    var before := EndBefore(c.invoices, e0, j);
    if before.Some? {
      if j < k - 1 {
        PeriodsOrdered(c, e0, j, k - 1);
        assert Linked(c, e0, k - 1);
      }
    }
  }

  /** The key of the cycle still to be billed has not been used for an invoice. */
  lemma {:induction false} CurrentKeyUnused(c: Core, e0: Option<int>, k: nat)
    requires CoreOk(c, e0) && k < |c.invoices|
    ensures c.invoices[k].key != CurrentKey(c)
  {
    var last := |c.invoices| - 1;
    assert Linked(c, e0, k) && Linked(c, e0, last);
    var before := EndBefore(c.invoices, e0, k);
    if before.Some? {
      if k < last {
        PeriodsOrdered(c, e0, k, last);
      }
    }
  }

  /** Whatever races and rolls back: generated periods follow one another and never overlap. */
  lemma {:induction false} PeriodsNeverOverlap(w: World, month: int -> int, es: seq<Event>, j: nat, k: nat)
    requires Start(w) && Advances(month) && Possible(w, month, es)
    requires j < k < |Run(w, month, es).core.invoices|
    ensures var invoices := Run(w, month, es).core.invoices;
      invoices[j].start < invoices[j].end <= invoices[k].start
  {
    Reaches(w, month, es);
    var c := Run(w, month, es).core;
    assert Linked(c, w.core.plan.periodEnd, j);
    PeriodsOrdered(c, w.core.plan.periodEnd, j, k);
  }

  /**
   * One invoice, one key and one charge per cycle; the row's period is the last invoice's; and no cycle
   * was billed before the one before it had ended.
   */
  lemma {:induction false} OneInvoicePerCycle(w: World, month: int -> int, es: seq<Event>, j: nat, k: nat)
    requires Start(w) && Advances(month) && Possible(w, month, es)
    requires j < k < |Run(w, month, es).core.invoices|
    ensures var c := Run(w, month, es).core;
      && c.invoices[j].key != c.invoices[k].key && c.invoices[j].id != c.invoices[k].id
      && c.plan.periodStart == Some(c.invoices[|c.invoices| - 1].start)
      && c.plan.periodEnd == Some(c.invoices[|c.invoices| - 1].end)
      && c.invoices[j].end <= c.invoices[k].readAt
  {
    Reaches(w, month, es);
    var c := Run(w, month, es).core;
    var e0 := w.core.plan.periodEnd;
    KeysDiffer(c, e0, j, k);
    assert Linked(c, e0, j) && Linked(c, e0, k) && Linked(c, e0, k - 1);
    if j < k - 1 {
      PeriodsOrdered(c, e0, j, k - 1);
    }
  }

  /**
   * Every charge the gateway holds is an invoice's or belongs to the one cycle still open, so attempts
   * that were rolled back after the gateway answered leave at most one charge without an invoice.
   */
  lemma {:induction false} OneChargePerCycle(w: World, month: int -> int, es: seq<Event>)
    requires Start(w) && Advances(month) && Possible(w, month, es)
    ensures var c := Run(w, month, es).core;
      && (forall k :: 0 <= k < |c.invoices| ==>
            c.invoices[k].key in c.charges && c.charges[c.invoices[k].key] == c.invoices[k].id)
      && |c.charges| == |c.invoices| + if CurrentKey(c) in c.charges then 1 else 0
  {
    Reaches(w, month, es);
    ChargesCount(Run(w, month, es).core, w.core.plan.periodEnd);
  }

  lemma {:induction false} ChargesCount(c: Core, e0: Option<int>)
    requires CoreOk(c, e0)
    ensures forall k :: 0 <= k < |c.invoices| ==>
      c.invoices[k].key in c.charges && c.charges[c.invoices[k].key] == c.invoices[k].id
    ensures |c.charges| == |c.invoices| + if CurrentKey(c) in c.charges then 1 else 0
  {
    var used := KeysUsed(c, |c.invoices|);
    forall k | 0 <= k < |c.invoices|
      ensures c.invoices[k].key in c.charges && c.charges[c.invoices[k].key] == c.invoices[k].id
      ensures c.invoices[k].key != CurrentKey(c)
    {
      assert Linked(c, e0, k);
      CurrentKeyUnused(c, e0, k);
    }
    var current := if CurrentKey(c) in c.charges then {CurrentKey(c)} else {};
    ChargeKeys(c, current);
    KeysUsedCount(c, e0, |c.invoices|);
    assert used !! current;
  }

  lemma {:induction false} ChargedKey(c: Core, key: Key)
    requires ChargesSound(c) && key in c.charges
    ensures key == CurrentKey(c) || key in KeysUsed(c, |c.invoices|)
  {
    hide CurrentKey;
    if key != CurrentKey(c) { assert Invoiced(c, key); }
  }

  lemma {:induction false} ChargeKeys(c: Core, current: set<Key>)
    requires ChargesSound(c) && current == if CurrentKey(c) in c.charges then {CurrentKey(c)} else {}
    requires forall k :: 0 <= k < |c.invoices| ==> c.invoices[k].key in c.charges
    ensures c.charges.Keys == KeysUsed(c, |c.invoices|) + current
    ensures |c.charges| == |KeysUsed(c, |c.invoices|) + current|
  {
    hide ChargesSound, CurrentKey;
    forall key ensures key in c.charges <==> key in KeysUsed(c, |c.invoices|) + current {
      if key in c.charges { ChargedKey(c, key); }
    }
    assert |c.charges| == |c.charges.Keys|;
  }

  function KeysUsed(c: Core, n: nat): set<Key>
    requires n <= |c.invoices|
  {
    set k | 0 <= k < n :: c.invoices[k].key
  }

  lemma {:induction false} KeysUsedCount(c: Core, e0: Option<int>, n: nat)
    requires CoreOk(c, e0) && n <= |c.invoices|
    ensures |KeysUsed(c, n)| == n
  {
    if n > 0 {
      KeysUsedCount(c, e0, n - 1);
      forall j | 0 <= j < n - 1 ensures c.invoices[j].key != c.invoices[n - 1].key {
        KeysDiffer(c, e0, j, n - 1);
      }
      assert KeysUsed(c, n) == KeysUsed(c, n - 1) + {c.invoices[n - 1].key};
    }
  }

  /** A retry of the open cycle uses its key again and gets the very charge an earlier attempt left there. */
  lemma {:induction false} RetryReusesCharge(w: World, month: int -> int, es: seq<Event>, who: nat)
    requires Start(w) && Advances(month) && Possible(w, month, es)
    requires var v := Run(w, month, es);
      && who in v.stages
      && v.stages[who].Reading?
      && CurrentKey(v.core) in v.core.charges
    ensures var v := Run(w, month, es);
      && v.stages[who].key == CurrentKey(v.core)
      && Next(v, month, Order(who, Answered)).core == v.core
      && Next(v, month, Order(who, Answered)).stages[who] ==
           Paying(v.core.charges[CurrentKey(v.core)], CurrentKey(v.core), v.stages[who].readAt)
  {
    Reaches(w, month, es);
    var v := Run(w, month, es);
    assert StageOk(v, v.stages[who]);
  }

  /** Two attempts are never past the lock together, and whoever is past the check is still due. */
  lemma {:induction false} RaceIsExclusive(w: World, month: int -> int, es: seq<Event>, a: nat, b: nat)
    requires Start(w) && Advances(month) && Possible(w, month, es)
    requires a in Run(w, month, es).stages && b in Run(w, month, es).stages
    ensures a == b
    ensures var v := Run(w, month, es);
            !v.stages[a].Locked? && v.core.plan.periodEnd.Some? ==> v.core.plan.periodEnd.value <= v.now
  {
    Reaches(w, month, es);
    assert StageOk(Run(w, month, es), Run(w, month, es).stages[a]);
  }

  // ---------------------------------------------------------------- an attempt alone

  /** The steps of one attempt from the gateway's answer on. */
  function LastSteps(a: Attempt, who: nat): seq<Event> {
    [Tick(a.persistAt)] + ([Write(who)] + ([if a.persist.RolledBack? then Rollback(who) else Commit(who)] + []))
  }

  /** The steps of one attempt that nobody interrupts. */
  function Steps(p: Plan, a: Attempt, who: nat): seq<Event> {
    [Tick(a.readAt)] + ([Acquire(who)] + ([Read(who, a)] +
      (if !Proceeds(p, a, a.readAt) || !a.hasTaxId then []
       else [Order(who, a.outcome)] + if a.outcome.Answered? then LastSteps(a, who) else [])))
  }

  lemma {:induction false} RunCons(w: World, month: int -> int, e: Event, es: seq<Event>)
    requires Enabled(w, e) && Possible(Next(w, month, e), month, es)
    ensures Possible(w, month, [e] + es) && Run(w, month, [e] + es) == Run(Next(w, month, e), month, es)
  {
    assert ([e] + es)[1..] == es;
  }

  /** Nobody holds the lock or is under way. */
  predicate Quiet(w: World) { w.holder.None? && w.stages == map[] }

  predicate Alone(w: World, who: nat, s: Stage) { w.holder == Some(who) && w.stages == map[who := s] }

  lemma {:induction false} LastStepsRun(w: World, month: int -> int, a: Attempt, who: nat, s: Stage)
    requires Alone(w, who, s) && s.Paying? && w.now <= a.persistAt
    ensures Possible(w, month, LastSteps(a, who))
    ensures var v := Run(w, month, LastSteps(a, who));
      Quiet(v) && v.core == if a.persist.RolledBack? then w.core
                          else Saved(w.core, Charge(s.charge, s.key, s.readAt, a.persistAt, month(a.persistAt)))
  {
    var w1 := Next(w, month, Tick(a.persistAt));
    var w2 := Next(w1, month, Write(who));
    var last := if a.persist.RolledBack? then Rollback(who) else Commit(who);
    RunCons(w2, month, last, []);
    RunCons(w1, month, Write(who), [last] + []);
    RunCons(w, month, Tick(a.persistAt), [Write(who)] + ([last] + []));
    assert Next(w2, month, last).stages == map[];
  }

  /** An attempt that runs alone does to the rows and the gateway what the whole-attempt function says. */
  lemma {:induction false} AloneIsGenerate(w: World, month: int -> int, a: Attempt, who: nat)
    requires Quiet(w) && w.now <= a.readAt <= a.persistAt
    ensures Possible(w, month, Steps(w.core.plan, a, who))
    ensures var v := Run(w, month, Steps(w.core.plan, a, who)); Quiet(v) && v.core == Generate(w.core, month, a).0
  {
    var w1 := Next(w, month, Tick(a.readAt));
    var w2 := Next(w1, month, Acquire(who));
    var w3 := Next(w2, month, Read(who, a));
    var rest := if !Proceeds(w.core.plan, a, a.readAt) || !a.hasTaxId then []
                else [Order(who, a.outcome)] + if a.outcome.Answered? then LastSteps(a, who) else [];
    if rest == [] {
      assert w3.stages == map[];
    } else {
      OrderRuns(w3, month, a, who);
    }
    RunCons(w2, month, Read(who, a), rest);
    RunCons(w1, month, Acquire(who), [Read(who, a)] + rest);
    RunCons(w, month, Tick(a.readAt), [Acquire(who)] + ([Read(who, a)] + rest));
  }

  lemma {:induction false} OrderRuns(w: World, month: int -> int, a: Attempt, who: nat)
    requires Alone(w, who, Reading(CurrentKey(w.core), a.readAt)) && w.now == a.readAt <= a.persistAt
    requires Proceeds(w.core.plan, a, a.readAt) && a.hasTaxId
    ensures var es := [Order(who, a.outcome)] + if a.outcome.Answered? then LastSteps(a, who) else [];
      Possible(w, month, es) && Quiet(Run(w, month, es)) && Run(w, month, es).core == Generate(w.core, month, a).0
  {
    var v := Next(w, month, Order(who, a.outcome));
    if a.outcome.Answered? {
      LastStepsRun(v, month, a, who, v.stages[who]);
      RunCons(w, month, Order(who, a.outcome), LastSteps(a, who));
    } else {
      assert v.stages == map[];
      RunCons(w, month, Order(who, a.outcome), []);
    }
  }

  // ---------------------------------------------------------------- who is charged

  /** Whether the row and the attempt's data allow a charge at `a.readAt`, column by column. */
  predicate Chargeable(p: Plan, a: Attempt) {
    && a.pixBoleto && !a.recurring && a.planFound && a.hasTaxId
    && (p.status.Active? || p.status.PendingPayment? ||
        (p.status.Trialing? && (p.trialEndsAt.None? || p.trialEndsAt.value <= a.readAt)))
    && (p.periodEnd.None? || p.periodEnd.value <= a.readAt)
  }

  /**
   * An attempt alone orders a charge exactly from a chargeable row, unless the call never reaches the gateway; it
   * writes one invoice, for the month from then on, exactly if the answer is complete and not rolled back, and it
   * answers true exactly if its commit is heard as well.
   */
  lemma {:induction false} ChargedIff(c: Core, month: int -> int, a: Attempt)
    ensures var (d, r) := Generate(c, month, a);
      var key := CurrentKey(c);
      && (key in d.charges <==> key in c.charges || (Chargeable(c.plan, a) && !a.outcome.NotMade?))
      && (forall other :: other != key ==> (other in d.charges <==> other in c.charges))
      && (forall other :: other in c.charges ==> other in d.charges && d.charges[other] == c.charges[other])
      && (if Chargeable(c.plan, a) && a.outcome.Answered? && !a.persist.RolledBack? then
            && key in d.charges
            && d.invoices ==
               c.invoices + [Charge(d.charges[key], key, a.readAt, a.persistAt, month(a.persistAt))]
            && d.plan ==
               c.plan.(periodStart := Some(a.persistAt), periodEnd := Some(month(a.persistAt)))
          else d.invoices == c.invoices && d.plan == c.plan)
      && (r == Ok(true) <==> Chargeable(c.plan, a) && a.outcome.Answered? && a.persist.Committed?)
      && (r == Ok(false) <==> !Chargeable(c.plan, a.(hasTaxId := true)))
  {
    if CurrentKey(c) !in c.charges && Chargeable(c.plan, a) && !a.outcome.NotMade? {
      assert CurrentKey(c) in Ordered(c, CurrentKey(c)).charges;
    }
  }

  /** Nobody may charge this tenant: it is past due or canceled, or its trial still runs. */
  predicate Protected(w: World) {
    var p := w.core.plan;
    p.status.PastDue? || p.status.Canceled? ||
    (p.status.Trialing? && p.trialEndsAt.Some? && w.now < p.trialEndsAt.value)
  }

  /** It is so through the whole run. */
  predicate StaysProtected(w: World, month: int -> int, es: seq<Event>)
    requires Possible(w, month, es)
    decreases |es|
  {
    Protected(w) && (es == [] || StaysProtected(Next(w, month, es[0]), month, es[1..]))
  }

  /** No attempt has passed the check yet. */
  predicate NonePast(w: World) { forall a :: a in w.stages ==> w.stages[a].Locked? }

  /** However attempts race meanwhile, nothing is ordered and nothing written while the tenant stays protected. */
  lemma {:induction false} ProtectedNotCharged(w: World, month: int -> int, es: seq<Event>)
    requires Possible(w, month, es) && StaysProtected(w, month, es) && NonePast(w)
    ensures var v := Run(w, month, es);
      NonePast(v) && v.core.invoices == w.core.invoices && v.core.charges == w.core.charges
    decreases |es|
  {
    if es != [] {
      ProtectedStep(w, month, es[0]);
      ProtectedNotCharged(Next(w, month, es[0]), month, es[1..]);
    }
  }

  lemma {:induction false} ProtectedStep(w: World, month: int -> int, e: Event)
    requires Enabled(w, e) && Protected(w) && NonePast(w)
    ensures var v := Next(w, month, e);
      NonePast(v) && v.core.invoices == w.core.invoices && v.core.charges == w.core.charges
  {
  }

  /** Others may rewrite the row, but only to what it says. */
  predicate TrialKept(es: seq<Event>, end: int) {
    forall k :: 0 <= k < |es| && es[k].StatusChange? ==> es[k] == StatusChange(Trialing, Some(end))
  }

  lemma {:induction false} TrialStaysProtected(w: World, month: int -> int, es: seq<Event>, end: int)
    requires Possible(w, month, es) && TrialKept(es, end)
    requires w.core.plan.status.Trialing? && w.core.plan.trialEndsAt == Some(end)
    ensures var v := Run(w, month, es); w.now <= v.now && (v.now < end ==> StaysProtected(w, month, es))
    decreases |es|
  {
    if es != [] {
      TrialStep(w, month, es[0], end);
      TrialStaysProtected(Next(w, month, es[0]), month, es[1..], end);
    }
  }

  lemma {:induction false} TrialStep(w: World, month: int -> int, e: Event, end: int)
    requires Enabled(w, e) && (e.StatusChange? ==> e == StatusChange(Trialing, Some(end)))
    requires w.core.plan.status.Trialing? && w.core.plan.trialEndsAt == Some(end)
    ensures var v := Next(w, month, e);
      v.core.plan.status.Trialing? && v.core.plan.trialEndsAt == Some(end) && w.now <= v.now
  {
  }

  /** A tenant on trial has no invoice and no charge at the gateway before the trial ends, in every race. */
  lemma {:induction false} TrialNotCharged(w: World, month: int -> int, es: seq<Event>, end: int)
    requires Start(w) && Possible(w, month, es) && TrialKept(es, end)
    requires w.core.plan.status.Trialing? && w.core.plan.trialEndsAt == Some(end)
    ensures var v := Run(w, month, es); v.now < end ==> v.core.invoices == [] && v.core.charges == map[]
  {
    TrialStaysProtected(w, month, es, end);
    if Run(w, month, es).now < end { ProtectedNotCharged(w, month, es); }
  }

  predicate Inactive(status: SubStatus) { status.PastDue? || status.Canceled? }

  lemma {:induction false} InactiveStaysProtected(w: World, month: int -> int, es: seq<Event>)
    requires Possible(w, month, es) && Inactive(w.core.plan.status)
    requires forall k :: 0 <= k < |es| && es[k].StatusChange? ==> Inactive(es[k].status)
    ensures StaysProtected(w, month, es)
    decreases |es|
  {
    if es != [] {
      assert Inactive(Next(w, month, es[0]).core.plan.status);
      InactiveStaysProtected(Next(w, month, es[0]), month, es[1..]);
    }
  }

  /** Nor has a tenant that stays past due or canceled. */
  lemma {:induction false} InactiveNotCharged(w: World, month: int -> int, es: seq<Event>)
    requires Start(w) && Possible(w, month, es) && Inactive(w.core.plan.status)
    requires forall k :: 0 <= k < |es| && es[k].StatusChange? ==> Inactive(es[k].status)
    ensures Run(w, month, es).core.invoices == [] && Run(w, month, es).core.charges == map[]
  {
    InactiveStaysProtected(w, month, es);
    ProtectedNotCharged(w, month, es);
  }

  // ---------------------------------------------------------------- what an invoice covers

  predicate Monthly(w: World, month: int -> int) {
    (forall k :: 0 <= k < |w.core.invoices| ==> w.core.invoices[k].end == month(w.core.invoices[k].start)) &&
    (forall a :: a in w.stages && w.stages[a].Written? ==> w.stages[a].invoice.end == month(w.stages[a].invoice.start))
  }

  lemma {:induction false} StaysMonthly(w: World, month: int -> int, es: seq<Event>)
    requires Possible(w, month, es) && Monthly(w, month)
    ensures Monthly(Run(w, month, es), month)
    decreases |es|
  {
    if es != [] { StaysMonthly(Next(w, month, es[0]), month, es[1..]); }
  }

  /** In every race each invoice covers the month from its start, and so does the period of the row. */
  lemma {:induction false} PeriodsAreMonths(w: World, month: int -> int, es: seq<Event>, k: nat)
    requires Start(w) && Advances(month) && Possible(w, month, es) && k < |Run(w, month, es).core.invoices|
    ensures var c := Run(w, month, es).core;
      && c.invoices[k].end == month(c.invoices[k].start)
      && c.plan.periodStart.Some? && c.plan.periodEnd == Some(month(c.plan.periodStart.value))
  {
    Reaches(w, month, es);
    StaysMonthly(w, month, es);
  }

  /** Two ends of a period give one key exactly if they fall on the same day, of 86 400 000 milliseconds. */
  lemma {:induction false} SameKeyIff(a: int, b: int)
    ensures KeyOf(Some(a)) == KeyOf(Some(b)) <==>
            exists day: int :: day * 86_400_000 <= Min(a, b) && Max(a, b) < (day + 1) * 86_400_000
    ensures KeyOf(None) != KeyOf(Some(a))
  {
    if KeyOf(Some(a)) == KeyOf(Some(b)) {
      var day := DayOf(a);
      assert day * 86_400_000 <= Min(a, b) && Max(a, b) < (day + 1) * 86_400_000;
    }
  }
}
