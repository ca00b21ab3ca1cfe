/**
 Who waits for whom. Transactions that list their items in ascending product order and choose only lots of
 pairs they lock never wait for each other in a circle; TransactionCrossing says when transactions can.
 */
module TransactionDeadlock {
  import opened Prelude
  import opened Ledger
  import opened Stock
  import opened Transactions
  import opened TransactionLocks
  import opened TransactionSerial

  predicate Less(a: Key, b: Key)
  {
    || a.tenant < b.tenant
    || (a.tenant == b.tenant && (a.product < b.product || (a.product == b.product && a.store < b.store)))
  }

  /** Each lock is one that is held already or greater than all that are. */
  ghost predicate Orderly(todo: seq<Task>, held: set<Key>)
  {
    todo == [] ||
    (&& (todo[0].Lock? ==> todo[0].key in held || forall h :: h in held ==> Less(h, todo[0].key))
     && Orderly(todo[1..], held + Acquired(todo[0])))
  }

  /** One operation: its items are in ascending product order and use the same stores. */
  ghost predicate Ascending(jobs: seq<Job>)
  {
    && (forall i :: 0 <= i < |jobs| && jobs[i].Move? ==>
          jobs[i].to.tenant == jobs[i].key.tenant && jobs[i].to.product == jobs[i].key.product
          && jobs[i].to.store != jobs[i].key.store)
    && (forall i, j :: 0 <= i < j < |jobs| ==>
          && jobs[i].key.tenant == jobs[j].key.tenant && jobs[i].key.store == jobs[j].key.store
          && jobs[i].Move? == jobs[j].Move? && (jobs[i].Move? ==> jobs[i].to.store == jobs[j].to.store)
          && jobs[i].key.product <= jobs[j].key.product)
  }

  /** The locks of a job are all held, or all greater than everything held. */
  ghost predicate Above(job: Job, held: set<Key>)
  {
    LocksOf(job) <= held || forall h, k :: h in held && k in LocksOf(job) ==> Less(h, k)
  }

  lemma {:induction false} JobOrderly(job: Job, rest: seq<Task>, held: set<Key>)
    requires Ascending([job]) && Above(job, held) && Orderly(rest, held + LocksOf(job))
    ensures Orderly(JobTasks(job) + rest, held)
  {
    var ts := JobTasks(job);
    var all := ts + rest;
    assert [job][0] == job;
    match job {
      case Credit(key, _, _, _) =>
        assert held + {key} + {} == held + LocksOf(job);
        assert all[1..][1..] == rest;
        assert Orderly(all[1..], held + {key});
      case Debit(key, _, _, _, _) =>
        assert held + {key} + {} + {} == held + LocksOf(job);
        assert all[1..][1..][1..] == rest;
        assert Orderly(all[1..][1..], held + {key} + {});
        assert Orderly(all[1..], held + {key});
      case Move(key, to, _, _) =>
        var a, b := ts[0].key, ts[1].key;
        assert Less(a, b);
        assert held + {a} + {b} + {} + {} == held + LocksOf(job);
        assert all[1..][1..][1..][1..] == rest;
        assert Orderly(all[1..][1..][1..], held + {a} + {b} + {});
        assert Orderly(all[1..][1..], held + {a} + {b});
        assert Orderly(all[1..], held + {a});
    }
  }

  lemma {:induction false} ScriptOrderly(jobs: seq<Job>, held: set<Key>)
    requires Ascending(jobs) && forall i :: 0 <= i < |jobs| ==> Above(jobs[i], held)
    ensures Orderly(Script(jobs), held)
  {
    if jobs != [] {
      var job, more := jobs[0], held + LocksOf(jobs[0]);
      forall i | 0 <= i < |jobs[1..]| ensures Above(jobs[1..][i], more) {
        NextAbove(job, jobs[i + 1], held);
      }
      ScriptOrderly(jobs[1..], more);
      JobOrderly(job, Script(jobs[1..]), held);
    }
  }

  lemma {:induction false} NextAbove(job: Job, later: Job, held: set<Key>)
    requires Ascending([job, later]) && Above(job, held) && Above(later, held)
    ensures Above(later, held + LocksOf(job))
  {
    var jobs := [job, later];
    assert jobs[0] == job && jobs[1] == later;
    if job.key.product == later.key.product {
      assert job.key == later.key && (job.Move? ==> job.to == later.to);
      assert LocksOf(later) == LocksOf(job);
    } else {
      assert forall h, k :: h in LocksOf(job) && k in LocksOf(later) ==> Less(h, k);
    }
  }

  // ---- Steps keep the order ----

  lemma {:induction false} NoLocksOrderly(a: seq<Task>, b: seq<Task>, held: set<Key>)
    requires (forall task :: task in a ==> !task.Lock?) && Orderly(b, held)
    ensures Orderly(a + b, held)
  {
    if a == [] {
      assert a + b == b;
    } else {
      NoLocksOrderly(a[1..], b, held);
      assert (a + b)[1..] == a[1..] + b;
      assert held + {} == held;
    }
  }

  lemma {:induction false} StepOrderly(th: Thread, catalog: Catalog, db: Db)
    requires CanStep(th) && Orderly(th.todo, th.held) && !Step(th, catalog, db).failed
    ensures Orderly(Step(th, catalog, db).todo, Step(th, catalog, db).held)
  {
    var task, seen := th.todo[0], Apply(db, th.writes);
    var left := Left(task, catalog, seen).value;
    if task.Resolve? {
      var job := task.job;
      LinesNoLocks(job, ResolveExitLines(seen, catalog[job.key.product], job.key, job.quantity, job.pick).value);
    }
    NoLocksOrderly(left, th.todo[1..], th.held + Acquired(task));
  }

  ghost predicate SystemOrderly(hash: Hash, s: System)
  {
    Separate(hash, s) && forall id :: id in s.live && !s.live[id].failed ==> Orderly(s.live[id].todo, s.live[id].held)
  }

  ghost predicate AllAscending(es: seq<Event>)
  {
    forall i :: 0 <= i < |es| && es[i].Begin? ==> Ascending(es[i].jobs)
  }

  lemma {:induction false} RunOrderly(hash: Hash, catalog: Catalog, db: Db, es: seq<Event>)
    requires AllAscending(es) && Run(hash, catalog, Start(db), es).Some?
    ensures SystemOrderly(hash, Run(hash, catalog, Start(db), es).value)
  {
    if es != [] {
      var n := |es| - 1;
      RunOrderly(hash, catalog, db, es[..n]);
      NextOrderly(hash, catalog, Run(hash, catalog, Start(db), es[..n]).value, es[n]);
    }
  }

  lemma {:induction false} NextOrderly(hash: Hash, catalog: Catalog, s: System, e: Event)
    requires SystemOrderly(hash, s) && Enabled(hash, s, e) && (e.Begin? ==> Ascending(e.jobs))
    ensures SystemOrderly(hash, Next(hash, catalog, s, e))
  {
    var next := Next(hash, catalog, s, e);
    NextSeparate(hash, catalog, s, e);
    if e.Begin? { ScriptOrderly(e.jobs, {}); }
    forall id | id in next.live && !next.live[id].failed ensures Orderly(next.live[id].todo, next.live[id].held) {
      if e.Execute? && id == e.id { StepOrderly(s.live[id], catalog, s.db); }
    }
  }

  // ---- Waiting ----

  ghost predicate Clashes(hash: Hash, held: set<Key>, k: Key) { exists h :: h in held && hash(h) == hash(k) }

  /** The next statement of `th` asks for an advisory lock that `other` holds. */
  ghost predicate LockWait(hash: Hash, th: Thread, other: Thread)
  {
    CanStep(th) && th.todo[0].Lock? && Clashes(hash, other.held, th.todo[0].key)
  }

  /** The next statement of `th` updates a lot row that `other` has updated. */
  ghost predicate RowWait(th: Thread, other: Thread)
  {
    CanStep(th) && RowUpdated(th.todo[0]).Some? && HasUpdated(other, RowUpdated(th.todo[0]).value)
  }

  ghost predicate Waits(hash: Hash, th: Thread, other: Thread) { LockWait(hash, th, other) || RowWait(th, other) }

  /** The edges of the wait-for graph. */
  ghost predicate WaitsFor(hash: Hash, s: System, t: nat, u: nat)
  {
    t in s.live && u in s.live && u != t && Waits(hash, s.live[t], s.live[u])
  }

  /** A transaction with statements left can execute the next one unless it waits for another one. */
  lemma {:induction false} StuckIff(hash: Hash, s: System, t: nat)
    requires t in s.live && CanStep(s.live[t])
    ensures !Enabled(hash, s, Execute(t)) <==> exists u :: WaitsFor(hash, s, t, u)
  {
    hide RowUpdated, HasUpdated;
    var task := s.live[t].todo[0];
    if task.Lock? && !LockFree(hash, s, t, task.key) {
      var u, h :| u in s.live && u != t && h in s.live[u].held && hash(h) == hash(task.key);
      assert WaitsFor(hash, s, t, u);
    }
    if RowUpdated(task).Some? && !RowFree(s, t, RowUpdated(task).value) {
      var u :| u in s.live && u != t && HasUpdated(s.live[u], RowUpdated(task).value);
      assert WaitsFor(hash, s, t, u);
    }
  }

  ghost predicate NoRowWaits(s: System)
  {
    forall t, u :: t in s.live && u in s.live && t != u ==> !RowWait(s.live[t], s.live[u])
  }

  /** A transaction with locked lots has updated rows of held pairs only, and the next statement does too. */
  lemma {:induction false} RowsInHeld(th: Thread, catalog: Catalog, db: Db, id: LotId)
    requires AsAlone(th, catalog, db)
    ensures HasUpdated(th, id) ==> id.home in th.held
    ensures CanStep(th) && RowUpdated(th.todo[0]) == Some(id) ==> id.home in th.held
  {
    hide Alone, LotsLocked;
    AloneCovered(th.jobs, th.clock, th.steps, catalog, db);
  }

  /** Where every chosen lot is locked by the operation that chose it, nobody ever waits for a row. */
  lemma {:induction false} LockedLotsNoRowWaits(hash: Hash, catalog: Catalog, db: Db, es: seq<Event>)
    requires LotsRespected(es) && Run(hash, catalog, Start(db), es).Some?
    ensures NoRowWaits(Run(hash, catalog, Start(db), es).value)
  {
    hide Run, AsAlone, Separate, HasUpdated, RowUpdated, LotsRespected;
    RunSerial(hash, catalog, db, es);
    var s := Run(hash, catalog, Start(db), es).value;
    forall t, u | t in s.live && u in s.live && t != u ensures !RowWait(s.live[t], s.live[u]) {
      if RowWait(s.live[t], s.live[u]) {
        var id := RowUpdated(s.live[t].todo[0]).value;
        RowsInHeld(s.live[t], catalog, s.db, id);
        RowsInHeld(s.live[u], catalog, s.db, id);
        SeparateHeldOnce(hash, s, t, u, id.home);
        assert false;
      }
    }
  }

  // ---- Lock keys that tell pairs apart ----

  function AllLocks(jobs: seq<Job>): set<Key> { AcquiredBy(Script(jobs)) }

  ghost predicate PairLocked(es: seq<Event>, k: Key)
  {
    exists i :: 0 <= i < |es| && es[i].Begin? && k in AllLocks(es[i].jobs)
  }

  /** The hash tells the pairs apart that the operations of the run lock. */
  ghost predicate TellsApart(hash: Hash, es: seq<Event>)
  {
    forall a, b :: PairLocked(es, a) && PairLocked(es, b) && hash(a) == hash(b) ==> a == b
  }

  /** What a transaction holds or will lock is among the pairs of its operation. */
  ghost predicate Inside(th: Thread) { th.held + AcquiredBy(th.todo) <= AllLocks(th.jobs) }

  lemma {:induction false} StepInside(th: Thread, catalog: Catalog, db: Db)
    requires CanStep(th) && Inside(th)
    ensures Inside(Step(th, catalog, db))
  {
    hide Left, Written, AllLocks, Apply;
    if !Step(th, catalog, db).failed {
      var left := Left(th.todo[0], catalog, Apply(db, th.writes)).value;
      LeftLocks(th.todo[0], catalog, Apply(db, th.writes));
      AcquiredParts(left, th.todo[1..]);
    }
  }

  /** Every open transaction was begun with its jobs and stays inside their pairs. */
  ghost predicate AllInside(s: System, es: seq<Event>)
  {
    forall id :: id in s.live ==> Inside(s.live[id]) && Begun(es, s.live[id].jobs)
  }

  ghost predicate Begun(es: seq<Event>, jobs: seq<Job>)
  {
    exists i :: 0 <= i < |es| && es[i].Begin? && es[i].jobs == jobs
  }

  lemma {:induction false} RunInside(hash: Hash, catalog: Catalog, db: Db, es: seq<Event>)
    requires Run(hash, catalog, Start(db), es).Some?
    ensures AllInside(Run(hash, catalog, Start(db), es).value, es)
  {
    hide Inside, Step, Unblocked;
    if es != [] {
      var n := |es| - 1;
      RunInside(hash, catalog, db, es[..n]);
      var s := Run(hash, catalog, Start(db), es[..n]).value;
      forall jobs | Begun(es[..n], jobs) ensures Begun(es, jobs) { BegunBefore(es, jobs); }
      match es[n] {
        case Begin(_, jobs, clock) =>
          FreshInside(jobs, clock);
          assert Begun(es, jobs);
        case Execute(id) =>
          StepInside(s.live[id], catalog, s.db);
          StepKeepsRequest(s.live[id], catalog, s.db);
        case Commit(_) =>
        case Rollback(_) =>
      }
    }
  }

  lemma {:induction false} BegunBefore(es: seq<Event>, jobs: seq<Job>)
    requires es != [] && Begun(es[..|es| - 1], jobs)
    ensures Begun(es, jobs)
  {
    var i :| 0 <= i < |es| - 1 && es[..|es| - 1][i].Begin? && es[..|es| - 1][i].jobs == jobs;
    assert es[i].jobs == jobs;
  }

  lemma {:induction false} FreshInside(jobs: seq<Job>, clock: Clock)
    ensures Inside(Fresh(jobs, clock))
  {
  }

  /** Whoever waits for an advisory lock waits for the very pair that the other one holds. */
  ghost predicate KeysTold(hash: Hash, s: System)
  {
    forall t, u :: t in s.live && u in s.live && LockWait(hash, s.live[t], s.live[u]) ==>
      s.live[t].todo[0].key in s.live[u].held
  }

  lemma {:induction false} RunKeysTold(hash: Hash, catalog: Catalog, db: Db, es: seq<Event>)
    requires TellsApart(hash, es) && Run(hash, catalog, Start(db), es).Some?
    ensures KeysTold(hash, Run(hash, catalog, Start(db), es).value)
  {
    hide Run, AllLocks;
    RunInside(hash, catalog, db, es);
    var s := Run(hash, catalog, Start(db), es).value;
    forall id, k | id in s.live && k in s.live[id].held + AcquiredBy(s.live[id].todo) ensures PairLocked(es, k) {
      assert Inside(s.live[id]);
      var i :| 0 <= i < |es| && es[i].Begin? && es[i].jobs == s.live[id].jobs;
    }
    forall t, u | t in s.live && u in s.live && LockWait(hash, s.live[t], s.live[u])
      ensures s.live[t].todo[0].key in s.live[u].held
    {
      var k := s.live[t].todo[0].key;
      assert k in AcquiredBy(s.live[t].todo);
      var h :| h in s.live[u].held && hash(h) == hash(k);
      assert PairLocked(es, h) && PairLocked(es, k);
    }
  }

  // ---- No circle ----

  ghost predicate AtLock(s: System, t: nat) { t in s.live && CanStep(s.live[t]) && s.live[t].todo[0].Lock? }

  /** The pair that a transaction at a lock statement asks for. */
  ghost function Wanted(s: System, t: nat): Key
  {
    if AtLock(s, t) then s.live[t].todo[0].key else Key(0, 0, 0)
  }

  /** Orderly transactions that only wait for advisory locks, whose keys tell their pairs apart. */
  ghost predicate Tidy(hash: Hash, s: System) { SystemOrderly(hash, s) && KeysTold(hash, s) && NoRowWaits(s) }

  /** Along the wait-for graph the wanted pairs increase. */
  lemma {:induction false} WaitingAscends(hash: Hash, s: System, t: nat, u: nat, w: nat)
    requires Tidy(hash, s) && WaitsFor(hash, s, t, u) && WaitsFor(hash, s, u, w)
    ensures AtLock(s, t) && AtLock(s, u) && Less(Wanted(s, t), Wanted(s, u))
  {
    hide RowUpdated, HasUpdated, Less, Separate;
    assert !RowWait(s.live[t], s.live[u]) && !RowWait(s.live[u], s.live[w]);
    var k := Wanted(s, t);
    assert k in s.live[u].held;
    assert Wanted(s, u) in s.live[w].held;
    SeparateHeldOnce(hash, s, w, u, Wanted(s, u));
    assert Orderly(s.live[u].todo, s.live[u].held);
  }

  /** A chain of waiting transactions never returns to where it started. */
  lemma {:induction false} ChainAscends(hash: Hash, s: System, chain: seq<nat>)
    requires Tidy(hash, s) && |chain| >= 3
    requires forall i :: 0 <= i < |chain| - 1 ==> WaitsFor(hash, s, chain[i], chain[i + 1])
    ensures Less(Wanted(s, chain[0]), Wanted(s, chain[|chain| - 2]))
  {
    hide WaitsFor, Tidy, Wanted;
    var n := |chain|;
    WaitingAscends(hash, s, chain[n - 3], chain[n - 2], chain[n - 1]);
    if n > 3 { ChainAscends(hash, s, chain[..n - 1]); }
  }

  lemma {:induction false} RunTidy(hash: Hash, catalog: Catalog, db: Db, es: seq<Event>)
    requires AllAscending(es) && LotsRespected(es) && TellsApart(hash, es) && Run(hash, catalog, Start(db), es).Some?
    ensures Tidy(hash, Run(hash, catalog, Start(db), es).value)
  {
    hide *;
    RunOrderly(hash, catalog, db, es);
    RunKeysTold(hash, catalog, db, es);
    LockedLotsNoRowWaits(hash, catalog, db, es);
    TidyIs(hash, Run(hash, catalog, Start(db), es).value);
  }

  lemma {:induction false} TidyIs(hash: Hash, s: System)
    requires SystemOrderly(hash, s) && KeysTold(hash, s) && NoRowWaits(s)
    ensures Tidy(hash, s)
  {
  }

  /** With items in ascending product order, chosen lots that the operation locks and lock keys that tell the
      locked pairs apart, no transactions ever wait in a circle, for locks or for rows. */
  lemma {:induction false} NoCircularWait(hash: Hash, catalog: Catalog, db: Db, es: seq<Event>, chain: seq<nat>)
    requires AllAscending(es) && LotsRespected(es) && TellsApart(hash, es) && Run(hash, catalog, Start(db), es).Some?
    requires |chain| >= 2
    requires forall i :: 0 <= i < |chain| - 1 ==>
      WaitsFor(hash, Run(hash, catalog, Start(db), es).value, chain[i], chain[i + 1])
    ensures chain[0] != chain[|chain| - 1]
  {
    hide Run, Tidy, WaitsFor, LotsRespected, Wanted;
    RunTidy(hash, catalog, db, es);
    var s := Run(hash, catalog, Start(db), es).value;
    assert WaitsFor(hash, s, chain[0], chain[1]);
    if chain[0] == chain[|chain| - 1] {
      var longer := chain + [chain[1]];
      forall i | 0 <= i < |longer| - 1 ensures WaitsFor(hash, s, longer[i], longer[i + 1]) {
        if i < |chain| - 1 { assert WaitsFor(hash, s, chain[i], chain[i + 1]); }
      }
      ChainAscends(hash, s, longer);
    }
  }

  ghost predicate CanProceed(hash: Hash, s: System, t: nat)
  {
    t in s.live && (Enabled(hash, s, Execute(t)) || Enabled(hash, s, Commit(t)) || s.live[t].failed)
  }

  ghost function Further(s: System, k: Key): set<nat>
  {
    set w | w in s.live && AtLock(s, w) && Less(k, Wanted(s, w))
  }

  lemma {:induction false} Blocker(hash: Hash, s: System, t: nat) returns (u: nat)
    requires t in s.live && !CanProceed(hash, s, t)
    ensures WaitsFor(hash, s, t, u)
  {
    hide WaitsFor, Unblocked;
    StuckIff(hash, s, t);
    u :| WaitsFor(hash, s, t, u);
  }

  lemma {:induction false} FewerFurther(s: System, k: Key, w: nat)
    requires w in s.live && AtLock(s, w) && Less(k, Wanted(s, w))
    ensures |Further(s, Wanted(s, w))| < |Further(s, k)|
  {
    assert w in Further(s, k) && w !in Further(s, Wanted(s, w));
    SmallerSet(Further(s, Wanted(s, w)), Further(s, k));
  }

  /** Following who waits for whom leads to a transaction that can proceed. */
  lemma {:induction false} SomeoneProceeds(hash: Hash, s: System, t: nat) returns (u: nat)
    requires Tidy(hash, s) && t in s.live
    ensures CanProceed(hash, s, u)
    decreases if AtLock(s, t) then |Further(s, Wanted(s, t))| else |s.live| + 1, AtLock(s, t)
  {
    hide Tidy, WaitsFor, CanProceed, AtLock, Wanted, Less, Further;
    u := t;
    if !CanProceed(hash, s, t) {
      u := Blocker(hash, s, t);
      WaitedForIsOpen(hash, s, t, u);
      if !CanProceed(hash, s, u) {
        var w := Blocker(hash, s, u);
        WaitingAscends(hash, s, t, u, w);
        FewerFurther(s, Wanted(s, t), u);
        u := SomeoneProceeds(hash, s, u);
      }
    }
  }

  lemma {:induction false} WaitedForIsOpen(hash: Hash, s: System, t: nat, u: nat)
    requires WaitsFor(hash, s, t, u)
    ensures u in s.live
  {
  }

  lemma {:induction false} SmallerSet(a: set<nat>, b: set<nat>)
    requires a < b
    ensures |a| < |b|
  {
    assert b == a + (b - a);
    assert |b| == |a| + |b - a|;
  }

  /** Under the same assumptions, as long as transactions are open one of them can execute its next statement,
      commit, or roll back after an exception. */
  lemma {:induction false} DeadlockFree(hash: Hash, catalog: Catalog, db: Db, es: seq<Event>)
    requires AllAscending(es) && LotsRespected(es) && TellsApart(hash, es) && Run(hash, catalog, Start(db), es).Some?
    requires Run(hash, catalog, Start(db), es).value.live != map[]
    ensures exists t :: CanProceed(hash, Run(hash, catalog, Start(db), es).value, t)
  {
    hide Run, Tidy, LotsRespected, CanProceed;
    RunTidy(hash, catalog, db, es);
    var s := Run(hash, catalog, Start(db), es).value;
    var t :| t in s.live;
    var u := SomeoneProceeds(hash, s, t);
  }
}
