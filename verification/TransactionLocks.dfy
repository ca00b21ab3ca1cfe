/** The lock discipline of the stock operations: every pair is locked before it is used. */
module TransactionLocks {
  import opened Prelude
  import opened Ledger
  import opened Stock
  import opened Transactions

  /** With `lots`, the discipline covers lots as well as movements. */
  function Needs(lots: bool, task: Task): set<Key>
  {
    RowNeeds(task) + if lots then LotNeeds(task) else {}
  }

  /** Each statement needs only pairs that are held or locked by an earlier statement. */
  ghost predicate Covered(lots: bool, todo: seq<Task>, held: set<Key>)
  {
    todo == [] || (Needs(lots, todo[0]) <= held && Covered(lots, todo[1..], held + Acquired(todo[0])))
  }

  lemma {:induction false} CoveredMonotone(lots: bool, todo: seq<Task>, held: set<Key>, more: set<Key>)
    requires Covered(lots, todo, held) && held <= more
    ensures Covered(lots, todo, more)
  {
    if todo != [] {
      CoveredMonotone(lots, todo[1..], held + Acquired(todo[0]), more + Acquired(todo[0]));
    }
  }

  lemma {:induction false} CoveredJoin(lots: bool, a: seq<Task>, b: seq<Task>, held: set<Key>)
    requires Covered(lots, a, held) && Covered(lots, b, held)
    ensures Covered(lots, a + b, held)
  {
    if a == [] {
      assert a + b == b;
    } else {
      CoveredMonotone(lots, b, held, held + Acquired(a[0]));
      CoveredJoin(lots, a[1..], b, held + Acquired(a[0]));
      assert (a + b)[1..] == a[1..] + b;
    }
  }

  function AcquiredBy(todo: seq<Task>): set<Key>
  {
    if todo == [] then {} else Acquired(todo[0]) + AcquiredBy(todo[1..])
  }

  /** The second half may rely on the locks that the first half takes. */
  lemma {:induction false} CoveredThen(lots: bool, a: seq<Task>, b: seq<Task>, held: set<Key>)
    requires Covered(lots, a, held) && Covered(lots, b, held + AcquiredBy(a))
    ensures Covered(lots, a + b, held)
  {
    hide Needs;
    if a == [] {
      assert a + b == b && held + {} == held;
    } else {
      assert held + Acquired(a[0]) + AcquiredBy(a[1..]) == held + AcquiredBy(a);
      CoveredThen(lots, a[1..], b, held + Acquired(a[0]));
      assert (a + b)[1..] == a[1..] + b;
    }
  }

  lemma {:induction false} AcquiredParts(a: seq<Task>, b: seq<Task>)
    ensures AcquiredBy(a + b) == AcquiredBy(a) + AcquiredBy(b)
  {
    if a == [] {
      assert a + b == b;
    } else {
      AcquiredParts(a[1..], b);
      assert (a + b)[1..] == a[1..] + b;
    }
  }

  lemma {:induction false} AcquiredOne(a: Task)
    ensures AcquiredBy([a]) == Acquired(a)
  {
    hide Acquired;
    assert [a][1..] == [];
    assert AcquiredBy([a]) == Acquired(a) + AcquiredBy([]);
  }

  lemma {:induction false} AcquiredTwo(a: Task, b: Task)
    ensures AcquiredBy([a, b]) == Acquired(a) + Acquired(b)
  {
    hide Acquired, AcquiredBy;
    AcquiredOne(a);
    AcquiredOne(b);
    AcquiredParts([a], [b]);
    assert [a] + [b] == [a, b];
  }

  lemma {:induction false} JobAcquires(job: Job)
    ensures AcquiredBy(JobTasks(job)) == LocksOf(job)
  {
    hide AcquiredBy;
    var ts := JobTasks(job);
    AcquiredTwo(ts[0], ts[1]);
    match job {
      case Credit(_, _, _, _) =>
        assert ts == [ts[0], ts[1]];
      case Debit(_, _, _, _, _) =>
        assert ts == [ts[0], ts[1]] + [ts[2]];
        AcquiredParts([ts[0], ts[1]], [ts[2]]);
        AcquiredOne(ts[2]);
      case Move(_, _, _, _) =>
        assert ts == [ts[0], ts[1]] + [ts[2], ts[3]];
        AcquiredParts([ts[0], ts[1]], [ts[2], ts[3]]);
        AcquiredTwo(ts[2], ts[3]);
    }
  }

  lemma {:induction false} JobCovered(lots: bool, job: Job, held: set<Key>)
    requires lots && !job.Credit? && job.pick.Some? ==> job.pick.value.home in held + LocksOf(job)
    ensures Covered(lots, JobTasks(job), held)
  {
    var ts := JobTasks(job);
    var n := |ts|;
    var last := ts[n - 1];
    assert Needs(lots, last) <= held + LocksOf(job);
    match job {
      case Credit(key, _, _, _) =>
        assert Covered(lots, ts[1..], held + {key}) by {
          assert ts[1..] == [last];
          assert Covered(lots, [last][1..], held + {key} + Acquired(last));
        }
      case Debit(key, _, _, _, _) =>
        assert Covered(lots, ts[2..], held + {key} + {}) by {
          assert ts[2..] == [last] && [last][1..] == [];
        }
        assert ts[1..][1..] == ts[2..];
        assert Covered(lots, ts[1..], held + {key});
      case Move(key, to, _, _) =>
        var a, b := ts[0].key, ts[1].key;
        assert Covered(lots, ts[3..], held + {a} + {b} + {}) by {
          assert ts[3..] == [last] && [last][1..] == [];
        }
        assert ts[2..][1..] == ts[3..];
        assert Covered(lots, ts[2..], held + {a} + {b});
        assert ts[1..][1..] == ts[2..];
        assert Covered(lots, ts[1..], held + {a});
    }
  }

  lemma {:induction false} ScriptCovered(lots: bool, jobs: seq<Job>, held: set<Key>)
    requires lots ==> LotsLocked(jobs, held)
    ensures Covered(lots, Script(jobs), held)
  {
    hide JobTasks, LocksOf;
    if jobs != [] {
      JobCovered(lots, jobs[0], held);
      JobAcquires(jobs[0]);
      ScriptCovered(lots, jobs[1..], held + LocksOf(jobs[0]));
      CoveredThen(lots, JobTasks(jobs[0]), Script(jobs[1..]), held);
    }
  }

  lemma {:induction false} CoveredParts(lots: bool, a: seq<Task>, b: seq<Task>, held: set<Key>)
    requires Covered(lots, a + b, held)
    ensures Covered(lots, a, held) && Covered(lots, b, held + AcquiredBy(a))
  {
    hide Needs;
    if a == [] {
      assert a + b == b && held + {} == held;
    } else {
      assert (a + b)[1..] == a[1..] + b;
      CoveredParts(lots, a[1..], b, held + Acquired(a[0]));
      assert held + Acquired(a[0]) + AcquiredBy(a[1..]) == held + AcquiredBy(a);
    }
  }

  lemma {:induction false} JobCoveredOnly(job: Job, held: set<Key>)
    requires Covered(true, JobTasks(job), held) && !job.Credit? && job.pick.Some?
    ensures job.pick.value.home in held + LocksOf(job)
  {
    var ts := JobTasks(job);
    var n := |ts| - 1;
    assert ts == ts[..n] + [ts[n]];
    CoveredParts(true, ts[..n], [ts[n]], held);
    assert AcquiredBy(ts[..n]) <= LocksOf(job) by {
      AcquiredParts(ts[..n], [ts[n]]);
      JobAcquires(job);
    }
  }

  /** Every statement of an operation uses the movements of pairs only that were locked before it; and the same
      of lots exactly if every chosen lot belongs to a pair that the operation has locked by then. */
  lemma {:induction false} ScriptCoveredIff(jobs: seq<Job>, held: set<Key>)
    ensures Covered(false, Script(jobs), held)
    ensures Covered(true, Script(jobs), held) <==> LotsLocked(jobs, held)
  {
    hide JobTasks, LocksOf;
    ScriptCovered(false, jobs, held);
    if LotsLocked(jobs, held) { ScriptCovered(true, jobs, held); }
    if Covered(true, Script(jobs), held) && jobs != [] {
      CoveredParts(true, JobTasks(jobs[0]), Script(jobs[1..]), held);
      JobAcquires(jobs[0]);
      ScriptCoveredIff(jobs[1..], held + LocksOf(jobs[0]));
      if !jobs[0].Credit? && jobs[0].pick.Some? { JobCoveredOnly(jobs[0], held); }
    }
  }

  /** The lots that resolved lines name belong to the pair, or are the one chosen by hand. */
  lemma {:induction false} ResolvedHomes(db: Db, perishable: bool, k: Key, quantity: int, pick: Option<LotId>)
    requires ResolveExitLines(db, perishable, k, quantity, pick).Ok?
    ensures forall line :: line in ResolveExitLines(db, perishable, k, quantity, pick).value && line.lot.Some? ==>
      line.lot.value.home == if pick.Some? then pick.value.home else k
  {
  }

  ghost predicate LineAtHome(job: Job, line: Line)
    requires !job.Credit?
  {
    line.lot.Some? ==> line.lot.value.home == if job.pick.Some? then job.pick.value.home else job.key
  }

  lemma {:induction false} LineCovered(lots: bool, job: Job, line: Line, held: set<Key>)
    requires !job.Credit? && LineAtHome(job, line) && Needs(lots, Resolve(job)) <= held
    ensures Covered(lots, LineTasks(job, line), held)
  {
    PlainCovered(lots, LineTasks(job, line), held);
  }

  /** Statements without locks whose needs are held. */
  lemma {:induction false} PlainCovered(lots: bool, todo: seq<Task>, held: set<Key>)
    requires forall task :: task in todo ==> Needs(lots, task) <= held
    ensures Covered(lots, todo, held)
  {
    if todo != [] {
      PlainCovered(lots, todo[1..], held);
      CoveredMonotone(lots, todo[1..], held, held + Acquired(todo[0]));
    }
  }

  lemma {:induction false} LinesCovered(lots: bool, job: Job, lines: seq<Line>, held: set<Key>)
    requires !job.Credit? && Needs(lots, Resolve(job)) <= held
    requires forall line :: line in lines ==> LineAtHome(job, line)
    ensures Covered(lots, LinesTasks(job, lines), held)
  {
    if lines != [] {
      LineCovered(lots, job, lines[0], held);
      LinesCovered(lots, job, lines[1..], held);
      CoveredJoin(lots, LineTasks(job, lines[0]), LinesTasks(job, lines[1..]), held);
    }
  }

  /** What is left of a statement needs nothing new. */
  lemma {:induction false} LeftCovered(lots: bool, task: Task, catalog: Catalog, seen: Db, held: set<Key>)
    requires Needs(lots, task) <= held && Left(task, catalog, seen).Some?
    ensures Covered(lots, Left(task, catalog, seen).value, held)
  {
    if task.Resolve? {
      var job, p := task.job, catalog[task.job.key.product];
      ResolvedHomes(seen, p, job.key, job.quantity, job.pick);
      LinesCovered(lots, job, ResolveExitLines(seen, p, job.key, job.quantity, job.pick).value, held);
    } else {
      PlainCovered(lots, Left(task, catalog, seen).value, held);
    }
  }

  /** A step keeps the rest of the work covered. */
  lemma {:induction false} StepCovered(lots: bool, th: Thread, catalog: Catalog, db: Db)
    requires CanStep(th) && Covered(lots, th.todo, th.held) && !Step(th, catalog, db).failed
    ensures Covered(lots, Step(th, catalog, db).todo, Step(th, catalog, db).held)
  {
    var task, seen, held := th.todo[0], Apply(db, th.writes), th.held + Acquired(th.todo[0]);
    LeftCovered(lots, task, catalog, seen, held);
    CoveredJoin(lots, Left(task, catalog, seen).value, th.todo[1..], held);
  }

  // ---- Locks of different transactions never share a hash ----

  ghost predicate Apart(hash: Hash, a: set<Key>, b: set<Key>)
  {
    forall k, h :: k in a && h in b ==> hash(k) != hash(h)
  }

  ghost predicate Separate(hash: Hash, s: System)
  {
    forall t, u :: t in s.live && u in s.live && t != u ==> Apart(hash, s.live[t].held, s.live[u].held)
  }

  lemma {:induction false} NextSeparate(hash: Hash, catalog: Catalog, s: System, e: Event)
    requires Separate(hash, s) && Enabled(hash, s, e)
    ensures Separate(hash, Next(hash, catalog, s, e))
  {
  }

  lemma {:induction false} SeparateHeldOnce(hash: Hash, s: System, t: nat, u: nat, k: Key)
    requires Separate(hash, s) && t in s.live && u in s.live && t != u && k in s.live[t].held
    ensures k !in s.live[u].held
  {
    assert Apart(hash, s.live[t].held, s.live[u].held);
  }

  lemma {:induction false} RunSeparate(hash: Hash, catalog: Catalog, db: Db, es: seq<Event>)
    requires Run(hash, catalog, Start(db), es).Some?
    ensures Separate(hash, Run(hash, catalog, Start(db), es).value)
  {
    hide Separate, Next, Enabled;
    if es == [] {
      StartSeparate(hash, db);
    } else {
      var n := |es| - 1;
      RunSeparate(hash, catalog, db, es[..n]);
      NextSeparate(hash, catalog, Run(hash, catalog, Start(db), es[..n]).value, es[n]);
    }
  }

  lemma {:induction false} StartSeparate(hash: Hash, db: Db)
    ensures Separate(hash, Start(db))
  {
  }

  /** In every run, for every hash, no pair is ever locked by two open transactions, and no two pairs with
      the same hash are: locks last to the end of their transaction. */
  lemma {:induction false} HeldOnce(hash: Hash, catalog: Catalog, db: Db, es: seq<Event>, t: nat, u: nat, k: Key,
      h: Key)
    requires Run(hash, catalog, Start(db), es).Some?
    requires var live := Run(hash, catalog, Start(db), es).value.live;
      t in live && u in live && t != u && k in live[t].held && h in live[u].held
    ensures k != h && hash(k) != hash(h)
  {
    hide Run;
    RunSeparate(hash, catalog, db, es);
    var live := Run(hash, catalog, Start(db), es).value.live;
    assert Apart(hash, live[t].held, live[u].held);
  }

  lemma {:induction false} LinesNoLocks(job: Job, lines: seq<Line>)
    requires !job.Credit?
    ensures forall task :: task in LinesTasks(job, lines) ==> !task.Lock?
  {
    if lines != [] { LinesNoLocks(job, lines[1..]); }
  }

  lemma {:induction false} NoLockTaken(todo: seq<Task>)
    requires forall task :: task in todo ==> !task.Lock?
    ensures AcquiredBy(todo) == {}
  {
    if todo != [] { NoLockTaken(todo[1..]); }
  }

  lemma {:induction false} LinesLocks(job: Job, lines: seq<Line>)
    requires !job.Credit?
    ensures AcquiredBy(LinesTasks(job, lines)) == {}
  {
    LinesNoLocks(job, lines);
    NoLockTaken(LinesTasks(job, lines));
  }

  /** What is left of a statement takes no lock. */
  lemma {:induction false} LeftLocks(task: Task, catalog: Catalog, seen: Db)
    requires Left(task, catalog, seen).Some?
    ensures AcquiredBy(Left(task, catalog, seen).value) == {}
  {
    hide FindTwin, Balance;
    var left := Left(task, catalog, seen).value;
    if task.Resolve? {
      var job := task.job;
      LinesLocks(job, ResolveExitLines(seen, catalog[job.key.product], job.key, job.quantity, job.pick).value);
    } else if |left| == 2 {
      assert left[1..][1..] == [];
      assert AcquiredBy(left[1..]) == {};
    }
  }

  // ---- Rows of different transactions ----

  ghost predicate RowsApart(s: System)
  {
    forall t, u, id :: t in s.live && u in s.live && t != u && HasUpdated(s.live[t], id) ==> !HasUpdated(s.live[u], id)
  }

  lemma {:induction false} StepUpdates(th: Thread, catalog: Catalog, db: Db, id: LotId)
    requires CanStep(th)
    ensures HasUpdated(Step(th, catalog, db), id) ==> HasUpdated(th, id) || RowUpdated(th.todo[0]) == Some(id)
  {
    hide Left;
  }

  lemma {:induction false} NextRowsApart(hash: Hash, catalog: Catalog, s: System, e: Event)
    requires RowsApart(s) && Enabled(hash, s, e)
    ensures RowsApart(Next(hash, catalog, s, e))
  {
    hide HasUpdated, Step, LockFree, RowUpdated;
    if e.Begin? { NothingUpdated(e.jobs, e.clock); }
    if e.Execute? {
      forall id { StepUpdates(s.live[e.id], catalog, s.db, id); }
    }
  }

  lemma {:induction false} NothingUpdated(jobs: seq<Job>, clock: Clock)
    ensures forall id :: !HasUpdated(Fresh(jobs, clock), id)
  {
  }

  /** In every run, no lot row is ever updated by two open transactions. */
  lemma {:induction false} RunRowsApart(hash: Hash, catalog: Catalog, db: Db, es: seq<Event>)
    requires Run(hash, catalog, Start(db), es).Some?
    ensures RowsApart(Run(hash, catalog, Start(db), es).value)
  {
    hide RowsApart, Next, Enabled;
    if es == [] {
      StartRowsApart(db);
    } else {
      var n := |es| - 1;
      RunRowsApart(hash, catalog, db, es[..n]);
      NextRowsApart(hash, catalog, Run(hash, catalog, Start(db), es[..n]).value, es[n]);
    }
  }

  lemma {:induction false} StartRowsApart(db: Db)
    ensures RowsApart(Start(db))
  {
  }
}
