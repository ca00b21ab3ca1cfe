/**
 No lost update: in every interleaving of any number of stock operations, the committed balances are
 running sums, and only the holder of a pair's lock has uncommitted movements for it.
 */
module TransactionLedger {
  import opened Ledger
  import opened Stock
  import opened StockInvariants
  import opened Transactions
  import opened TransactionLocks

  function RowsOf(db: Db, k: Key): seq<Movement> { At(db, k).rows }

  /** Movements are inserted for held pairs only. */
  ghost predicate InsertsHeld(th: Thread)
  {
    forall w :: w in th.writes && w.InsertMovement? ==> w.row.key in th.held
  }

  ghost predicate NoInsert(todo: seq<Task>) { forall task :: task in todo ==> !task.Insert? }

  /** A balance that was read and not yet used is still the balance. */
  ghost predicate ReadIsCurrent(th: Thread, db: Db)
  {
    th.todo != [] ==>
      && NoInsert(th.todo[1..])
      && (th.todo[0].Insert? ==> th.todo[0].current == CurrentStock(Apply(db, th.writes), th.todo[0].key))
  }

  /** What holds of an open transaction while `db` is committed. */
  ghost predicate ThreadRight(th: Thread, db: Db)
  {
    && InsertsHeld(th)
    && (!th.failed ==>
          Covered(false, th.todo, th.held) && ReadIsCurrent(th, db) && LedgerRight(Apply(db, th.writes)))
  }

  ghost predicate SystemRight(hash: Hash, s: System)
  {
    Separate(hash, s) && LedgerRight(s.db) && forall id :: id in s.live ==> ThreadRight(s.live[id], s.db)
  }

  lemma {:induction false} ApplySameRows(db: Db, other: Db, writes: seq<Write>, k: Key)
    requires RowsOf(db, k) == RowsOf(other, k)
    ensures RowsOf(Apply(db, writes), k) == RowsOf(Apply(other, writes), k)
  {
    if writes != [] { ApplySameRows(db, other, writes[..|writes| - 1], k); }
  }

  lemma {:induction false} ApplyOtherRows(db: Db, writes: seq<Write>, k: Key)
    requires forall w :: w in writes && w.InsertMovement? ==> w.row.key != k
    ensures RowsOf(Apply(db, writes), k) == RowsOf(db, k)
  {
    if writes != [] {
      assert writes[|writes| - 1] in writes;
      ApplyOtherRows(db, writes[..|writes| - 1], k);
    }
  }

  lemma {:induction false} ApplyOne(db: Db, writes: seq<Write>, w: Write)
    ensures Apply(db, writes + [w]) == Put(Apply(db, writes), w)
  {
    assert (writes + [w])[..|writes|] == writes;
  }

  // ---- One transaction's own steps ----

  lemma {:induction false} ScriptNoInsert(jobs: seq<Job>)
    ensures NoInsert(Script(jobs))
  {
    if jobs != [] { ScriptNoInsert(jobs[1..]); }
  }

  lemma {:induction false} FreshRight(jobs: seq<Job>, clock: Clock, db: Db)
    requires LedgerRight(db)
    ensures ThreadRight(Fresh(jobs, clock), db)
  {
    var th := Fresh(jobs, clock);
    ScriptNoInsert(jobs);
    ScriptCovered(false, jobs, {});
    if th.todo != [] { assert th.todo[0] in th.todo; }
  }

  lemma {:induction false} LinesNoInsert(job: Job, lines: seq<Line>)
    requires !job.Credit?
    ensures NoInsert(LinesTasks(job, lines))
  {
    if lines != [] { LinesNoInsert(job, lines[1..]); }
  }

  lemma {:induction false} WriteKeepsLedger(task: Task, seen: Db, createdAt: int)
    requires LedgerRight(seen) && (task.Insert? ==> task.current == CurrentStock(seen, task.key))
    ensures var w := Written(task, seen, createdAt);
            w.Some? ==>
              && LedgerRight(Put(seen, w.value))
              && (w.value.InsertMovement? ==> task.Insert? && w.value.row.key == task.key)
  {
    var w := Written(task, seen, createdAt);
    if w.Some? { PutKeepsLedger(seen, w.value); }
  }

  lemma {:induction false} StepLedger(th: Thread, catalog: Catalog, db: Db)
    requires CanStep(th) && ThreadRight(th, db)
    ensures InsertsHeld(Step(th, catalog, db))
    ensures LedgerRight(Apply(db, Step(th, catalog, db).writes))
  {
    hide Apply, Put, Left, LedgerRight, CurrentStock;
    var task, seen := th.todo[0], Apply(db, th.writes);
    var w := Written(task, seen, th.clock(th.tick));
    WriteKeepsLedger(task, seen, th.clock(th.tick));
    hide Written;
    if w.Some? { ApplyOne(db, th.writes, w.value); }
    if task.Insert? { assert task.key in Needs(false, task); }
  }

  lemma {:induction false} LeftNoInsert(task: Task, catalog: Catalog, seen: Db)
    requires Left(task, catalog, seen).Some?
    ensures var left := Left(task, catalog, seen).value;
            if task.ReadStock? then
              left == [Insert(task.key, task.quantity, task.kind, task.lot, CurrentStock(seen, task.key))]
            else
              NoInsert(left)
  {
    if task.Resolve? {
      var job := task.job;
      LinesNoInsert(job, ResolveExitLines(seen, catalog[job.key.product], job.key, job.quantity, job.pick).value);
    }
  }

  lemma {:induction false} StepReads(th: Thread, catalog: Catalog, db: Db)
    requires CanStep(th) && ThreadRight(th, db) && !Step(th, catalog, db).failed
    ensures ReadIsCurrent(Step(th, catalog, db), db)
  {
    var task, seen, rest := th.todo[0], Apply(db, th.writes), th.todo[1..];
    var left := Left(task, catalog, seen).value;
    var todo := left + rest;
    LeftNoInsert(task, catalog, seen);
    if task.ReadStock? {
      assert todo[1..] == rest;
    } else if todo != [] {
      assert forall t :: t in todo ==> t in left || t in rest;
      assert todo[0] in todo;
    }
  }

  lemma {:induction false} StepRight(th: Thread, catalog: Catalog, db: Db)
    requires CanStep(th) && ThreadRight(th, db)
    ensures ThreadRight(Step(th, catalog, db), db)
  {
    StepLedger(th, catalog, db);
    if !Step(th, catalog, db).failed {
      StepCovered(false, th, catalog, db);
      StepReads(th, catalog, db);
    }
  }

  // ---- Another transaction commits ----

  /** A commit that leaves the movements of the held pairs alone does not disturb a transaction. */
  lemma {:induction false} CommitLeavesThread(th: Thread, db: Db, other: Db)
    requires ThreadRight(th, db) && LedgerRight(other)
    requires forall k :: k in th.held ==> RowsOf(other, k) == RowsOf(db, k)
    ensures ThreadRight(th, other)
  {
    if !th.failed {
      var seen := Apply(other, th.writes);
      forall k ensures ShelfRight(At(seen, k)) {
        if k in th.held {
          ApplySameRows(db, other, th.writes, k);
          assert ShelfRight(At(Apply(db, th.writes), k));
        } else {
          ApplyOtherRows(other, th.writes, k);
          assert ShelfRight(At(other, k));
        }
      }
      if th.todo != [] && th.todo[0].Insert? {
        var k := th.todo[0].key;
        assert k in Needs(false, th.todo[0]);
        ApplySameRows(db, other, th.writes, k);
      }
    }
  }

  lemma {:induction false} CommitRight(hash: Hash, catalog: Catalog, s: System, id: nat)
    requires SystemRight(hash, s) && Enabled(hash, s, Commit(id))
    ensures SystemRight(hash, Next(hash, catalog, s, Commit(id)))
  {
    var next := Next(hash, catalog, s, Commit(id));
    NextSeparate(hash, catalog, s, Commit(id));
    assert ThreadRight(s.live[id], s.db);
    forall t | t in next.live ensures ThreadRight(next.live[t], next.db) {
      forall k | k in s.live[t].held ensures RowsOf(next.db, k) == RowsOf(s.db, k) {
        SeparateHeldOnce(hash, s, t, id, k);
        ApplyOtherRows(s.db, s.live[id].writes, k);
      }
      CommitLeavesThread(s.live[t], s.db, next.db);
    }
  }

  lemma {:induction false} NextRight(hash: Hash, catalog: Catalog, s: System, e: Event)
    requires SystemRight(hash, s) && Enabled(hash, s, e)
    ensures SystemRight(hash, Next(hash, catalog, s, e))
  {
    NextSeparate(hash, catalog, s, e);
    match e {
      case Begin(_, jobs, clock) => FreshRight(jobs, clock, s.db);
      case Execute(id) => StepRight(s.live[id], catalog, s.db);
      case Commit(id) => CommitRight(hash, catalog, s, id);
      case Rollback(_) =>
    }
  }

  lemma {:induction false} RunRight(hash: Hash, catalog: Catalog, start: System, es: seq<Event>)
    requires SystemRight(hash, start) && Run(hash, catalog, start, es).Some?
    ensures SystemRight(hash, Run(hash, catalog, start, es).value)
  {
    if es != [] {
      RunRight(hash, catalog, start, es[..|es| - 1]);
      NextRight(hash, catalog, Run(hash, catalog, start, es[..|es| - 1]).value, es[|es| - 1]);
    }
  }

  ghost predicate HasMovement(th: Thread, k: Key)
  {
    exists w :: w in th.writes && w.InsertMovement? && w.row.key == k
  }

  /** An open transaction with movements for a pair holds its lock, and no other one has any. */
  ghost predicate Exclusive(s: System)
  {
    && (forall id, k :: id in s.live && HasMovement(s.live[id], k) ==> k in s.live[id].held)
    && (forall id, u, k :: id in s.live && u in s.live && id != u && HasMovement(s.live[id], k) ==>
          !HasMovement(s.live[u], k))
  }

  lemma {:induction false} RightIsExclusive(hash: Hash, s: System)
    requires SystemRight(hash, s)
    ensures Exclusive(s)
  {
    forall id, k | id in s.live && HasMovement(s.live[id], k) ensures k in s.live[id].held {
      assert InsertsHeld(s.live[id]);
    }
    forall id, u, k | id in s.live && u in s.live && id != u && HasMovement(s.live[id], k)
      ensures !HasMovement(s.live[u], k)
    {
      if HasMovement(s.live[u], k) {
        SeparateHeldOnce(hash, s, id, u, k);
        assert false;
      }
    }
  }

  /** In every interleaving, each committed movement of a pair whose timestamps follow its rows
      carries the sum of the quantities up to and including it, and uncommitted movements of a pair
      belong to the one transaction that holds its lock. The hash of the lock is arbitrary, and
      explicitly chosen lots may belong to any pair. */
  lemma {:induction false} NoLostUpdate(hash: Hash, catalog: Catalog, db: Db, es: seq<Event>, k: Key)
    requires LedgerRight(db) && Run(hash, catalog, Start(db), es).Some?
    ensures var s := Run(hash, catalog, Start(db), es).value;
            && (Chronological(RowsOf(s.db, k)) ==>
                  RunningSums(RowsOf(s.db, k)) && CurrentStock(s.db, k) == Units(RowsOf(s.db, k)))
            && Exclusive(s)
  {
    RunRight(hash, catalog, Start(db), es);
    var s := Run(hash, catalog, Start(db), es).value;
    RightIsExclusive(hash, s);
    assert ShelfRight(At(s.db, k));
    if Chronological(RowsOf(s.db, k)) { BalanceIsUnits(RowsOf(s.db, k)); }
  }
}
