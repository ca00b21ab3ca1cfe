/**
 The units of lot numbers in every interleaving: a committed transfer that chose only lots of the transferred
 product conserves them, whatever lots the transactions beside it chose.
 */
module TransactionLots {
  import opened Prelude
  import opened Ledger
  import opened Stock
  import opened StockTransfers
  import opened Transactions
  import opened TransactionLocks

  // ---- What the statements left to do still add to the counted units ----

  function TaskDrift(task: Task, seen: Db, c: Scope): int
    requires c.number.Some?
  {
    match task
    case Draw(id, quantity) => if Numbered(seen, id, c.number.value) && InScope(id.home, c) then -quantity else 0
    case ReadLot(id, to, quantity) => LotDrift(seen, to, id, quantity, c)
    case FindDestination(to, origin, quantity) =>
      if origin.number == c.number.value && InScope(to, c) then quantity else 0
    case Store(to, origin, quantity, _) => if origin.number == c.number.value && InScope(to, c) then quantity else 0
    case _ => 0
  }

  function TodoDrift(todo: seq<Task>, seen: Db, c: Scope): int
    requires c.number.Some?
  {
    if todo == [] then 0 else TaskDrift(todo[0], seen, c) + TodoDrift(todo[1..], seen, c)
  }

  /** An item of a transfer between counted stores that chose no lot or one of the transferred product. */
  ghost predicate OwnLots(job: Job, c: Scope)
  {
    Aimed(job, c) && (job.pick.Some? ==> (InScope(job.pick.value.home, c) <==> InScope(job.to, c)))
  }

  ghost predicate AllOwnLots(jobs: seq<Job>, c: Scope) { forall i :: 0 <= i < |jobs| ==> OwnLots(jobs[i], c) }

  /** The statement belongs to such a transfer, and the lots it names exist. */
  ghost predicate Fine(task: Task, seen: Db, c: Scope)
  {
    match task
    case Resolve(job) => OwnLots(job, c)
    case OpenLot(_, _, _, _, _) => false
    case Draw(id, _) => FindLot(seen, id).Some?
    case ReadLot(id, to, _) => FindLot(seen, id).Some? && (InScope(id.home, c) <==> InScope(to, c))
    case Store(to, origin, _, Some(twin)) => Numbered(seen, LotId(to, twin), origin.number)
    case _ => true
  }

  ghost predicate AllFine(todo: seq<Task>, seen: Db, c: Scope) { forall task :: task in todo ==> Fine(task, seen, c) }

  lemma {:induction false} DriftJoin(a: seq<Task>, b: seq<Task>, seen: Db, c: Scope)
    requires c.number.Some?
    ensures TodoDrift(a + b, seen, c) == TodoDrift(a, seen, c) + TodoDrift(b, seen, c)
  {
    hide TaskDrift;
    if a == [] {
      assert a + b == b;
    } else {
      assert (a + b)[1..] == a[1..] + b;
      DriftJoin(a[1..], b, seen, c);
    }
  }

  /** Tables in which the lots are kept give the same drift. */
  lemma {:induction false} TaskKept(task: Task, a: Db, b: Db, c: Scope)
    requires c.number.Some? && LotsKept(a, b) && Fine(task, a, c)
    ensures Fine(task, b, c) && TaskDrift(task, b, c) == TaskDrift(task, a, c)
  {
    hide FindLot;
  }

  lemma {:induction false} TodoKept(todo: seq<Task>, a: Db, b: Db, c: Scope)
    requires c.number.Some? && LotsKept(a, b) && AllFine(todo, a, c)
    ensures AllFine(todo, b, c) && TodoDrift(todo, b, c) == TodoDrift(todo, a, c)
  {
    hide LotsKept, Fine, TaskDrift;
    if todo != [] {
      assert todo[0] in todo;
      TaskKept(todo[0], a, b, c);
      TodoKept(todo[1..], a, b, c);
    }
  }

  lemma {:induction false} PlainDrift(todo: seq<Task>, seen: Db, c: Scope)
    requires c.number.Some? && forall task :: task in todo ==> TaskDrift(task, seen, c) == 0
    ensures TodoDrift(todo, seen, c) == 0
  {
    hide TaskDrift;
    if todo != [] {
      assert todo[0] in todo;
      PlainDrift(todo[1..], seen, c);
    }
  }

  // ---- A statement passes on the drift it does not write itself ----

  lemma {:induction false} Together(a: seq<Task>, b: seq<Task>, seen: Db, c: Scope)
    requires c.number.Some? && AllFine(a, seen, c) && AllFine(b, seen, c)
    requires TodoDrift(a, seen, c) == 0 && TodoDrift(b, seen, c) == 0
    ensures AllFine(a + b, seen, c) && TodoDrift(a + b, seen, c) == 0
  {
    hide Fine, TodoDrift;
    DriftJoin(a, b, seen, c);
  }

  lemma {:induction false} OwnLineFine(job: Job, line: Line, seen: Db, c: Scope)
    requires job.Move? && c.number.Some?
    requires line.lot.Some? ==>
      FindLot(seen, line.lot.value).Some? && (InScope(line.lot.value.home, c) <==> InScope(job.to, c))
    ensures AllFine(LineTasks(job, line), seen, c) && TodoDrift(LineTasks(job, line), seen, c) == 0
  {
    hide FindLot, InScope, TodoDrift;
    PlainDrift(LineTasks(job, line), seen, c);
  }

  lemma {:induction false} OwnLinesFine(job: Job, lines: seq<Line>, seen: Db, c: Scope)
    requires job.Move? && c.number.Some? && LotsThere(seen, lines)
    requires forall i :: 0 <= i < |lines| && lines[i].lot.Some? ==>
      (InScope(lines[i].lot.value.home, c) <==> InScope(job.to, c))
    ensures AllFine(LinesTasks(job, lines), seen, c) && TodoDrift(LinesTasks(job, lines), seen, c) == 0
  {
    hide FindLot, InScope, LineTasks, Fine;
    if lines != [] {
      hide TodoDrift, AllFine;
      OwnLinesFine(job, lines[1..], seen, c);
      OwnLineFine(job, lines[0], seen, c);
      Together(LineTasks(job, lines[0]), LinesTasks(job, lines[1..]), seen, c);
    }
  }

  lemma {:induction false} ResolveFine(job: Job, catalog: Catalog, seen: Db, c: Scope)
    requires c.number.Some? && OwnLots(job, c) && Left(Resolve(job), catalog, seen).Some?
    ensures var left := Left(Resolve(job), catalog, seen).value;
            AllFine(left, seen, c) && TodoDrift(left, seen, c) == 0
  {
    hide ResolveExitLines, AllFine, TodoDrift, LinesTasks;
    var p := catalog[job.key.product];
    ResolvedLotsThere(seen, p, job.key, job.quantity, job.pick);
    ResolvedHomes(seen, p, job.key, job.quantity, job.pick);
    var lines := ResolveExitLines(seen, p, job.key, job.quantity, job.pick).value;
    forall i | 0 <= i < |lines| && lines[i].lot.Some?
      ensures InScope(lines[i].lot.value.home, c) <==> InScope(job.to, c)
    {
      assert lines[i] in lines;
    }
    OwnLinesFine(job, lines, seen, c);
  }

  lemma {:induction false} TwoDrift(a: Task, b: Task, seen: Db, c: Scope)
    requires c.number.Some?
    ensures TodoDrift([a], seen, c) == TaskDrift(a, seen, c)
    ensures TodoDrift([a, b], seen, c) == TaskDrift(a, seen, c) + TaskDrift(b, seen, c)
  {
    hide TaskDrift;
    assert [a][1..] == [] && [a, b][1..] == [b] && [b][1..] == [];
    assert TodoDrift([b], seen, c) == TaskDrift(b, seen, c) + TodoDrift([], seen, c);
  }

  lemma {:induction false} TwinNumbered(seen: Db, to: Key, number: string)
    ensures var twin := FindTwin(At(seen, to).lots, number);
            twin.Some? ==> Numbered(seen, LotId(to, twin.value), number)
  {
  }

  /** A statement that only reads leaves all of its drift to do. */
  lemma {:induction false} ReadFine(task: Task, catalog: Catalog, seen: Db, c: Scope)
    requires c.number.Some? && Fine(task, seen, c) && Left(task, catalog, seen).Some?
    requires !task.Draw? && !task.Store?
    ensures var left := Left(task, catalog, seen).value;
            AllFine(left, seen, c) && TodoDrift(left, seen, c) == TaskDrift(task, seen, c)
  {
    hide FindLot, Balance, LinesTasks, ResolveExitLines;
    var left := Left(task, catalog, seen).value;
    if task.Resolve? {
      ResolveFine(task.job, catalog, seen, c);
    } else if |left| == 1 {
      assert left == [left[0]];
      TwoDrift(left[0], left[0], seen, c);
      if task.FindDestination? { TwinNumbered(seen, task.to, task.origin.number); }
    } else if |left| == 2 {
      assert left == [left[0], left[1]];
      TwoDrift(left[0], left[1], seen, c);
    }
  }

  /** The write of a statement changes the counted units by what the statement does not leave to do. */
  lemma {:induction false} WriteFine(task: Task, catalog: Catalog, seen: Db, createdAt: int, c: Scope)
    requires c.number.Some? && Distinct(c.stores) && Fine(task, seen, c) && Left(task, catalog, seen).Some?
    requires Written(task, seen, createdAt).Some?
    ensures var left, after := Left(task, catalog, seen).value, Put(seen, Written(task, seen, createdAt).value);
      && AllFine(left, after, c)
      && HeldOver(after, c) + TodoDrift(left, after, c) == HeldOver(seen, c) + TaskDrift(task, seen, c)
  {
    hide HeldOver, Put, Balance;
    var w := Written(task, seen, createdAt).value;
    match task {
      case Insert(_, _, _, _, _) => RowLeavesHeld(seen, w.row, c);
      case Draw(id, quantity) => AddToLotHeld(seen, id, -quantity, c);
      case Store(to, origin, quantity, twin) =>
        var left := Left(task, catalog, seen).value;
        assert left == [left[0]];
        TwoDrift(left[0], left[0], Put(seen, w), c);
        if twin.Some? {
          AddToLotHeld(seen, LotId(to, twin.value), quantity, c);
        } else {
          CreateLotHeld(seen, to, w.lot, c);
        }
    }
  }

  // ---- One transaction ----

  /** Every lot that is updated exists by then. */
  ghost predicate Found(db: Db, writes: seq<Write>)
  {
    writes == [] ||
    var before, w := writes[..|writes| - 1], writes[|writes| - 1];
    Found(db, before) && (w.AddToLot? ==> FindLot(Apply(db, before), w.id).Some?)
  }

  /** Lots are created in held pairs only. */
  ghost predicate CreatesIn(writes: seq<Write>, held: set<Key>)
  {
    forall w :: w in writes && w.CreateLot? ==> w.home in held
  }

  /** The counted units as the transaction sees them and those it still moves make up the committed ones. */
  ghost predicate Conserves(th: Thread, db: Db, c: Scope)
    requires c.number.Some?
  {
    var seen := Apply(db, th.writes);
    && Found(db, th.writes) && AllFine(th.todo, seen, c)
    && HeldOver(seen, c) + TodoDrift(th.todo, seen, c) == HeldOver(db, c)
  }

  lemma {:induction false} FreshConserves(jobs: seq<Job>, clock: Clock, db: Db, c: Scope)
    requires c.number.Some? && AllOwnLots(jobs, c)
    ensures Conserves(Fresh(jobs, clock), db, c)
  {
    ScriptFine(jobs, db, c);
  }

  lemma {:induction false} ScriptFine(jobs: seq<Job>, seen: Db, c: Scope)
    requires c.number.Some? && AllOwnLots(jobs, c)
    ensures AllFine(Script(jobs), seen, c) && TodoDrift(Script(jobs), seen, c) == 0
  {
    hide OwnLots, JobTasks, Fine;
    if jobs != [] {
      hide TodoDrift, AllFine;
      ScriptFine(jobs[1..], seen, c);
      JobFine(jobs[0], seen, c);
      Together(JobTasks(jobs[0]), Script(jobs[1..]), seen, c);
    }
  }

  lemma {:induction false} JobFine(job: Job, seen: Db, c: Scope)
    requires c.number.Some? && OwnLots(job, c)
    ensures AllFine(JobTasks(job), seen, c) && TodoDrift(JobTasks(job), seen, c) == 0
  {
    hide FindLot, InScope, TodoDrift;
    PlainDrift(JobTasks(job), seen, c);
  }

  lemma {:induction false} StepConserves(th: Thread, catalog: Catalog, db: Db, c: Scope)
    requires c.number.Some? && Distinct(c.stores)
    requires CanStep(th) && Conserves(th, db, c) && !Step(th, catalog, db).failed
    ensures Conserves(Step(th, catalog, db), db, c)
  {
    hide Left, Written, HeldOver, Put, Fine, TaskDrift, LotsKept, TodoDrift;
    var task, rest, seen := th.todo[0], th.todo[1..], Apply(db, th.writes);
    var left, w, next := Left(task, catalog, seen).value, Written(task, seen, th.clock(th.tick)), Step(th, catalog, db);
    var after := Apply(db, next.writes);
    assert task in th.todo;
    DriftJoin([task], rest, seen, c);
    TwoDrift(task, task, seen, c);
    assert [task] + rest == th.todo;
    if w.Some? {
      assert (th.writes + [w.value])[..|th.writes|] == th.writes;
      WriteFine(task, catalog, seen, th.clock(th.tick), c);
      UpdatesFound(task, seen, th.clock(th.tick), c);
      PutKeepsLots(seen, w.value);
      TodoKept(rest, seen, after, c);
    } else {
      WritesOrNot(task, seen, th.clock(th.tick));
      ReadFine(task, catalog, seen, c);
    }
    DriftJoin(left, rest, after, c);
    assert forall t :: t in next.todo ==> t in left || t in rest;
  }

  lemma {:induction false} UpdatesFound(task: Task, seen: Db, createdAt: int, c: Scope)
    requires Fine(task, seen, c) && Written(task, seen, createdAt).Some?
    ensures var w := Written(task, seen, createdAt).value; w.AddToLot? ==> FindLot(seen, w.id).Some?
  {
  }

  lemma {:induction false} WritesOrNot(task: Task, seen: Db, createdAt: int)
    ensures task.Draw? || task.Store? ==> Written(task, seen, createdAt).Some?
  {
  }

  // ---- Another transaction commits ----

  ghost predicate SameCounts(a: Db, b: Db, keys: set<Key>)
  {
    forall k :: k in keys ==> |At(a, k).lots| == |At(b, k).lots|
  }

  lemma {:induction false} ApplyKeepsLots(db: Db, writes: seq<Write>)
    ensures LotsKept(db, Apply(db, writes))
  {
    hide LotsKept, Put;
    if writes == [] {
      SameKept(db);
    } else {
      var before := Apply(db, writes[..|writes| - 1]);
      ApplyKeepsLots(db, writes[..|writes| - 1]);
      PutKeepsLots(before, writes[|writes| - 1]);
      LotsKeptTrans(db, before, Apply(db, writes));
    }
  }

  lemma {:induction false} SameKept(db: Db)
    ensures LotsKept(db, db)
  {
  }

  lemma {:induction false} ApplyKeepsCounts(db: Db, writes: seq<Write>, held: set<Key>, keys: set<Key>)
    requires CreatesIn(writes, held) && keys !! held
    ensures SameCounts(db, Apply(db, writes), keys)
  {
    if writes != [] {
      var n := |writes| - 1;
      assert writes[n] in writes && forall w :: w in writes[..n] ==> w in writes;
      ApplyKeepsCounts(db, writes[..n], held, keys);
    }
  }

  /** The same write on tables that agree on the lots there are. */
  lemma {:induction false} PutBoth(a: Db, b: Db, w: Write, held: set<Key>, c: Scope)
    requires c.number.Some? && Distinct(c.stores) && LotsKept(a, b) && SameCounts(a, b, held)
    requires (w.CreateLot? ==> w.home in held) && (w.AddToLot? ==> FindLot(a, w.id).Some?)
    ensures LotsKept(Put(a, w), Put(b, w)) && SameCounts(Put(a, w), Put(b, w), held)
    ensures HeldOver(Put(b, w), c) - HeldOver(b, c) == HeldOver(Put(a, w), c) - HeldOver(a, c)
  {
    PutBothKept(a, b, w, held);
    hide HeldOver, Put, SameCounts, FindLot;
    match w {
      case InsertMovement(row) =>
        RowLeavesHeld(a, row, c);
        RowLeavesHeld(b, row, c);
      case CreateLot(home, lot) =>
        CreateLotHeld(a, home, lot, c);
        CreateLotHeld(b, home, lot, c);
      case AddToLot(id, delta) =>
        AddToLotHeld(a, id, delta, c);
        AddToLotHeld(b, id, delta, c);
    }
  }

  lemma {:induction false} PutBothKept(a: Db, b: Db, w: Write, held: set<Key>)
    requires LotsKept(a, b) && SameCounts(a, b, held)
    requires (w.CreateLot? ==> w.home in held) && (w.AddToLot? ==> FindLot(a, w.id).Some?)
    ensures LotsKept(Put(a, w), Put(b, w)) && SameCounts(Put(a, w), Put(b, w), held)
  {
    hide Put, FindLot;
    forall id | FindLot(Put(a, w), id).Some?
      ensures FindLot(Put(b, w), id).Some?
      ensures FindLot(Put(b, w), id).value.number == FindLot(Put(a, w), id).value.number
      ensures FindLot(Put(b, w), id).value.expiry == FindLot(Put(a, w), id).value.expiry
    {
      PutFinds(a, w, id);
      PutFinds(b, w, id);
    }
    forall k | k in held ensures |At(Put(a, w), k).lots| == |At(Put(b, w), k).lots| {
      PutCounts(a, w, k);
      PutCounts(b, w, k);
    }
  }

  lemma {:induction false} PutFinds(db: Db, w: Write, id: LotId)
    ensures FindLot(Put(db, w), id) ==
      match w
      case InsertMovement(_) => FindLot(db, id)
      case CreateLot(home, lot) => if id == LotId(home, |At(db, home).lots|) then Some(lot) else FindLot(db, id)
      case AddToLot(lot, delta) =>
        if id == lot && FindLot(db, id).Some? then
          Some(FindLot(db, id).value.(quantity := FindLot(db, id).value.quantity + delta))
        else FindLot(db, id)
  {
  }

  lemma {:induction false} PutCounts(db: Db, w: Write, k: Key)
    ensures |At(Put(db, w), k).lots| == |At(db, k).lots| + if w.CreateLot? && w.home == k then 1 else 0
  {
  }

  /** The writes of a transaction change the counted units alike before and after another one commits. */
  lemma {:induction false} ApplyBoth(a: Db, b: Db, writes: seq<Write>, held: set<Key>, c: Scope)
    requires c.number.Some? && Distinct(c.stores) && LotsKept(a, b) && SameCounts(a, b, held)
    requires CreatesIn(writes, held) && Found(a, writes)
    ensures LotsKept(Apply(a, writes), Apply(b, writes)) && SameCounts(Apply(a, writes), Apply(b, writes), held)
    ensures Found(b, writes)
    ensures HeldOver(Apply(b, writes), c) - HeldOver(b, c) == HeldOver(Apply(a, writes), c) - HeldOver(a, c)
  {
    hide HeldOver, Put, SameCounts, FindLot;
    if writes != [] {
      var n := |writes| - 1;
      assert writes[n] in writes && forall w :: w in writes[..n] ==> w in writes;
      ApplyBoth(a, b, writes[..n], held, c);
      PutBoth(Apply(a, writes[..n]), Apply(b, writes[..n]), writes[n], held, c);
    }
  }

  lemma {:induction false} CommitKeepsConserving(th: Thread, other: Thread, db: Db, c: Scope)
    requires c.number.Some? && Distinct(c.stores) && Conserves(th, db, c) && CreatesIn(th.writes, th.held)
    requires CreatesIn(other.writes, other.held) && th.held !! other.held
    ensures Conserves(th, Apply(db, other.writes), c)
  {
    hide HeldOver, Found, CreatesIn, SameCounts, LotsKept, AllFine, TodoDrift, Apply;
    var after := Apply(db, other.writes);
    ApplyKeepsLots(db, other.writes);
    ApplyKeepsCounts(db, other.writes, other.held, th.held);
    ApplyBoth(db, after, th.writes, th.held, c);
    TodoKept(th.todo, Apply(db, th.writes), Apply(after, th.writes), c);
  }

  // ---- Every run ----

  /** What holds of every transaction: lots are created in held pairs only. */
  ghost predicate Creating(th: Thread)
  {
    CreatesIn(th.writes, th.held) && (!th.failed ==> Covered(false, th.todo, th.held))
  }

  lemma {:induction false} StepCreating(th: Thread, catalog: Catalog, db: Db)
    requires CanStep(th) && Creating(th)
    ensures Creating(Step(th, catalog, db))
  {
    hide Left, Apply;
    var next := Step(th, catalog, db);
    if !next.failed { StepCovered(false, th, catalog, db); }
    forall w | w in next.writes && w.CreateLot? ensures w.home in next.held {
      if w !in th.writes { assert w.home in Needs(false, th.todo[0]); }
    }
  }

  ghost predicate SystemConserves(hash: Hash, db: Db, s: System, c: Scope)
    requires c.number.Some?
  {
    && Separate(hash, s) && s.db == DbAfter(db, s.log)
    && (forall id :: id in s.live ==> Creating(s.live[id]))
    && (forall id :: id in s.live && !s.live[id].failed && AllOwnLots(s.live[id].jobs, c) ==>
          Conserves(s.live[id], s.db, c))
    && (forall i :: 0 <= i < |s.log| && AllOwnLots(s.log[i].jobs, c) ==>
          HeldOver(DbAfter(db, s.log[..i + 1]), c) == HeldOver(DbAfter(db, s.log[..i]), c))
  }

  lemma {:induction false} CommitConserves(hash: Hash, catalog: Catalog, db: Db, s: System, id: nat, c: Scope)
    requires c.number.Some? && Distinct(c.stores)
    requires SystemConserves(hash, db, s, c) && Enabled(hash, s, Commit(id))
    ensures SystemConserves(hash, db, Next(hash, catalog, s, Commit(id)), c)
  {
    hide Separate, HeldOver, Creating, Conserves, AllOwnLots, Apply, LockFree;
    var next, done := Next(hash, catalog, s, Commit(id)), s.live[id];
    NextSeparate(hash, catalog, s, Commit(id));
    forall t | t in next.live && !next.live[t].failed && AllOwnLots(next.live[t].jobs, c)
      ensures Conserves(next.live[t], next.db, c)
    {
      CommitKeeps(hash, s, t, id, c);
    }
    assert next.log[..|next.log|] == next.log && next.log[..|s.log|] == s.log;
    LogGrows(db, s.log, done);
    if AllOwnLots(done.jobs, c) { FinishedConserves(done, s.db, c); }
    forall i | 0 <= i < |next.log| && AllOwnLots(next.log[i].jobs, c)
      ensures HeldOver(DbAfter(db, next.log[..i + 1]), c) == HeldOver(DbAfter(db, next.log[..i]), c)
    {
      if i < |s.log| { assert next.log[..i + 1] == s.log[..i + 1] && next.log[..i] == s.log[..i]; }
    }
  }

  lemma {:induction false} FinishedConserves(th: Thread, db: Db, c: Scope)
    requires c.number.Some? && Finished(th) && Conserves(th, db, c)
    ensures HeldOver(Apply(db, th.writes), c) == HeldOver(db, c)
  {
    hide HeldOver, Apply, Found;
  }

  lemma {:induction false} CommitKeeps(hash: Hash, s: System, t: nat, id: nat, c: Scope)
    requires c.number.Some? && Distinct(c.stores) && Separate(hash, s)
    requires t in s.live && id in s.live && t != id && Creating(s.live[t]) && Creating(s.live[id])
    requires Conserves(s.live[t], s.db, c)
    ensures Conserves(s.live[t], Apply(s.db, s.live[id].writes), c)
  {
    hide Conserves, Apply, Separate, CreatesIn;
    forall k | k in s.live[t].held ensures k !in s.live[id].held { SeparateHeldOnce(hash, s, t, id, k); }
    CommitKeepsConserving(s.live[t], s.live[id], s.db, c);
  }

  lemma {:induction false} NextConserves(hash: Hash, catalog: Catalog, db: Db, s: System, e: Event, c: Scope)
    requires c.number.Some? && Distinct(c.stores)
    requires SystemConserves(hash, db, s, c) && Enabled(hash, s, e)
    ensures SystemConserves(hash, db, Next(hash, catalog, s, e), c)
  {
    hide Separate, HeldOver, Creating, Conserves, AllOwnLots, Apply, Step, DbAfter, Unblocked;
    NextSeparate(hash, catalog, s, e);
    match e {
      case Begin(_, jobs, clock) =>
        FreshCreating(jobs, clock);
        if AllOwnLots(jobs, c) { FreshConserves(jobs, clock, s.db, c); }
      case Execute(id) =>
        StepCreating(s.live[id], catalog, s.db);
        StepOwnLots(s.live[id], catalog, s.db, c);
      case Commit(id) => CommitConserves(hash, catalog, db, s, id, c);
      case Rollback(_) =>
    }
  }

  lemma {:induction false} FreshCreating(jobs: seq<Job>, clock: Clock)
    ensures Creating(Fresh(jobs, clock))
  {
    ScriptCovered(false, jobs, {});
  }

  lemma {:induction false} StepOwnLots(th: Thread, catalog: Catalog, db: Db, c: Scope)
    requires c.number.Some? && Distinct(c.stores) && CanStep(th)
    requires AllOwnLots(th.jobs, c) ==> Conserves(th, db, c)
    ensures var next := Step(th, catalog, db);
            !next.failed && AllOwnLots(next.jobs, c) ==> next.jobs == th.jobs && Conserves(next, db, c)
  {
    hide Conserves, AllOwnLots, Left, Written, Apply;
    if !Step(th, catalog, db).failed && AllOwnLots(th.jobs, c) { StepConserves(th, catalog, db, c); }
  }

  lemma {:induction false} RunConserves(hash: Hash, catalog: Catalog, db: Db, es: seq<Event>, c: Scope)
    requires c.number.Some? && Distinct(c.stores) && Run(hash, catalog, Start(db), es).Some?
    ensures SystemConserves(hash, db, Run(hash, catalog, Start(db), es).value, c)
  {
    hide SystemConserves, Next, Enabled, Distinct;
    if es == [] {
      StartConserves(hash, db, c);
    } else {
      var n := |es| - 1;
      RunConserves(hash, catalog, db, es[..n], c);
      NextConserves(hash, catalog, db, Run(hash, catalog, Start(db), es[..n]).value, es[n], c);
    }
  }

  lemma {:induction false} StartConserves(hash: Hash, db: Db, c: Scope)
    requires c.number.Some?
    ensures SystemConserves(hash, db, Start(db), c)
  {
  }

  /** A committed transfer that chose only lots of the transferred product conserves the units of every lot
      number, in every run and whatever lots the other operations chose. */
  lemma {:induction false} CommittedTransferConservesLots(hash: Hash, catalog: Catalog, db: Db, es: seq<Event>, i: nat,
      tenant: int, origin: int, destination: int, items: seq<TransferLine>, c: Scope)
    requires Run(hash, catalog, Start(db), es).Some?
    requires i < |Run(hash, catalog, Start(db), es).value.log|
    requires Run(hash, catalog, Start(db), es).value.log[i].jobs == TransferJobs(tenant, origin, destination, items)
    requires c.number.Some? && Distinct(c.stores) && origin in c.stores && destination in c.stores
    requires forall j :: 0 <= j < |items| && items[j].pick.Some? ==>
      LotOf(items[j].pick.value, tenant, items[j].product, c.stores)
    ensures var log := Run(hash, catalog, Start(db), es).value.log;
            HeldOver(DbAfter(db, log[..i + 1]), c) == HeldOver(DbAfter(db, log[..i]), c)
  {
    hide Run, HeldOver, DbAfter, Conserves, Creating, Separate;
    RunConserves(hash, catalog, db, es, c);
    var jobs := TransferJobs(tenant, origin, destination, items);
    forall j | 0 <= j < |jobs| ensures OwnLots(jobs[j], c) {
      assert jobs[j] == Move(Key(tenant, items[j].product, origin), Key(tenant, items[j].product, destination),
                             items[j].quantity, items[j].pick);
    }
  }
}
