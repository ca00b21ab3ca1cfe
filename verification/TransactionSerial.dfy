/**
 Strict two-phase locking makes the interleaved operations serial: the committed tables are what the
 committed operations produce when they run alone, one after another, in commit order. What is
 proved of the operations run alone then holds in every interleaving.
 */
module TransactionSerial {
  import opened Prelude
  import opened Ledger
  import opened Stock
  import opened Transactions
  import opened TransactionLocks
  import opened TransactionLedger

  // ---- What the statements left to do amount to ----

  function Deliver(v: View, clock: Clock, to: Key, quantity: int, deposited: (View, LotId)): View
  {
    Post(deposited.0, clock, to, quantity, TransferIn, Some(deposited.1))
  }

  /** The effect of a statement together with what it leaves in its place. */
  function Effect(v: View, catalog: Catalog, clock: Clock, task: Task): Result<View, StockError>
  {
    match task
    case Lock(_) => Ok(v)
    case FindProduct(product) => if product in catalog then Ok(v) else Err(UnknownProduct)
    case Resolve(job) =>
      if job.Credit? || job.key.product !in catalog then Err(UnknownProduct)
      else
        (match ResolveExitLines(v.db, catalog[job.key.product], job.key, job.quantity, job.pick)
         case Err(e) => Err(e)
         case Ok(lines) => Ok(DoLines(v, clock, job, lines)))
    case ReadStock(key, quantity, kind, lot) => Ok(Post(v, clock, key, quantity, kind, lot))
    case Insert(key, quantity, kind, lot, current) =>
      var row := Movement(key, quantity, current + quantity, kind, lot, clock(v.tick));
      Ok(View(Put(v.db, InsertMovement(row)), v.tick + 1, v.items))
    case OpenLot(key, number, expiry, quantity, kind) =>
      Ok(CreditLot(v, clock, Credit(key, quantity, kind, Some((number, expiry)))))
    case Draw(id, quantity) => Ok(Change(v, AddToLot(id, -quantity)))
    case ReadLot(id, to, quantity) => Ok(ReceiveLot(v, clock, to, id, quantity))
    case FindDestination(to, origin, quantity) => Ok(Deliver(v, clock, to, quantity, Deposit(v, to, origin, quantity)))
    case Store(to, origin, quantity, twin) =>
      var id := LotId(to, twin.GetOr(|At(v.db, to).lots|));
      var w := if twin.Some? then AddToLot(id, quantity)
               else CreateLot(to, Lot(origin.number, origin.expiry, quantity));
      Ok(Post(Change(v, w), clock, to, quantity, TransferIn, Some(id)))
    case Persist(item) => Ok(AddItem(v, item))
  }

  function Outcome(v: View, catalog: Catalog, clock: Clock, todo: seq<Task>): Result<View, StockError>
    decreases |todo|
  {
    if todo == [] then Ok(v)
    else
      match Effect(v, catalog, clock, todo[0])
      case Err(e) => Err(e)
      case Ok(v1) => Outcome(v1, catalog, clock, todo[1..])
  }

  lemma {:induction false} OutcomeJoin(v: View, catalog: Catalog, clock: Clock, a: seq<Task>, b: seq<Task>)
    ensures Outcome(v, catalog, clock, a + b) ==
      match Outcome(v, catalog, clock, a)
      case Err(e) => Err(e)
      case Ok(v1) => Outcome(v1, catalog, clock, b)
    decreases |a|
  {
    if a == [] {
      assert a + b == b;
    } else {
      assert (a + b)[1..] == a[1..] + b;
      match Effect(v, catalog, clock, a[0]) {
        case Err(_) =>
        case Ok(v1) => OutcomeJoin(v1, catalog, clock, a[1..], b);
      }
    }
  }

  lemma {:induction false} OutcomeFirst(v: View, catalog: Catalog, clock: Clock, todo: seq<Task>)
    requires todo != []
    ensures Outcome(v, catalog, clock, todo) ==
      match Effect(v, catalog, clock, todo[0])
      case Err(e) => Err(e)
      case Ok(v1) => Outcome(v1, catalog, clock, todo[1..])
  {
  }

  lemma {:induction false} OutcomeOne(v: View, catalog: Catalog, clock: Clock, a: Task)
    ensures Outcome(v, catalog, clock, [a]) == Effect(v, catalog, clock, a)
  {
    assert [a][1..] == [];
  }

  lemma {:induction false} OutcomeTwo(v: View, catalog: Catalog, clock: Clock, a: Task, b: Task)
    ensures Outcome(v, catalog, clock, [a, b]) ==
      match Effect(v, catalog, clock, a)
      case Err(e) => Err(e)
      case Ok(v1) => Effect(v1, catalog, clock, b)
  {
    assert [a, b][1..] == [b];
    match Effect(v, catalog, clock, a) {
      case Err(_) =>
      case Ok(v1) => OutcomeOne(v1, catalog, clock, b);
    }
  }

  lemma {:induction false} OutcomeThree(v: View, v1: View, v2: View, catalog: Catalog, clock: Clock, a: Task,
      b: Task, c: Task)
    requires Effect(v, catalog, clock, a) == Ok(v1) && Effect(v1, catalog, clock, b) == Ok(v2)
    ensures Outcome(v, catalog, clock, [a, b, c]) == Effect(v2, catalog, clock, c)
  {
    assert [a, b, c][1..] == [b, c];
    OutcomeTwo(v1, catalog, clock, b, c);
  }

  lemma {:induction false} DebitOutcome(v: View, catalog: Catalog, clock: Clock, job: Job, line: Line)
    requires job.Debit?
    ensures Outcome(v, catalog, clock, DebitTasks(job, line)) == Ok(DebitLine(v, clock, job, line))
  {
    var tasks := DebitTasks(job, line);
    var v1 := Post(v, clock, job.key, -line.quantity, job.kind, line.lot);
    if |tasks| == 1 {
      assert tasks == [tasks[0]];
      OutcomeOne(v, catalog, clock, tasks[0]);
    } else if |tasks| == 2 {
      assert tasks == [tasks[0], tasks[1]];
      OutcomeTwo(v, catalog, clock, tasks[0], tasks[1]);
    } else {
      assert tasks == [tasks[0], tasks[1], tasks[2]];
      OutcomeThree(v, v1, Change(v1, AddToLot(line.lot.value, -line.quantity)),
        catalog, clock, tasks[0], tasks[1], tasks[2]);
    }
  }

  lemma {:induction false} ReceiveOutcome(v: View, catalog: Catalog, clock: Clock, job: Job, line: Line)
    requires job.Move?
    ensures Effect(v, catalog, clock, MoveTasks(job, line)[1]) == Ok(Receive(v, clock, job.to, line))
  {
  }

  lemma {:induction false} MoveOutcome(v: View, catalog: Catalog, clock: Clock, job: Job, line: Line)
    requires job.Move?
    ensures Outcome(v, catalog, clock, MoveTasks(job, line)) == Ok(MoveLine(v, clock, job, line))
  {
    hide Outcome, Receive, Post;
    var tasks := MoveTasks(job, line);
    var v1 := Post(v, clock, job.key, -line.quantity, TransferOut, line.lot);
    ReceiveOutcome(v1, catalog, clock, job, line);
    OutcomeThree(v, v1, Receive(v1, clock, job.to, line), catalog, clock, tasks[0], tasks[1], tasks[2]);
  }

  lemma {:induction false} LinesOutcome(v: View, catalog: Catalog, clock: Clock, job: Job, lines: seq<Line>)
    requires !job.Credit?
    ensures Outcome(v, catalog, clock, LinesTasks(job, lines)) == Ok(DoLines(v, clock, job, lines))
    decreases |lines|
  {
    if lines != [] {
      var v1 := DoLine(v, clock, job, lines[0]);
      if job.Debit? {
        DebitOutcome(v, catalog, clock, job, lines[0]);
      } else {
        MoveOutcome(v, catalog, clock, job, lines[0]);
      }
      OutcomeJoin(v, catalog, clock, LineTasks(job, lines[0]), LinesTasks(job, lines[1..]));
      LinesOutcome(v1, catalog, clock, job, lines[1..]);
    }
  }

  lemma {:induction false} JobOutcome(v: View, catalog: Catalog, clock: Clock, job: Job)
    ensures Outcome(v, catalog, clock, JobTasks(job)) == DoJob(v, catalog, clock, job)
  {
    var tasks := JobTasks(job);
    match job {
      case Credit(_, _, _, _) =>
        assert tasks == [tasks[0], tasks[1]];
        OutcomeTwo(v, catalog, clock, tasks[0], tasks[1]);
      case Debit(_, _, _, _, _) =>
        assert tasks == [tasks[0]] + [tasks[1], tasks[2]];
        OutcomeJoin(v, catalog, clock, [tasks[0]], [tasks[1], tasks[2]]);
        OutcomeOne(v, catalog, clock, tasks[0]);
        OutcomeTwo(v, catalog, clock, tasks[1], tasks[2]);
      case Move(_, _, _, _) =>
        assert tasks == [tasks[0], tasks[1]] + [tasks[2], tasks[3]];
        OutcomeJoin(v, catalog, clock, [tasks[0], tasks[1]], [tasks[2], tasks[3]]);
        OutcomeTwo(v, catalog, clock, tasks[0], tasks[1]);
        OutcomeTwo(v, catalog, clock, tasks[2], tasks[3]);
    }
  }

  /** The statements of an operation amount to the operation. */
  lemma {:induction false} ScriptOutcome(v: View, catalog: Catalog, clock: Clock, jobs: seq<Job>)
    ensures Outcome(v, catalog, clock, Script(jobs)) == DoJobs(v, catalog, clock, jobs)
    decreases |jobs|
  {
    if jobs != [] {
      JobOutcome(v, catalog, clock, jobs[0]);
      OutcomeJoin(v, catalog, clock, JobTasks(jobs[0]), Script(jobs[1..]));
      match DoJob(v, catalog, clock, jobs[0]) {
        case Err(_) =>
        case Ok(v1) => ScriptOutcome(v1, catalog, clock, jobs[1..]);
      }
    }
  }

  // ---- A statement does not change what the transaction will amount to ----

  function Predicted(th: Thread, catalog: Catalog, db: Db): Result<View, StockError>
  {
    Outcome(Sees(th, db), catalog, th.clock, th.todo)
  }

  /** The view after a statement itself, before what is left of it. */
  function Executed(v: View, clock: Clock, task: Task): View
  {
    var w := Written(task, v.db, clock(v.tick));
    View(if w.Some? then Put(v.db, w.value) else v.db,
         v.tick + (if task.Insert? then 1 else 0),
         v.items + if task.Persist? then [task.item] else [])
  }

  /** Executing a statement and then what is left of it is the statement's effect. */
  ghost predicate LeavesRest(v: View, catalog: Catalog, clock: Clock, task: Task)
  {
    match Left(task, catalog, v.db)
    case None => Effect(v, catalog, clock, task).Err?
    case Some(left) => Outcome(Executed(v, clock, task), catalog, clock, left) == Effect(v, catalog, clock, task)
  }

  lemma {:induction false} ResolveLeaves(v: View, catalog: Catalog, clock: Clock, task: Task)
    requires task.Resolve?
    ensures LeavesRest(v, catalog, clock, task)
  {
    hide DoLines, ResolveExitLines, Outcome, LinesTasks;
    var job := task.job;
    assert v.items + [] == v.items;
    if Left(task, catalog, v.db).Some? {
      LinesOutcome(v, catalog, clock, job,
        ResolveExitLines(v.db, catalog[job.key.product], job.key, job.quantity, job.pick).value);
    }
  }

  lemma {:induction false} LotLeaves(v: View, catalog: Catalog, clock: Clock, task: Task)
    requires task.FindDestination? || task.Store?
    ensures LeavesRest(v, catalog, clock, task)
  {
    hide Balance, FindTwin;
    assert v.items + [] == v.items;
    OutcomeOne(Executed(v, clock, task), catalog, clock, Left(task, catalog, v.db).value[0]);
  }

  lemma {:induction false} ReadLotLeaves(v: View, catalog: Catalog, clock: Clock, task: Task)
    requires task.ReadLot?
    ensures LeavesRest(v, catalog, clock, task)
  {
    hide Balance, FindTwin, Post, Put, Outcome;
    assert v.items + [] == v.items;
    var left := Left(task, catalog, v.db).value;
    OutcomeTwo(Executed(v, clock, task), catalog, clock, left[0], left[1]);
  }

  lemma {:induction false} RowLeaves(v: View, catalog: Catalog, clock: Clock, task: Task)
    requires task.ReadStock? || task.OpenLot?
    ensures LeavesRest(v, catalog, clock, task)
  {
    hide Balance;
    assert v.items + [] == v.items;
    OutcomeOne(Executed(v, clock, task), catalog, clock, Left(task, catalog, v.db).value[0]);
  }

  lemma {:induction false} LastLeaves(v: View, catalog: Catalog, clock: Clock, task: Task)
    requires task.Lock? || task.FindProduct? || task.Insert? || task.Draw? || task.Persist?
    ensures LeavesRest(v, catalog, clock, task)
  {
    hide Balance;
    assert v.items + [] == v.items;
  }

  lemma {:induction false} LeftOutcome(v: View, catalog: Catalog, clock: Clock, task: Task)
    ensures LeavesRest(v, catalog, clock, task)
  {
    hide *;
    match task {
      case Resolve(_) => ResolveLeaves(v, catalog, clock, task);
      case ReadLot(_, _, _) => ReadLotLeaves(v, catalog, clock, task);
      case FindDestination(_, _, _) => LotLeaves(v, catalog, clock, task);
      case Store(_, _, _, _) => LotLeaves(v, catalog, clock, task);
      case ReadStock(_, _, _, _) => RowLeaves(v, catalog, clock, task);
      case OpenLot(_, _, _, _, _) => RowLeaves(v, catalog, clock, task);
      case _ => LastLeaves(v, catalog, clock, task);
    }
  }

  lemma {:induction false} StepExecutes(th: Thread, catalog: Catalog, db: Db)
    requires CanStep(th)
    ensures var next, left := Step(th, catalog, db), Left(th.todo[0], catalog, Sees(th, db).db);
            if left.None? then next.failed
            else
              && !next.failed && next.todo == left.value + th.todo[1..] && next.clock == th.clock
              && Sees(next, db) == Executed(Sees(th, db), th.clock, th.todo[0])
  {
    hide Left, Written, Put, Apply;
    var w := Written(th.todo[0], Apply(db, th.writes), th.clock(th.tick));
    if w.Some? { ApplyOne(db, th.writes, w.value); }
  }

  lemma {:induction false} StepPredicts(th: Thread, catalog: Catalog, db: Db)
    requires CanStep(th)
    ensures var next := Step(th, catalog, db);
            if next.failed then Predicted(th, catalog, db).Err?
            else Predicted(next, catalog, db) == Predicted(th, catalog, db)
  {
    hide Effect, Outcome, Left, Executed, Sees, Step;
    var task, v := th.todo[0], Sees(th, db);
    OutcomeFirst(v, catalog, th.clock, th.todo);
    LeftOutcome(v, catalog, th.clock, task);
    StepExecutes(th, catalog, db);
    if Left(task, catalog, v.db).Some? {
      OutcomeJoin(Executed(v, th.clock, task), catalog, th.clock, Left(task, catalog, v.db).value, th.todo[1..]);
    }
  }

  // ---- A transaction alone on fixed tables ----

  /** A transaction after `n` statements while `db` stays committed. */
  ghost function Alone(jobs: seq<Job>, clock: Clock, n: nat, catalog: Catalog, db: Db): Option<Thread>
  {
    if n == 0 then Some(Fresh(jobs, clock))
    else
      match Alone(jobs, clock, n - 1, catalog, db)
      case None => None
      case Some(th) => if CanStep(th) then Some(Step(th, catalog, db)) else None
  }

  ghost predicate WritesHeld(th: Thread) { forall w :: w in th.writes ==> Target(w) in th.held }

  lemma {:induction false} AlonePredicts(jobs: seq<Job>, clock: Clock, n: nat, catalog: Catalog, db: Db)
    requires Alone(jobs, clock, n, catalog, db).Some?
    ensures var th := Alone(jobs, clock, n, catalog, db).value;
            && th.jobs == jobs && th.clock == clock && th.steps == n
            && if th.failed then Transact(db, catalog, clock, jobs).Err?
               else Predicted(th, catalog, db) == Transact(db, catalog, clock, jobs)
  {
    if n == 0 {
      ScriptOutcome(View(db, 0, []), catalog, clock, jobs);
    } else {
      AlonePredicts(jobs, clock, n - 1, catalog, db);
      StepPredicts(Alone(jobs, clock, n - 1, catalog, db).value, catalog, db);
    }
  }

  lemma {:induction false} WrittenTarget(task: Task, seen: Db, createdAt: int)
    ensures var w := Written(task, seen, createdAt); w.Some? ==> Target(w.value) in Needs(true, task)
  {
  }

  lemma {:induction false} AloneCovered(jobs: seq<Job>, clock: Clock, n: nat, catalog: Catalog, db: Db)
    requires LotsLocked(jobs, {}) && Alone(jobs, clock, n, catalog, db).Some?
    ensures var th := Alone(jobs, clock, n, catalog, db).value;
            WritesHeld(th) && (!th.failed ==> Covered(true, th.todo, th.held))
  {
    if n == 0 {
      ScriptCovered(true, jobs, {});
    } else {
      var th := Alone(jobs, clock, n - 1, catalog, db).value;
      AloneCovered(jobs, clock, n - 1, catalog, db);
      if !Step(th, catalog, db).failed { StepCovered(true, th, catalog, db); }
      WrittenTarget(th.todo[0], Apply(db, th.writes), th.clock(th.tick));
    }
  }

  ghost predicate Agree(a: Db, b: Db, keys: set<Key>) { forall k :: k in keys ==> At(a, k) == At(b, k) }

  lemma {:induction false} ApplyAgree(a: Db, b: Db, writes: seq<Write>, keys: set<Key>)
    requires Agree(a, b, keys)
    ensures Agree(Apply(a, writes), Apply(b, writes), keys)
  {
    if writes != [] { ApplyAgree(a, b, writes[..|writes| - 1], keys); }
  }

  lemma {:induction false} LeftAgree(task: Task, catalog: Catalog, a: Db, b: Db, createdAt: int)
    requires Agree(a, b, Needs(true, task))
    ensures Left(task, catalog, a) == Left(task, catalog, b)
    ensures Written(task, a, createdAt) == Written(task, b, createdAt)
  {
    if task.Resolve? && !task.job.Credit? && task.job.key.product in catalog {
      ResolveAgree(a, b, catalog[task.job.key.product], task.job.key, task.job.quantity, task.job.pick);
    }
  }

  lemma {:induction false} ResolveAgree(a: Db, b: Db, perishable: bool, k: Key, quantity: int, pick: Option<LotId>)
    requires At(a, k) == At(b, k) && (pick.Some? ==> At(a, pick.value.home) == At(b, pick.value.home))
    ensures ResolveExitLines(a, perishable, k, quantity, pick) == ResolveExitLines(b, perishable, k, quantity, pick)
  {
  }

  /** What a transaction has done depends only on the committed rows of the pairs it holds. */
  lemma {:induction false} AloneStable(jobs: seq<Job>, clock: Clock, n: nat, catalog: Catalog, a: Db, b: Db)
    requires LotsLocked(jobs, {}) && Alone(jobs, clock, n, catalog, a).Some?
    requires Agree(a, b, Alone(jobs, clock, n, catalog, a).value.held)
    ensures Alone(jobs, clock, n, catalog, b) == Alone(jobs, clock, n, catalog, a)
  {
    hide Step, Covered, WritesHeld, LotsLocked, At;
    if n > 0 {
      var th := Alone(jobs, clock, n - 1, catalog, a).value;
      StepHolds(th, catalog, a);
      AloneStable(jobs, clock, n - 1, catalog, a, b);
      AloneCovered(jobs, clock, n - 1, catalog, a);
      StepAgree(th, catalog, a, b);
    }
  }

  lemma {:induction false} StepHolds(th: Thread, catalog: Catalog, db: Db)
    requires CanStep(th)
    ensures th.held <= Step(th, catalog, db).held
  {
    hide Left, Written;
  }

  lemma {:induction false} StepAgree(th: Thread, catalog: Catalog, a: Db, b: Db)
    requires CanStep(th) && Covered(true, th.todo, th.held) && Agree(a, b, th.held)
    ensures Step(th, catalog, a) == Step(th, catalog, b)
  {
    hide Left, Written;
    ApplyAgree(a, b, th.writes, th.held);
    LeftAgree(th.todo[0], catalog, Apply(a, th.writes), Apply(b, th.writes), th.clock(th.tick));
  }

  // ---- The whole system ----

  /** `th` is what a transaction that runs alone on `db` has come to. */
  ghost predicate AsAlone(th: Thread, catalog: Catalog, db: Db)
  {
    LotsLocked(th.jobs, {}) && Alone(th.jobs, th.clock, th.steps, catalog, db) == Some(th)
  }

  ghost predicate SystemSerial(hash: Hash, catalog: Catalog, db: Db, s: System)
  {
    && Separate(hash, s)
    && s.db == DbAfter(db, s.log)
    && (forall id :: id in s.live ==> AsAlone(s.live[id], catalog, s.db))
    && (forall i :: 0 <= i < |s.log| ==> Finished(s.log[i]) && AsAlone(s.log[i], catalog, DbAfter(db, s.log[..i])))
  }

  lemma {:induction false} ApplyElsewhere(db: Db, writes: seq<Write>, k: Key)
    requires forall w :: w in writes ==> Target(w) != k
    ensures At(Apply(db, writes), k) == At(db, k)
  {
    if writes != [] {
      assert writes[|writes| - 1] in writes;
      ApplyElsewhere(db, writes[..|writes| - 1], k);
    }
  }

  /** A commit changes nothing for a transaction that is still open: they hold different pairs. */
  lemma {:induction false} CommitLeavesAlone(hash: Hash, catalog: Catalog, db: Db, s: System, id: nat, t: nat)
    requires SystemSerial(hash, catalog, db, s) && id in s.live && t in s.live && t != id
    ensures AsAlone(s.live[t], catalog, Apply(s.db, s.live[id].writes))
  {
    hide Alone, Apply, At, LotsLocked, Separate;
    var done, th := s.live[id], s.live[t];
    AloneCovered(done.jobs, done.clock, done.steps, catalog, s.db);
    forall k | k in th.held ensures At(s.db, k) == At(Apply(s.db, done.writes), k) {
      SeparateHeldOnce(hash, s, t, id, k);
      ApplyElsewhere(s.db, done.writes, k);
    }
    AloneStable(th.jobs, th.clock, th.steps, catalog, s.db, Apply(s.db, done.writes));
  }

  lemma {:induction false} CommitSerial(hash: Hash, catalog: Catalog, db: Db, s: System, id: nat)
    requires SystemSerial(hash, catalog, db, s) && Enabled(hash, s, Commit(id))
    ensures SystemSerial(hash, catalog, db, Next(hash, catalog, s, Commit(id)))
  {
    hide AsAlone, Apply, Separate, LockFree;
    var next := Next(hash, catalog, s, Commit(id));
    NextSeparate(hash, catalog, s, Commit(id));
    assert next.log[..|s.log|] == s.log;
    forall t | t in next.live ensures AsAlone(next.live[t], catalog, next.db) {
      CommitLeavesAlone(hash, catalog, db, s, id, t);
    }
    forall i | 0 <= i < |next.log|
      ensures Finished(next.log[i]) && AsAlone(next.log[i], catalog, DbAfter(db, next.log[..i]))
    {
      if i < |s.log| {
        assert next.log[..i] == s.log[..i] && next.log[i] == s.log[i];
      } else {
        assert next.log[..i] == s.log;
      }
    }
  }

  lemma {:induction false} StepKeepsRequest(th: Thread, catalog: Catalog, db: Db)
    requires CanStep(th)
    ensures var next := Step(th, catalog, db);
            next.jobs == th.jobs && next.clock == th.clock && next.steps == th.steps + 1
  {
  }

  lemma {:induction false} ExecuteAsAlone(th: Thread, catalog: Catalog, db: Db)
    requires AsAlone(th, catalog, db) && CanStep(th)
    ensures AsAlone(Step(th, catalog, db), catalog, db)
  {
    StepKeepsRequest(th, catalog, db);
    assert Alone(th.jobs, th.clock, th.steps + 1, catalog, db) == Some(Step(th, catalog, db));
  }

  lemma {:induction false} NextSerial(hash: Hash, catalog: Catalog, db: Db, s: System, e: Event)
    requires SystemSerial(hash, catalog, db, s) && Enabled(hash, s, e) && (e.Begin? ==> LotsLocked(e.jobs, {}))
    ensures SystemSerial(hash, catalog, db, Next(hash, catalog, s, e))
  {
    if e.Commit? {
      CommitSerial(hash, catalog, db, s, e.id);
    } else {
      var next := Next(hash, catalog, s, e);
      NextSeparate(hash, catalog, s, e);
      forall t | t in next.live ensures AsAlone(next.live[t], catalog, next.db) {
        if e.Execute? && t == e.id { ExecuteAsAlone(s.live[t], catalog, s.db); }
      }
    }
  }

  lemma {:induction false} RunSerial(hash: Hash, catalog: Catalog, db: Db, es: seq<Event>)
    requires LotsRespected(es) && Run(hash, catalog, Start(db), es).Some?
    ensures SystemSerial(hash, catalog, db, Run(hash, catalog, Start(db), es).value)
  {
    if es != [] {
      var n := |es| - 1;
      RunSerial(hash, catalog, db, es[..n]);
      NextSerial(hash, catalog, db, Run(hash, catalog, Start(db), es[..n]).value, es[n]);
    }
  }

  /** Run alone on `before`, the operation of `th` succeeds and produces `after`. */
  ghost predicate ProducesAlone(catalog: Catalog, before: Db, th: Thread, after: Db)
  {
    Transact(before, catalog, th.clock, th.jobs) == Ok(View(after, th.tick, th.items))
  }

  lemma {:induction false} FinishedProduces(catalog: Catalog, before: Db, th: Thread)
    requires AsAlone(th, catalog, before) && Finished(th)
    ensures ProducesAlone(catalog, before, th, Apply(before, th.writes))
  {
    hide Alone, Transact, LotsLocked;
    AlonePredicts(th.jobs, th.clock, th.steps, catalog, before);
  }

  /** Committed operations are serial in commit order: each one, run alone on the tables that the
      ones before it produced, succeeds and produces exactly what was committed. */
  lemma {:induction false} CommitOrderIsSerial(hash: Hash, catalog: Catalog, db: Db, es: seq<Event>)
    requires LotsRespected(es) && Run(hash, catalog, Start(db), es).Some?
    ensures var s := Run(hash, catalog, Start(db), es).value;
            && s.db == DbAfter(db, s.log)
            && forall i :: 0 <= i < |s.log| ==>
                 ProducesAlone(catalog, DbAfter(db, s.log[..i]), s.log[i], DbAfter(db, s.log[..i + 1]))
  {
    hide Run, AsAlone, ProducesAlone, Apply, LotsRespected, Finished;
    RunSerial(hash, catalog, db, es);
    var s := Run(hash, catalog, Start(db), es).value;
    forall i | 0 <= i < |s.log|
      ensures ProducesAlone(catalog, DbAfter(db, s.log[..i]), s.log[i], DbAfter(db, s.log[..i + 1]))
    {
      FinishedProduces(catalog, DbAfter(db, s.log[..i]), s.log[i]);
      assert s.log[..i + 1][..i] == s.log[..i];
    }
  }
}
