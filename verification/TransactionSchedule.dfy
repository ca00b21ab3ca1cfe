/** How to bring an open transaction to a chosen statement while nobody commits. */
module TransactionSchedule {
  import opened Prelude
  import opened Ledger
  import opened Stock
  import opened Transactions
  import opened TransactionLocks
  import opened TransactionSerial

  /** A transaction after n more statements while `db` stays committed. */
  ghost function Advanced(th: Thread, n: nat, catalog: Catalog, db: Db): Option<Thread>
  {
    if n == 0 then Some(th)
    else
      match Advanced(th, n - 1, catalog, db)
      case None => None
      case Some(t) => if CanStep(t) then Some(Step(t, catalog, db)) else None
  }

  lemma {:induction false} AdvancedJoin(th: Thread, m: nat, mid: Thread, n: nat, catalog: Catalog, db: Db)
    requires Advanced(th, m, catalog, db) == Some(mid)
    ensures Advanced(th, m + n, catalog, db) == Advanced(mid, n, catalog, db)
  {
    hide Step, CanStep;
    if n > 0 { AdvancedJoin(th, m, mid, n - 1, catalog, db); }
  }

  /** How often a statement can be replaced by what it leaves to do. */
  function Rank(task: Task): nat
  {
    match task
    case Resolve(_) => 5
    case ReadLot(_, _, _) => 4
    case FindDestination(_, _, _) => 3
    case Store(_, _, _, _) => 2
    case OpenLot(_, _, _, _, _) => 2
    case ReadStock(_, _, _, _) => 1
    case _ => 0
  }

  ghost predicate Ranked(todo: seq<Task>, rank: int) { forall task :: task in todo ==> Rank(task) <= rank }

  lemma {:induction false} LinesRanked(job: Job, lines: seq<Line>)
    requires !job.Credit?
    ensures Ranked(LinesTasks(job, lines), 4)
  {
    if lines != [] { LinesRanked(job, lines[1..]); }
  }

  lemma {:induction false} LeftRanked(task: Task, catalog: Catalog, seen: Db)
    requires Left(task, catalog, seen).Some?
    ensures Ranked(Left(task, catalog, seen).value, Rank(task) - 1)
  {
    hide FindTwin, Balance;
    if task.Resolve? {
      var job := task.job;
      LinesRanked(job, ResolveExitLines(seen, catalog[job.key.product], job.key, job.quantity, job.pick).value);
    }
  }

  lemma {:induction false} StepSees(th: Thread, catalog: Catalog, db: Db)
    requires CanStep(th) && Left(th.todo[0], catalog, Apply(db, th.writes)).Some?
    ensures Sees(Step(th, catalog, db), db) == Executed(Sees(th, db), th.clock, th.todo[0])
  {
    hide Left, Written;
    var w := Written(th.todo[0], Apply(db, th.writes), th.clock(th.tick));
    assert th.items + [] == th.items;
    if w.Some? { assert (th.writes + [w.value])[..|th.writes|] == th.writes; }
  }

  /** The transaction has done `a`: its locks are taken and its effect is what it sees. */
  ghost predicate Reached(th: Thread, out: Thread, a: seq<Task>, b: seq<Task>, catalog: Catalog, db: Db)
  {
    && !out.failed && out.todo == b && out.jobs == th.jobs && out.clock == th.clock
    && out.held == th.held + AcquiredBy(a)
    && Outcome(Sees(th, db), catalog, th.clock, a) == Ok(Sees(out, db))
  }

  lemma {:induction false} NothingDone(th: Thread, catalog: Catalog, db: Db)
    ensures Advanced(th, 0, catalog, db) == Some(th)
    ensures Outcome(Sees(th, db), catalog, th.clock, []) == Ok(Sees(th, db))
    ensures AcquiredBy([]) == {}
  {
  }

  lemma {:induction false} OneStep(th: Thread, a: seq<Task>, b: seq<Task>, catalog: Catalog, db: Db)
    returns (next: Thread, left: seq<Task>, seen: View)
    requires !th.failed && a != [] && th.todo == a + b && Outcome(Sees(th, db), catalog, th.clock, a).Ok?
    ensures Left(a[0], catalog, Apply(db, th.writes)) == Some(left)
    ensures Advanced(th, 1, catalog, db) == Some(next) && !next.failed && next.todo == left + (a[1..] + b)
    ensures next.jobs == th.jobs && next.clock == th.clock && next.held == th.held + Acquired(a[0])
    ensures Outcome(Sees(next, db), catalog, th.clock, left) == Ok(seen)
    ensures Outcome(seen, catalog, th.clock, a[1..]) == Outcome(Sees(th, db), catalog, th.clock, a)
  {
    hide Effect, Outcome, Left, Written, Executed;
    var task := a[0];
    assert th.todo[0] == task && th.todo[1..] == a[1..] + b;
    OutcomeFirst(Sees(th, db), catalog, th.clock, a);
    LeftOutcome(Sees(th, db), catalog, th.clock, task);
    seen := Effect(Sees(th, db), catalog, th.clock, task).value;
    left := Left(task, catalog, Apply(db, th.writes)).value;
    next := Step(th, catalog, db);
    assert Advanced(th, 0, catalog, db) == Some(th);
    StepSees(th, catalog, db);
  }

  /** A transaction whose next statements succeed gets past them. */
  lemma {:induction false} Completes(th: Thread, a: seq<Task>, b: seq<Task>, rank: int, catalog: Catalog, db: Db)
    returns (n: nat, out: Thread)
    requires !th.failed && th.todo == a + b && Ranked(a, rank) && rank >= -1
    requires Outcome(Sees(th, db), catalog, th.clock, a).Ok?
    ensures Advanced(th, n, catalog, db) == Some(out) && Reached(th, out, a, b, catalog, db)
    decreases rank + 1, |a|
  {
    hide Left, Sees, Advanced, Outcome, Rank, Acquired;
    if a == [] {
      n, out := 0, th;
      NothingDone(th, catalog, db);
      assert a + b == b && th.held + {} == th.held;
    } else {
      assert a[0] in a;
      var next, left, seen := OneStep(th, a, b, catalog, db);
      LeftRanked(a[0], catalog, Apply(db, th.writes));
      LeftLocks(a[0], catalog, Apply(db, th.writes));
      var m, mid := Completes(next, left, a[1..] + b, Rank(a[0]) - 1, catalog, db);
      var k;
      k, out := Completes(mid, a[1..], b, rank, catalog, db);
      AdvancedJoin(th, 1, next, m, catalog, db);
      AdvancedJoin(th, 1 + m, mid, k, catalog, db);
      n := 1 + m + k;
      assert out.held == th.held + (Acquired(a[0]) + AcquiredBy(a[1..]));
    }
  }

  lemma {:induction false} AllRanked(todo: seq<Task>)
    ensures Ranked(todo, 5)
  {
  }

  // ---- In the system ----

  function Executes(id: nat, n: nat): seq<Event> { seq(n, _ => Execute(id)) }

  /** Nobody else holds a lock that conflicts with those of `out` or has updated a lot row that `out` has updated. */
  ghost predicate FreeFor(hash: Hash, s: System, id: nat, out: Thread)
  {
    && (forall k :: k in out.held ==> LockFree(hash, s, id, k))
    && (forall lot :: HasUpdated(out, lot) ==> RowFree(s, id, lot))
  }

  lemma {:induction false} RunOne(hash: Hash, catalog: Catalog, start: System, es: seq<Event>, e: Event)
    requires Run(hash, catalog, start, es).Some? && Enabled(hash, Run(hash, catalog, start, es).value, e)
    ensures Run(hash, catalog, start, es + [e]) == Some(Next(hash, catalog, Run(hash, catalog, start, es).value, e))
  {
    assert (es + [e])[..|es|] == es;
  }

  /** What a transaction has locked and updated stays so to its end. */
  ghost predicate Grown(th: Thread, out: Thread)
  {
    th.held <= out.held && forall lot :: HasUpdated(th, lot) ==> HasUpdated(out, lot)
  }

  lemma {:induction false} StepGrows(th: Thread, catalog: Catalog, db: Db)
    requires CanStep(th)
    ensures Grown(th, Step(th, catalog, db))
    ensures th.todo[0].Lock? ==> th.todo[0].key in Step(th, catalog, db).held
    ensures RowUpdated(th.todo[0]).Some? ==> HasUpdated(Step(th, catalog, db), RowUpdated(th.todo[0]).value)
  {
    hide Apply, Put, ResolveExitLines, FindTwin;
    var next := Step(th, catalog, db);
    assert th.writes <= next.writes;
    if RowUpdated(th.todo[0]).Some? {
      assert next.writes[|th.writes|].AddToLot? && next.writes[|th.writes|].id == RowUpdated(th.todo[0]).value;
    }
  }

  lemma {:induction false} FreeForLess(hash: Hash, s: System, id: nat, th: Thread, out: Thread)
    requires Grown(th, out) && FreeFor(hash, s, id, out)
    ensures FreeFor(hash, s, id, th)
  {
    hide HasUpdated, LockFree, RowFree;
  }

  /** Statements of one transaction run through as long as nobody else has what they lock and update. */
  lemma {:induction false} Advance(hash: Hash, catalog: Catalog, start: System, es: seq<Event>, s: System, id: nat,
      n: nat, out: Thread)
    requires Run(hash, catalog, start, es) == Some(s) && id in s.live
    requires Advanced(s.live[id], n, catalog, s.db) == Some(out) && FreeFor(hash, s, id, out)
    ensures Run(hash, catalog, start, es + Executes(id, n)) == Some(s.(live := s.live[id := out]))
  {
    hide Run, Step, CanStep, FreeFor, Grown;
    if n == 0 {
      assert es + Executes(id, 0) == es && s.live[id := out] == s.live;
    } else {
      var mid := Advanced(s.live[id], n - 1, catalog, s.db).value;
      StepGrows(mid, catalog, s.db);
      FreeForLess(hash, s, id, mid, out);
      Advance(hash, catalog, start, es, s, id, n - 1, mid);
      var before := s.(live := s.live[id := mid]);
      NextUnblocked(hash, s, id, mid, catalog, s.db);
      RunOne(hash, catalog, start, es + Executes(id, n - 1), Execute(id));
      assert es + Executes(id, n) == es + Executes(id, n - 1) + [Execute(id)];
      assert before.live[id := out] == s.live[id := out];
    }
  }

  lemma {:induction false} NextUnblocked(hash: Hash, s: System, id: nat, mid: Thread, catalog: Catalog, db: Db)
    requires CanStep(mid) && FreeFor(hash, s, id, Step(mid, catalog, db))
    ensures Enabled(hash, s.(live := s.live[id := mid]), Execute(id))
  {
    hide Step, HasUpdated, RowUpdated;
    StepGrows(mid, catalog, db);
  }

  /** Alone on the committed tables, a new transaction gets past the first part of its script when those
      statements succeed. */
  lemma {:induction false} Arrives(catalog: Catalog, db: Db, jobs: seq<Job>, clock: Clock, a: seq<Task>, b: seq<Task>)
    returns (n: nat, out: Thread)
    requires Script(jobs) == a + b && Outcome(View(db, 0, []), catalog, clock, a).Ok?
    ensures Advanced(Fresh(jobs, clock), n, catalog, db) == Some(out)
    ensures !out.failed && out.todo == b && out.jobs == jobs && out.clock == clock && out.held == AcquiredBy(a)
    ensures Outcome(View(db, 0, []), catalog, clock, a) == Ok(Sees(out, db))
  {
    hide Advanced, Outcome, AcquiredBy;
    AllRanked(a);
    n, out := Completes(Fresh(jobs, clock), a, b, 5, catalog, db);
    assert {} + AcquiredBy(a) == AcquiredBy(a);
  }

  /** What a transaction can come to alone it can come to beside others that leave it free. */
  lemma {:induction false} Enter(hash: Hash, catalog: Catalog, start: System, es: seq<Event>, s: System, id: nat,
      n: nat, out: Thread) returns (more: seq<Event>)
    requires Run(hash, catalog, start, es) == Some(s) && id !in s.live
    requires Advanced(Fresh(out.jobs, out.clock), n, catalog, s.db) == Some(out) && FreeFor(hash, s, id, out)
    ensures more == [Begin(id, out.jobs, out.clock)] + Executes(id, n)
    ensures Run(hash, catalog, start, es + more) == Some(s.(live := s.live[id := out]))
  {
    hide Run, Advanced, FreeFor;
    var th := Fresh(out.jobs, out.clock);
    RunOne(hash, catalog, start, es, Begin(id, out.jobs, out.clock));
    var begun := s.(live := s.live[id := th]);
    FreeAfterBegin(hash, s, id, th, out);
    Advance(hash, catalog, start, es + [Begin(id, out.jobs, out.clock)], begun, id, n, out);
    more := [Begin(id, out.jobs, out.clock)] + Executes(id, n);
    assert es + more == es + [Begin(id, out.jobs, out.clock)] + Executes(id, n);
    assert begun.live[id := out] == s.live[id := out];
  }

  lemma {:induction false} FreeAfterBegin(hash: Hash, s: System, id: nat, th: Thread, out: Thread)
    requires FreeFor(hash, s, id, out)
    ensures FreeFor(hash, s.(live := s.live[id := th]), id, out)
  {
    hide HasUpdated;
  }
}
