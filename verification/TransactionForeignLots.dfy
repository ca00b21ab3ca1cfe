/**
 What goes wrong between transactions when an operation chooses a lot whose pair it does not lock: it races with
 an exit of that pair, and it can wait with one in a circle.
 */
module TransactionForeignLots {
  import opened Prelude
  import opened Ledger
  import opened Stock
  import opened Transactions
  import opened TransactionLocks
  import opened TransactionSerial
  import opened TransactionSchedule
  import opened TransactionDeadlock
  import opened TransactionCrossing

  // ---- What an operation draws from a lot of a pair that it never locks ----

  /** The units of the items that chose the lot `id`. */
  function ChosenUnits(jobs: seq<Job>, id: LotId): int
  {
    if jobs == [] then 0
    else (if !jobs[0].Credit? && jobs[0].pick == Some(id) then jobs[0].quantity else 0) + ChosenUnits(jobs[1..], id)
  }

  /** The lot `id` holds `drawn` units less in `after` than in `before`. */
  ghost predicate Drawn(before: Db, after: Db, id: LotId, drawn: int)
  {
    && FindLot(before, id).Some? && FindLot(after, id).Some?
    && FindLot(after, id).value.quantity == FindLot(before, id).value.quantity - drawn
  }

  lemma {:induction false} WriteDraws(db: Db, w: Write, id: LotId)
    requires FindLot(db, id).Some?
    ensures Drawn(db, Put(db, w), id, if w.AddToLot? && w.id == id then -w.delta else 0)
  {
  }

  lemma {:induction false} PostDraws(v: View, clock: Clock, k: Key, quantity: int, kind: Kind, lot: Option<LotId>,
      id: LotId)
    requires FindLot(v.db, id).Some?
    ensures Drawn(v.db, Post(v, clock, k, quantity, kind, lot).db, id, 0)
  {
    hide FindLot, Put, Balance;
    var row := Movement(k, quantity, CurrentStock(v.db, k) + quantity, kind, lot, clock(v.tick));
    WriteDraws(v.db, InsertMovement(row), id);
  }

  lemma {:induction false} DepositDraws(v: View, to: Key, origin: Lot, quantity: int, id: LotId)
    requires id.home != to && FindLot(v.db, id).Some?
    ensures Drawn(v.db, Deposit(v, to, origin, quantity).0.db, id, 0)
  {
    hide FindTwin;
  }

  lemma {:induction false} LineDraws(v: View, clock: Clock, job: Job, line: Line, id: LotId)
    requires !job.Credit? && id.home !in LocksOf(job) && FindLot(v.db, id).Some?
    ensures Drawn(v.db, DoLine(v, clock, job, line).db, id, if line.lot == Some(id) then line.quantity else 0)
  {
    hide Balance, FindTwin, FindLot, Put, At;
    var kind := if job.Debit? then job.kind else TransferOut;
    var v1 := Post(v, clock, job.key, -line.quantity, kind, line.lot);
    PostDraws(v, clock, job.key, -line.quantity, kind, line.lot, id);
    if line.lot.Some? {
      var v2 := Change(v1, AddToLot(line.lot.value, -line.quantity));
      WriteDraws(v1.db, AddToLot(line.lot.value, -line.quantity), id);
      if job.Move? {
        var origin := FindLot(v1.db, line.lot.value).GetOr(Lot("", 0, 0));
        var (v3, twin) := Deposit(v2, job.to, origin, line.quantity);
        DepositDraws(v2, job.to, origin, line.quantity, id);
        PostDraws(v3, clock, job.to, line.quantity, TransferIn, Some(twin), id);
      }
    } else if job.Move? {
      PostDraws(v1, clock, job.to, line.quantity, TransferIn, None, id);
    }
  }

  lemma {:induction false} OwnLinesDraw(v: View, clock: Clock, job: Job, lines: seq<Line>, id: LotId)
    requires !job.Credit? && id.home !in LocksOf(job) && FindLot(v.db, id).Some?
    requires forall line :: line in lines && line.lot.Some? ==> line.lot.value.home == job.key
    ensures Drawn(v.db, DoLines(v, clock, job, lines).db, id, 0)
    decreases |lines|
  {
    hide DoLine, FindLot;
    if lines != [] {
      assert lines[0] in lines;
      LineDraws(v, clock, job, lines[0], id);
      OwnLinesDraw(DoLine(v, clock, job, lines[0]), clock, job, lines[1..], id);
    }
  }

  lemma {:induction false} JobDraws(v: View, catalog: Catalog, clock: Clock, job: Job, id: LotId)
    requires id.home !in LocksOf(job) && FindLot(v.db, id).Some? && DoJob(v, catalog, clock, job).Ok?
    ensures Drawn(v.db, DoJob(v, catalog, clock, job).value.db, id, ChosenUnits([job], id))
    ensures FindLot(v.db, id).value.quantity >= 0 ==>
      FindLot(DoJob(v, catalog, clock, job).value.db, id).value.quantity >= 0
  {
    assert [job][1..] == [];
    if job.Credit? {
      hide Balance;
    } else {
      hide DoLine, LinesTasks;
      var p := catalog[job.key.product];
      var lines := ResolveExitLines(v.db, p, job.key, job.quantity, job.pick).value;
      ResolvedHomes(v.db, p, job.key, job.quantity, job.pick);
      if job.pick.Some? {
        assert lines == [lines[0]] && lines[1..] == [];
        LineDraws(v, clock, job, lines[0], id);
        assert DoLines(v, clock, job, lines) == DoLines(DoLine(v, clock, job, lines[0]), clock, job, []);
      } else {
        OwnLinesDraw(v, clock, job, lines, id);
      }
    }
  }

  lemma {:induction false} LocksAmong(jobs: seq<Job>)
    requires jobs != []
    ensures AllLocks(jobs) == LocksOf(jobs[0]) + AllLocks(jobs[1..])
  {
    hide JobTasks;
    JobAcquires(jobs[0]);
    AcquiredParts(JobTasks(jobs[0]), Script(jobs[1..]));
  }

  /** An accepted operation takes exactly what it chose out of a lot whose pair it never locks, and never more
      than the lot holds. */
  lemma {:induction false} JobsDraw(v: View, catalog: Catalog, clock: Clock, jobs: seq<Job>, id: LotId)
    requires id.home !in AllLocks(jobs) && FindLot(v.db, id).Some? && DoJobs(v, catalog, clock, jobs).Ok?
    ensures Drawn(v.db, DoJobs(v, catalog, clock, jobs).value.db, id, ChosenUnits(jobs, id))
    ensures FindLot(v.db, id).value.quantity >= 0 ==>
      FindLot(DoJobs(v, catalog, clock, jobs).value.db, id).value.quantity >= 0
    decreases |jobs|
  {
    hide DoJob, FindLot, AllLocks;
    if jobs != [] {
      LocksAmong(jobs);
      assert [jobs[0]][1..] == [];
      JobDraws(v, catalog, clock, jobs[0], id);
      JobsDraw(DoJob(v, catalog, clock, jobs[0]).value, catalog, clock, jobs[1..], id);
    }
  }

  // ---- An exit of the lot's own pair that stops before it draws ----

  /** An exit of `quantity` units for the pair k out of the lot `id`. */
  function Exit(k: Key, quantity: int, id: LotId): seq<Job> { [Debit(k, quantity, Adjustment, Some(id), None)] }

  lemma {:induction false} AdvanceOnce(th: Thread, n: nat, mid: Thread, catalog: Catalog, db: Db)
    requires Advanced(th, n, catalog, db) == Some(mid) && CanStep(mid)
    ensures Advanced(th, n + 1, catalog, db) == Some(Step(mid, catalog, db))
  {
    hide Step, CanStep;
  }

  /** It holds the lock of its pair, has found the lot large enough and has written its movement only. */
  ghost predicate AboutToDraw(th: Thread, clock: Clock, k: Key, quantity: int, id: LotId)
  {
    && th.jobs == Exit(k, quantity, id) && th.clock == clock && !th.failed && th.todo == [Draw(id, quantity)]
    && th.held == {k} && (forall lot :: !HasUpdated(th, lot)) && LotDelta(th.writes, id) == 0
  }

  lemma {:induction false} ExitScript(k: Key, quantity: int, id: LotId)
    ensures var jobs := Exit(k, quantity, id);
            Script(jobs) == [Lock(k), FindProduct(k.product), Resolve(jobs[0])] && AllLocks(jobs) == {k}
  {
    var jobs := Exit(k, quantity, id);
    assert jobs[1..] == [] && Script(jobs) == JobTasks(jobs[0]);
    JobAcquires(jobs[0]);
  }

  lemma {:induction false} ExitResolves(catalog: Catalog, db: Db, k: Key, quantity: int, id: LotId)
    requires k.product in catalog && FindLot(db, id).Some? && FindLot(db, id).value.quantity >= quantity
    ensures Left(Resolve(Exit(k, quantity, id)[0]), catalog, db) ==
            Some([ReadStock(k, -quantity, Adjustment, Some(id)), Draw(id, quantity)])
  {
    hide FindLot;
    var job, line := Exit(k, quantity, id)[0], Line(Some(id), quantity, false, true);
    OneLineTasks(job, line);
    assert DebitTasks(job, line) == [ReadStock(k, -quantity, Adjustment, Some(id)), Draw(id, quantity)];
  }

  /** One statement more, when what is left of it is known and it writes nothing. */
  lemma {:induction false} ReadStep(th: Thread, n: nat, mid: Thread, left: seq<Task>, rest: seq<Task>,
      catalog: Catalog, db: Db) returns (next: Thread)
    requires Advanced(th, n, catalog, db) == Some(mid) && !mid.failed && mid.todo != [] && mid.todo[1..] == rest
    requires mid.writes == [] && Left(mid.todo[0], catalog, db) == Some(left)
    requires mid.todo[0].Lock? || mid.todo[0].FindProduct? || mid.todo[0].Resolve? || mid.todo[0].ReadStock?
    ensures Advanced(th, n + 1, catalog, db) == Some(next) && !next.failed && next.todo == left + rest
    ensures next.writes == [] && next.jobs == mid.jobs && next.clock == mid.clock
    ensures next.held == mid.held + Acquired(mid.todo[0])
  {
    hide Left;
    assert Apply(db, mid.writes) == db;
    next := Step(mid, catalog, db);
    AdvanceOnce(th, n, mid, catalog, db);
  }

  lemma {:induction false} ExitStops(catalog: Catalog, db: Db, clock: Clock, k: Key, quantity: int, id: LotId)
    returns (th: Thread)
    requires k.product in catalog && FindLot(db, id).Some? && FindLot(db, id).value.quantity >= quantity
    ensures Advanced(Fresh(Exit(k, quantity, id), clock), 5, catalog, db) == Some(th)
    ensures AboutToDraw(th, clock, k, quantity, id)
  {
    hide Advanced, FindLot, Balance, Script, Step, LinesTasks;
    var job := Exit(k, quantity, id)[0];
    var t0 := Fresh(Exit(k, quantity, id), clock);
    ExitScript(k, quantity, id);
    NothingDone(t0, catalog, db);
    var t1 := ReadStep(t0, 0, t0, [], [FindProduct(k.product), Resolve(job)], catalog, db);
    var t2 := ReadStep(t0, 1, t1, [], [Resolve(job)], catalog, db);
    ExitResolves(catalog, db, k, quantity, id);
    var t3 := ReadStep(t0, 2, t2, [ReadStock(k, -quantity, Adjustment, Some(id)), Draw(id, quantity)], [], catalog, db);
    var insert := Insert(k, -quantity, Adjustment, Some(id), CurrentStock(db, k));
    var t4 := ReadStep(t0, 3, t3, [insert], [Draw(id, quantity)], catalog, db);
    AdvanceOnce(t0, 4, t4, catalog, db);
    th := Step(t4, catalog, db);
    InsertStep(t4, insert, [Draw(id, quantity)], catalog, db, id);
  }

  lemma {:induction false} InsertStep(mid: Thread, insert: Task, rest: seq<Task>, catalog: Catalog, db: Db, id: LotId)
    requires !mid.failed && insert.Insert? && mid.todo == [insert] + rest && mid.writes == []
    ensures var th := Step(mid, catalog, db);
      && !th.failed && th.todo == rest && th.held == mid.held && th.jobs == mid.jobs && th.clock == mid.clock
      && (forall lot :: !HasUpdated(th, lot)) && LotDelta(th.writes, id) == 0
  {
    var th := Step(mid, catalog, db);
    assert |th.writes| == 1 && th.writes[0].InsertMovement? && th.writes[..0] == [];
    assert mid.held + {} == mid.held && [] + rest == rest;
  }

  function LotDelta(writes: seq<Write>, id: LotId): int
  {
    if writes == [] then 0
    else
      var w := writes[|writes| - 1];
      LotDelta(writes[..|writes| - 1], id) + if w.AddToLot? && w.id == id then w.delta else 0
  }

  lemma {:induction false} LotAfterWrites(db: Db, writes: seq<Write>, id: LotId)
    requires FindLot(db, id).Some?
    ensures Drawn(db, Apply(db, writes), id, -LotDelta(writes, id))
  {
    if writes != [] { LotAfterWrites(db, writes[..|writes| - 1], id); }
  }

  lemma {:induction false} NoDelta(writes: seq<Write>, id: LotId)
    requires forall w :: w in writes && w.AddToLot? ==> w.id != id
    ensures LotDelta(writes, id) == 0
  {
    if writes != [] {
      assert writes[|writes| - 1] in writes;
      NoDelta(writes[..|writes| - 1], id);
    }
  }

  // ---- The race ----

  /** Alone and in this order, the first is accepted and the second is not. */
  ghost predicate OnlyOneAlone(catalog: Catalog, db: Db, clock: Clock, first: seq<Job>, second: seq<Job>)
  {
    var r := Transact(db, catalog, clock, first);
    r.Ok? && Transact(r.value.db, catalog, clock, second).Err?
  }

  lemma {:induction false} ExitAlone(db: Db, catalog: Catalog, clock: Clock, quantity: int, id: LotId)
    requires id.home.product in catalog && FindLot(db, id).Some?
    ensures var r := Transact(db, catalog, clock, Exit(id.home, quantity, id));
            && (r.Ok? <==> FindLot(db, id).value.quantity >= quantity)
            && (r.Ok? ==> Drawn(db, r.value.db, id, quantity))
  {
    hide Balance;
    var job, v := Exit(id.home, quantity, id)[0], View(db, 0, []);
    var line := Line(Some(id), quantity, false, true);
    assert [line][1..] == [] && [job][1..] == [];
    assert DoLines(v, clock, job, [line]) == DoLines(DebitLine(v, clock, job, line), clock, job, []);
    if FindLot(db, id).value.quantity >= quantity {
      assert DoJobs(v, catalog, clock, [job]) == DoJobs(DebitLine(v, clock, job, line), catalog, clock, []);
    } else {
      assert DoJob(v, catalog, clock, job).Err?;
    }
  }

  /** Neither order is accepted when the lot holds less than both take. */
  lemma {:induction false} NeitherOrder(catalog: Catalog, db: Db, clock: Clock, jobs: seq<Job>, quantity: int,
      id: LotId)
    requires id.home !in AllLocks(jobs) && id.home.product in catalog && FindLot(db, id).Some?
    requires Transact(db, catalog, clock, jobs).Ok?
    requires quantity <= FindLot(db, id).value.quantity < quantity + ChosenUnits(jobs, id)
    ensures OnlyOneAlone(catalog, db, clock, jobs, Exit(id.home, quantity, id))
    ensures OnlyOneAlone(catalog, db, clock, Exit(id.home, quantity, id), jobs)
  {
    hide FindLot, AllLocks, DoJobs, Exit, ChosenUnits;
    JobsDraw(View(db, 0, []), catalog, clock, jobs, id);
    ExitAlone(Transact(db, catalog, clock, jobs).value.db, catalog, clock, quantity, id);
    ExitAlone(db, catalog, clock, quantity, id);
    var rest := Transact(db, catalog, clock, Exit(id.home, quantity, id)).value.db;
    if Transact(rest, catalog, clock, jobs).Ok? {
      JobsDraw(View(rest, 0, []), catalog, clock, jobs, id);
      assert false;
    }
  }

  /** Run alone to its end, an accepted operation has locked its pairs and sees its outcome. */
  lemma {:induction false} RunsThrough(catalog: Catalog, db: Db, clock: Clock, jobs: seq<Job>)
    returns (n: nat, out: Thread)
    requires Transact(db, catalog, clock, jobs).Ok?
    ensures Advanced(Fresh(jobs, clock), n, catalog, db) == Some(out) && Finished(out)
    ensures out.jobs == jobs && out.clock == clock && out.held == AllLocks(jobs)
    ensures Transact(db, catalog, clock, jobs) == Ok(Sees(out, db))
  {
    hide Advanced, Outcome, Script, DoJobs, AcquiredBy, Sees;
    ScriptOutcome(View(db, 0, []), catalog, clock, jobs);
    assert Script(jobs) == Script(jobs) + [];
    n, out := Arrives(catalog, db, jobs, clock, Script(jobs), []);
  }

  lemma {:induction false} FreeAtStart(hash: Hash, db: Db, id: nat, th: Thread)
    ensures FreeFor(hash, Start(db), id, th)
  {
  }

  lemma {:induction false} FreeBesideExit(hash: Hash, s: System, exit: Thread, clock: Clock, quantity: int, id: LotId,
      other: Thread)
    requires s.live == map[0 := exit] && AboutToDraw(exit, clock, id.home, quantity, id)
    requires forall k :: k in other.held ==> hash(k) != hash(id.home)
    ensures FreeFor(hash, s, 1, other)
  {
    hide HasUpdated, LotDelta, Exit;
  }

  /** The last statement of the exit, which takes the units whatever the lot holds by now. */
  lemma {:induction false} DrawStep(hash: Hash, s: System, exit: Thread, catalog: Catalog, clock: Clock,
      quantity: int, id: LotId)
    requires s.live == map[0 := exit] && AboutToDraw(exit, clock, id.home, quantity, id)
    ensures Enabled(hash, s, Execute(0))
    ensures var drawn := Step(exit, catalog, s.db);
            Finished(drawn) && drawn.jobs == exit.jobs && LotDelta(drawn.writes, id) == -quantity
  {
    hide HasUpdated, Exit;
    var drawn := Step(exit, catalog, s.db);
    assert drawn.writes[..|exit.writes|] == exit.writes;
  }

  lemma {:induction false} OtherDraws(db: Db, catalog: Catalog, clock: Clock, jobs: seq<Job>, other: Thread, id: LotId)
    requires id.home !in AllLocks(jobs) && FindLot(db, id).Some?
    requires Transact(db, catalog, clock, jobs) == Ok(Sees(other, db))
    ensures Drawn(db, Apply(db, other.writes), id, ChosenUnits(jobs, id))
  {
    hide AllLocks, DoJobs, FindLot, ChosenUnits;
    JobsDraw(View(db, 0, []), catalog, clock, jobs, id);
  }

  /** The exit checks the lot; the other operation runs and commits; the exit draws and commits. */
  lemma {:induction false} BothCommit(hash: Hash, catalog: Catalog, db: Db, clock: Clock, jobs: seq<Job>,
      quantity: int, id: LotId) returns (es: seq<Event>, s: System)
    requires id.home.product in catalog && FindLot(db, id).Some? && FindLot(db, id).value.quantity >= quantity
    requires forall k :: k in AllLocks(jobs) ==> hash(k) != hash(id.home)
    requires Transact(db, catalog, clock, jobs).Ok?
    ensures Run(hash, catalog, Start(db), es) == Some(s) && |s.log| == 2
    ensures s.log[0].jobs == jobs && s.log[1].jobs == Exit(id.home, quantity, id)
    ensures Drawn(db, s.db, id, ChosenUnits(jobs, id) + quantity)
  {
    hide Run, Exit, LotDelta, Apply, FindLot, Advanced, FreeFor, Script, Outcome, Transact, AllLocks, Step, Sees;
    hide HasUpdated, Unblocked, ChosenUnits;
    var s0 := Start(db);
    NothingRun(hash, catalog, s0);
    var exit := ExitStops(catalog, db, clock, id.home, quantity, id);
    FreeAtStart(hash, db, 0, exit);
    var e1 := Enter(hash, catalog, s0, [], s0, 0, 5, exit);
    var s1 := s0.(live := s0.live[0 := exit]);
    var n, other := RunsThrough(catalog, db, clock, jobs);
    FreeBesideExit(hash, s1, exit, clock, quantity, id, other);
    var e2 := Enter(hash, catalog, s0, [] + e1, s1, 1, n, other);
    var s2, es2 := s1.(live := s1.live[1 := other]), [] + e1 + e2;
    RunOne(hash, catalog, s0, es2, Commit(1));
    var s3 := System(Apply(db, other.writes), map[0 := exit], [other]);
    assert s2.live - {1} == s3.live && [] + [other] == [other];
    var drawn := Step(exit, catalog, s3.db);
    DrawStep(hash, s3, exit, catalog, clock, quantity, id);
    RunOne(hash, catalog, s0, es2 + [Commit(1)], Execute(0));
    var s4 := s3.(live := s3.live[0 := drawn]);
    RunOne(hash, catalog, s0, es2 + [Commit(1)] + [Execute(0)], Commit(0));
    es := es2 + [Commit(1)] + [Execute(0)] + [Commit(0)];
    s := System(Apply(s3.db, drawn.writes), s4.live - {0}, [other] + [drawn]);
    OtherDraws(db, catalog, clock, jobs, other, id);
    LotAfterWrites(s3.db, drawn.writes, id);
  }

  /** Any accepted operation that takes units of a lot whose pair it never locks can commit together with an exit
      of that pair, although the lot holds less than both take and in neither order are both accepted. */
  lemma {:induction false} ForeignLotRace(hash: Hash, catalog: Catalog, db: Db, clock: Clock, jobs: seq<Job>,
      quantity: int, id: LotId)
    requires id.home.product in catalog && FindLot(db, id).Some? && Transact(db, catalog, clock, jobs).Ok?
    requires forall k :: k in AllLocks(jobs) ==> hash(k) != hash(id.home)
    requires quantity <= FindLot(db, id).value.quantity < quantity + ChosenUnits(jobs, id)
    ensures OnlyOneAlone(catalog, db, clock, jobs, Exit(id.home, quantity, id))
    ensures OnlyOneAlone(catalog, db, clock, Exit(id.home, quantity, id), jobs)
    ensures exists es, s :: (
              && Run(hash, catalog, Start(db), es) == Some(s) && |s.log| == 2
              && s.log[0].jobs == jobs && s.log[1].jobs == Exit(id.home, quantity, id)
              && Drawn(db, s.db, id, ChosenUnits(jobs, id) + quantity) && FindLot(s.db, id).value.quantity < 0)
  {
    hide Run, Exit, Transact, AllLocks, ChosenUnits, OnlyOneAlone, FindLot;
    NeitherOrder(catalog, db, clock, jobs, quantity, id);
    var es, s := BothCommit(hash, catalog, db, clock, jobs, quantity, id);
  }

  // ---- The circle ----

  /** Locks its pair, draws from the lot `id` of another pair, and then asks for the lock of that pair. */
  function SaleOutOf(k: Key, quantity: int, id: LotId, more: int, price: int): seq<Job>
  {
    [Debit(k, quantity, SaleExit, Some(id), Some(price)), Debit(id.home, more, SaleExit, None, Some(price))]
  }

  lemma {:induction false} SaleStops(catalog: Catalog, db: Db, clock: Clock, k: Key, quantity: int, id: LotId,
      more: int, price: int) returns (th: Thread)
    requires k != id.home && k.product in catalog && quantity >= 1
    requires FindLot(db, id).Some? && FindLot(db, id).value.quantity >= quantity
    ensures ComesTo(catalog, db, th) && th.jobs == SaleOutOf(k, quantity, id, more, price)
    ensures CanStep(th) && th.todo[0] == Lock(id.home) && th.held == {k} && HasUpdated(th, id)
  {
    hide Advanced, Outcome, DoJobs, Script, FindLot, Apply;
    var jobs := SaleOutOf(k, quantity, id, more, price);
    var first, second := [jobs[0]], [jobs[1]];
    SaleScripts(k, quantity, id, more, price);
    SaleFirst(catalog, db, clock, k, quantity, id, price);
    ScriptOutcome(View(db, 0, []), catalog, clock, first);
    var n;
    n, th := Arrives(catalog, db, jobs, clock, Script(first), Script(second));
    JobsDraw(View(db, 0, []), catalog, clock, first, id);
    assert first[1..] == [] && ChosenUnits(first[1..], id) == 0;
    DrawnIsUpdated(db, th, id, quantity);
  }

  lemma {:induction false} SaleScripts(k: Key, quantity: int, id: LotId, more: int, price: int)
    ensures var jobs := SaleOutOf(k, quantity, id, more, price);
            && Script(jobs) == Script([jobs[0]]) + Script([jobs[1]])
            && AllLocks([jobs[0]]) == {k} && AllLocks(jobs) == {k, id.home}
            && Script([jobs[1]]) != [] && Script([jobs[1]])[0] == Lock(id.home)
  {
    hide JobTasks;
    var jobs := SaleOutOf(k, quantity, id, more, price);
    ScriptJoin([jobs[0]], [jobs[1]]);
    assert [jobs[0]] + [jobs[1]] == jobs && [jobs[0]][1..] == [] && [jobs[1]][1..] == [] && jobs[1..] == [jobs[1]];
    LocksAmong([jobs[0]]);
    LocksAmong([jobs[1]]);
    LocksAmong(jobs);
    assert AllLocks([]) == {};
    DebitStarts(jobs[1]);
  }

  lemma {:induction false} DebitStarts(job: Job)
    requires job.Debit?
    ensures Script([job]) != [] && Script([job])[0] == Lock(job.key)
  {
  }

  lemma {:induction false} SaleFirst(catalog: Catalog, db: Db, clock: Clock, k: Key, quantity: int, id: LotId,
      price: int)
    requires k.product in catalog && FindLot(db, id).Some? && FindLot(db, id).value.quantity >= quantity
    ensures DoJobs(View(db, 0, []), catalog, clock, [Debit(k, quantity, SaleExit, Some(id), Some(price))]).Ok?
  {
    hide DoLines, FindLot;
    var job := Debit(k, quantity, SaleExit, Some(id), Some(price));
    assert [job][1..] == [] && DoJob(View(db, 0, []), catalog, clock, job).Ok?;
  }

  lemma {:induction false} DrawnIsUpdated(db: Db, th: Thread, id: LotId, drawn: int)
    requires drawn != 0 && Drawn(db, Apply(db, th.writes), id, drawn)
    ensures HasUpdated(th, id)
  {
    hide FindLot, Apply;
    LotAfterWrites(db, th.writes, id);
    if !HasUpdated(th, id) { NoDelta(th.writes, id); }
  }

  lemma {:induction false} StopsCompatible(hash: Hash, sale: Thread, exit: Thread, clock: Clock, k: Key, quantity: int,
      id: LotId)
    requires hash(k) != hash(id.home) && AboutToDraw(exit, clock, id.home, quantity, id)
    requires CanStep(sale) && sale.todo[0] == Lock(id.home) && sale.held == {k} && HasUpdated(sale, id)
    ensures Compatible(hash, sale, exit) && Compatible(hash, exit, sale)
    ensures Waits(hash, sale, exit) && Waits(hash, exit, sale)
  {
    hide HasUpdated, LotDelta, Exit;
    assert LockWait(hash, sale, exit) by { assert id.home in exit.held; }
    assert RowWait(exit, sale);
  }

  /** Ascending product order does not prevent a circle once a foreign lot is chosen, even if the hash tells all
      pairs apart: a sale of one product out of a lot of a later one, followed by that later one, and an exit of
      the later one out of that lot can wait for each other. */
  lemma {:induction false} ForeignLotDeadlock(hash: Hash, catalog: Catalog, db: Db, clock: Clock, k: Key,
      quantity: int, id: LotId, more: int, price: int, taken: int)
    requires k.tenant == id.home.tenant && k.store == id.home.store && k.product < id.home.product
    requires hash(k) != hash(id.home) && k.product in catalog && id.home.product in catalog && quantity >= 1
    requires FindLot(db, id).Some? && FindLot(db, id).value.quantity >= quantity
    requires FindLot(db, id).value.quantity >= taken
    ensures exists es, s, ring :: (
              && AllAscending(es) && TellsApart(hash, es) && Run(hash, catalog, Start(db), es) == Some(s)
              && Deadlocked(hash, s, ring, [SaleOutOf(k, quantity, id, more, price), Exit(id.home, taken, id)]))
  {
    hide Run, Deadlocked, Advanced, FindLot, Waits, HasUpdated, Compatible, AllAscending, TellsApart;
    var ops := [SaleOutOf(k, quantity, id, more, price), Exit(id.home, taken, id)];
    var sale := SaleStops(catalog, db, clock, k, quantity, id, more, price);
    var exit := ExitStops(catalog, db, clock, id.home, taken, id);
    assert ComesTo(catalog, db, exit);
    StopsCompatible(hash, sale, exit, clock, k, taken, id);
    var ths := [sale, exit];
    assert Stand(hash, catalog, db, ths, ops) by {
      assert After(0, 2) == 1 && After(1, 2) == 0;
      hide ComesTo, SaleOutOf, Exit;
    }
    var es, s, ring := StandDeadlocks(hash, catalog, db, ths, ops);
    OnlyAscending(hash, k, quantity, id, more, price, taken, es);
  }

  lemma {:induction false} OnlyAscending(hash: Hash, k: Key, quantity: int, id: LotId, more: int, price: int,
      taken: int, es: seq<Event>)
    requires k.tenant == id.home.tenant && k.store == id.home.store && k.product < id.home.product
    requires hash(k) != hash(id.home)
    requires OnlyThese(es, [SaleOutOf(k, quantity, id, more, price), Exit(id.home, taken, id)])
    ensures AllAscending(es) && TellsApart(hash, es)
  {
    hide AllLocks;
    SaleScripts(k, quantity, id, more, price);
    ExitScript(id.home, taken, id);
    forall a | PairLocked(es, a) ensures a == k || a == id.home {
      var i :| 0 <= i < |es| && es[i].Begin? && a in AllLocks(es[i].jobs);
    }
  }
}
