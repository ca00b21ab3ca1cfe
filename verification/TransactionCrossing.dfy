/**
 When stock operations can deadlock. What an operation claims are the pairs it locks and the chosen lots whose
 pair it has not locked. Operations that wait in a circle have taken disjoint claims and each stops at what the
 next one has; operations that can each come to such a stop alone do deadlock.
 */
module TransactionCrossing {
  import opened Prelude
  import opened Ledger
  import opened Stock
  import opened Transactions
  import opened TransactionLocks
  import opened TransactionSerial
  import opened TransactionSchedule
  import opened TransactionDeadlock

  // ---- The order in which an operation makes its claims ----

  datatype Claim = Pair(key: Key) | Row(lot: LotId)

  function Unlocked(id: LotId, held: set<Key>): seq<Claim> { if id.home in held then [] else [Row(id)] }

  /** What a statement, or what it leaves to do, claims for the first time. */
  function TaskClaims(task: Task, held: set<Key>): seq<Claim>
  {
    match task
    case Lock(key) => [Pair(key)]
    case Resolve(job) => if !job.Credit? && job.pick.Some? then Unlocked(job.pick.value, held) else []
    case Draw(id, _) => Unlocked(id, held)
    case ReadLot(id, _, _) => Unlocked(id, held)
    case _ => []
  }

  function TodoClaims(todo: seq<Task>, held: set<Key>): seq<Claim>
  {
    if todo == [] then [] else TaskClaims(todo[0], held) + TodoClaims(todo[1..], held + Acquired(todo[0]))
  }

  /** The pairs in the order they are locked, and each chosen lot whose pair is not locked by then. */
  function Claims(jobs: seq<Job>): seq<Claim> { TodoClaims(Script(jobs), {}) }

  function PairsOf(claims: seq<Claim>): set<Key> { set i | 0 <= i < |claims| && claims[i].Pair? :: claims[i].key }

  lemma {:induction false} ClaimsJoin(a: seq<Task>, b: seq<Task>, held: set<Key>)
    ensures TodoClaims(a + b, held) == TodoClaims(a, held) + TodoClaims(b, held + AcquiredBy(a))
  {
    hide TaskClaims, Acquired;
    if a == [] {
      assert a + b == b && held + {} == held;
    } else {
      var first, more := TaskClaims(a[0], held), held + Acquired(a[0]);
      assert (a + b)[1..] == a[1..] + b;
      ClaimsJoin(a[1..], b, more);
      assert more + AcquiredBy(a[1..]) == held + AcquiredBy(a);
      assert first + (TodoClaims(a[1..], more) + TodoClaims(b, held + AcquiredBy(a))) ==
             first + TodoClaims(a[1..], more) + TodoClaims(b, held + AcquiredBy(a));
    }
  }

  lemma {:induction false} NoClaims(todo: seq<Task>, held: set<Key>)
    requires forall task :: task in todo ==> !task.Lock? && TaskClaims(task, held) == []
    ensures TodoClaims(todo, held) == []
  {
    hide TaskClaims;
    if todo != [] {
      assert held + {} == held;
      NoClaims(todo[1..], held);
    }
  }

  lemma {:induction false} OneClaim(a: Task, b: Task, c: Task, held: set<Key>)
    requires !a.Lock? && !b.Lock? && !c.Lock?
    ensures TodoClaims([a], held) == TaskClaims(a, held)
    ensures TodoClaims([a, b], held) == TaskClaims(a, held) + TaskClaims(b, held)
    ensures TodoClaims([a, b, c], held) == TaskClaims(a, held) + TaskClaims(b, held) + TaskClaims(c, held)
  {
    hide TaskClaims;
    assert [a][1..] == [] && [a, b][1..] == [b] && [b][1..] == [] && held + {} == held;
    assert [a, b, c][1..] == [b, c] && [b, c][1..] == [c] && [c][1..] == [];
    assert forall task :: TaskClaims(task, held) + [] == TaskClaims(task, held);
    assert TodoClaims([c], held) == TaskClaims(c, held) + TodoClaims([], held);
    assert TodoClaims([b], held) == TaskClaims(b, held) + TodoClaims([], held);
    assert TodoClaims([b, c], held) == TaskClaims(b, held) + TodoClaims([c], held);
    assert TaskClaims(a, held) + (TaskClaims(b, held) + TaskClaims(c, held)) ==
           TaskClaims(a, held) + TaskClaims(b, held) + TaskClaims(c, held);
  }

  lemma {:induction false} OwnLineClaims(job: Job, line: Line, held: set<Key>)
    requires !job.Credit? && (line.lot.Some? ==> line.lot.value.home in held)
    ensures TodoClaims(LineTasks(job, line), held) == []
  {
    NoClaims(LineTasks(job, line), held);
  }

  lemma {:induction false} OwnLinesClaims(job: Job, lines: seq<Line>, held: set<Key>)
    requires !job.Credit? && forall line :: line in lines && line.lot.Some? ==> line.lot.value.home in held
    ensures TodoClaims(LinesTasks(job, lines), held) == []
  {
    hide LineTasks, TaskClaims;
    if lines != [] {
      OwnLineClaims(job, lines[0], held);
      OwnLinesClaims(job, lines[1..], held);
      ClaimsJoin(LineTasks(job, lines[0]), LinesTasks(job, lines[1..]), held);
      LinesLocks(job, [lines[0]]);
      OneLineTasks(job, lines[0]);
      assert held + {} == held;
    }
  }

  lemma {:induction false} ChosenLineClaims(job: Job, line: Line, held: set<Key>)
    requires !job.Credit? && line.lot.Some?
    ensures TodoClaims(LinesTasks(job, [line]), held) == Unlocked(line.lot.value, held)
  {
    hide LinesTasks, LineTasks, TodoClaims, Unlocked;
    var tasks := LineTasks(job, line);
    OneLineTasks(job, line);
    ChosenLineTasks(job, line);
    if |tasks| == 2 {
      assert tasks == [tasks[0], tasks[1]];
      OneClaim(tasks[0], tasks[1], tasks[0], held);
    } else {
      assert tasks == [tasks[0], tasks[1], tasks[2]];
      OneClaim(tasks[0], tasks[1], tasks[2], held);
    }
    var id := line.lot.value;
    assert [] + Unlocked(id, held) == Unlocked(id, held) && Unlocked(id, held) + [] == Unlocked(id, held);
  }

  lemma {:induction false} OneLineTasks(job: Job, line: Line)
    requires !job.Credit?
    ensures LinesTasks(job, [line]) == LineTasks(job, line)
  {
    hide LineTasks;
    assert [line][1..] == [] && LineTasks(job, line) + [] == LineTasks(job, line);
  }

  lemma {:induction false} ChosenLineTasks(job: Job, line: Line)
    requires !job.Credit? && line.lot.Some?
    ensures var tasks := LineTasks(job, line);
      && 2 <= |tasks| <= 3 && tasks[0].ReadStock? && (|tasks| == 3 ==> tasks[2].Persist?)
      && ((tasks[1].Draw? && tasks[1].id == line.lot.value) || (tasks[1].ReadLot? && tasks[1].id == line.lot.value))
  {
  }

  lemma {:induction false} ResolveClaims(job: Job, catalog: Catalog, seen: Db, held: set<Key>)
    requires Left(Resolve(job), catalog, seen).Some? && job.key in held
    ensures TodoClaims(Left(Resolve(job), catalog, seen).value, held) == TaskClaims(Resolve(job), held)
  {
    hide LinesTasks, Unlocked;
    var p := catalog[job.key.product];
    var lines := ResolveExitLines(seen, p, job.key, job.quantity, job.pick).value;
    if job.pick.Some? {
      ChosenLineClaims(job, lines[0], held);
    } else {
      ResolvedHomes(seen, p, job.key, job.quantity, job.pick);
      hide ResolveExitLines;
      OwnLinesClaims(job, lines, held);
    }
  }

  /** A statement passes on what it claims, or takes it. */
  lemma {:induction false} LeftClaims(task: Task, catalog: Catalog, seen: Db, held: set<Key>)
    requires Left(task, catalog, seen).Some? && Needs(false, task) <= held
    ensures TodoClaims(Left(task, catalog, seen).value, held + Acquired(task)) ==
            if task.Lock? || task.Draw? then [] else TaskClaims(task, held)
  {
    hide FindTwin, Balance, ResolveExitLines, LinesTasks;
    assert held + {} == held;
    var left := Left(task, catalog, seen).value;
    if task.Resolve? {
      ResolveClaims(task.job, catalog, seen, held);
    } else if task.ReadLot? {
      assert left == [left[0], left[1]];
      OneClaim(left[0], left[1], left[0], held);
      assert Unlocked(task.id, held) + [] == Unlocked(task.id, held);
    } else {
      NoClaims(left, held + Acquired(task));
    }
  }

  // ---- A transaction has taken the claims it has come past, and no others ----

  /** The number of claims taken. */
  function Passed(th: Thread): nat
  {
    var left, all := |TodoClaims(th.todo, th.held)|, |Claims(th.jobs)|;
    if left <= all then all - left else 0
  }

  ghost predicate Took(claims: seq<Claim>, p: nat, th: Thread)
  {
    && p <= |claims| && claims[p..] == TodoClaims(th.todo, th.held) && th.held == PairsOf(claims[..p])
    && (forall lot :: HasUpdated(th, lot) ==> lot.home in th.held || Row(lot) in claims[..p])
    && (forall lot :: Row(lot) in claims[..p] ==> HasUpdated(th, lot))
  }

  ghost predicate OnTrack(th: Thread)
  {
    Took(Claims(th.jobs), Passed(th), th) && Covered(false, th.todo, th.held)
  }

  lemma {:induction false} TookIsPassed(claims: seq<Claim>, p: nat, th: Thread)
    requires Took(claims, p, th) && claims == Claims(th.jobs)
    ensures p == Passed(th)
  {
    assert |claims[p..]| == |claims| - p;
  }

  lemma {:induction false} FreshOnTrack(jobs: seq<Job>, clock: Clock)
    ensures OnTrack(Fresh(jobs, clock))
  {
    hide Script;
    ScriptCovered(false, jobs, {});
    NothingUpdated(jobs, clock);
    assert Claims(jobs)[0..] == Claims(jobs);
  }

  /** A claim more: the pair just locked, or the lot just drawn from. */
  lemma {:induction false} TakeClaim(claims: seq<Claim>, p: nat, c: Claim, rest: seq<Claim>)
    requires p <= |claims| && claims[p..] == [c] + rest
    ensures p < |claims| && claims[p + 1..] == rest && claims[..p + 1] == claims[..p] + [c]
    ensures PairsOf(claims[..p + 1]) == PairsOf(claims[..p]) + if c.Pair? then {c.key} else {}
  {
    assert claims[p..][0] == c && claims[p..][1..] == claims[p + 1..];
    var before, more := claims[..p], claims[..p] + [c];
    forall k ensures k in PairsOf(more) <==> k in PairsOf(before) + if c.Pair? then {c.key} else {} {
      if k in PairsOf(before) {
        var i :| 0 <= i < |before| && before[i].Pair? && before[i].key == k;
        assert more[i] == before[i];
      }
      assert more[p] == c;
    }
  }

  /** The claims after a statement. */
  lemma {:induction false} StepClaims(th: Thread, catalog: Catalog, db: Db)
    requires CanStep(th) && Covered(false, th.todo, th.held) && !Step(th, catalog, db).failed
    ensures var task, next := th.todo[0], Step(th, catalog, db);
            TodoClaims(th.todo, th.held) ==
            (if task.Lock? || task.Draw? then TaskClaims(task, th.held) else []) + TodoClaims(next.todo, next.held)
  {
    hide Left, Written, TaskClaims, Apply, Needs;
    var task, rest, held := th.todo[0], th.todo[1..], th.held + Acquired(th.todo[0]);
    var left := Left(task, catalog, Apply(db, th.writes)).value;
    LeftClaims(task, catalog, Apply(db, th.writes), th.held);
    LeftLocks(task, catalog, Apply(db, th.writes));
    ClaimsJoin(left, rest, held);
    assert held + {} == held;
    assert [] + TodoClaims(rest, held) == TodoClaims(rest, held);
  }

  lemma {:induction false} StepTook(th: Thread, catalog: Catalog, db: Db, claims: seq<Claim>, p: nat)
    returns (q: nat)
    requires CanStep(th) && Took(claims, p, th) && Covered(false, th.todo, th.held) && !Step(th, catalog, db).failed
    ensures Took(claims, q, Step(th, catalog, db))
  {
    hide Left, Written, Apply, TodoClaims, HasUpdated, PairsOf;
    var task, next := th.todo[0], Step(th, catalog, db);
    StepClaims(th, catalog, db);
    StepGrows(th, catalog, db);
    forall id | HasUpdated(next, id) ensures HasUpdated(th, id) || RowUpdated(task) == Some(id) {
      StepUpdates(th, catalog, db, id);
    }
    q := p;
    if task.Lock? || (task.Draw? && task.id.home !in th.held) {
      q := p + 1;
      TakeClaim(claims, p, TaskClaims(task, th.held)[0], TodoClaims(next.todo, next.held));
    } else {
      assert th.held + {} == th.held;
      assert [] + TodoClaims(next.todo, next.held) == TodoClaims(next.todo, next.held);
    }
  }

  lemma {:induction false} StepOnTrack(th: Thread, catalog: Catalog, db: Db)
    requires CanStep(th) && OnTrack(th) && !Step(th, catalog, db).failed
    ensures OnTrack(Step(th, catalog, db))
  {
    hide Step, Took, Passed, Covered, Claims, CanStep;
    StepCovered(false, th, catalog, db);
    var q := StepTook(th, catalog, db, Claims(th.jobs), Passed(th));
    StepKeepsRequest(th, catalog, db);
    TookIsPassed(Claims(th.jobs), q, Step(th, catalog, db));
  }

  ghost predicate AllOnTrack(s: System) { forall id :: id in s.live && !s.live[id].failed ==> OnTrack(s.live[id]) }

  lemma {:induction false} RunOnTrack(hash: Hash, catalog: Catalog, db: Db, es: seq<Event>)
    requires Run(hash, catalog, Start(db), es).Some?
    ensures AllOnTrack(Run(hash, catalog, Start(db), es).value)
  {
    hide OnTrack, Step, Unblocked;
    if es != [] {
      var n := |es| - 1;
      RunOnTrack(hash, catalog, db, es[..n]);
      var s := Run(hash, catalog, Start(db), es[..n]).value;
      match es[n] {
        case Begin(_, jobs, clock) => FreshOnTrack(jobs, clock);
        case Execute(id) =>
          if !Step(s.live[id], catalog, s.db).failed { StepOnTrack(s.live[id], catalog, s.db); }
        case Commit(_) =>
        case Rollback(_) =>
      }
    }
  }

  // ---- Circular waiting ----

  function After(i: nat, n: nat): nat { if i + 1 >= n then 0 else i + 1 }

  /** The transactions `ring` run the operations `ops` and wait for each other in a circle. */
  ghost predicate Deadlocked(hash: Hash, s: System, ring: seq<nat>, ops: seq<seq<Job>>)
  {
    && |ring| == |ops|
    && (forall i, j :: 0 <= i < j < |ring| ==> ring[i] != ring[j])
    && (forall i :: 0 <= i < |ring| ==> ring[i] in s.live && s.live[ring[i]].jobs == ops[i])
    && (forall i :: 0 <= i < |ring| ==> WaitsFor(hash, s, ring[i], ring[After(i, |ring|)]))
  }

  /** An operation that has taken claims[..p] is stopped by what another one has taken: it asks for a pair that is
      taken; or for a lot that is taken, or whose pair is; or for lots of a pair of its own, one of which is taken. */
  ghost predicate StoppedBy(claims: seq<Claim>, p: nat, taken: seq<Claim>)
    requires p <= |claims|
  {
    || (p < |claims| && claims[p] in taken)
    || (p < |claims| && claims[p].Row? && Pair(claims[p].lot.home) in taken)
    || (exists lot :: Row(lot) in taken && Pair(lot.home) in claims[..p])
  }

  ghost predicate Positions(ops: seq<seq<Job>>, ps: seq<nat>)
  {
    |ps| == |ops| && forall i :: 0 <= i < |ops| ==> ps[i] <= |Claims(ops[i])|
  }

  /** The claims that the i-th operation has taken when it stops at its position. */
  function Taken(ops: seq<seq<Job>>, ps: seq<nat>, i: nat): seq<Claim>
    requires Positions(ops, ps) && i < |ops|
  {
    Claims(ops[i])[..ps[i]]
  }

  ghost predicate NoneShared(a: seq<Claim>, b: seq<Claim>) { forall c :: c in a ==> c !in b }

  /** Positions where the claims taken are disjoint and each operation is stopped by what the next has taken. */
  ghost predicate Crossing(ops: seq<seq<Job>>, ps: seq<nat>)
  {
    && Positions(ops, ps)
    && (forall i :: 0 <= i < |ops| ==> StoppedBy(Claims(ops[i]), ps[i], Taken(ops, ps, After(i, |ops|))))
    && (forall i, j :: 0 <= i < |ops| && 0 <= j < |ops| && i != j ==> NoneShared(Taken(ops, ps, i), Taken(ops, ps, j)))
  }

  /** The hash tells the pairs apart that these operations lock. */
  ghost predicate TellsOps(hash: Hash, ops: seq<seq<Job>>)
  {
    forall i, j, k, h :: (
      0 <= i < |ops| && 0 <= j < |ops| && k in AllLocks(ops[i]) && h in AllLocks(ops[j]) && hash(k) == hash(h)
      ==> k == h)
  }

  lemma {:induction false} PairTaken(th: Thread, k: Key)
    requires OnTrack(th)
    ensures k in th.held <==> Pair(k) in Claims(th.jobs)[..Passed(th)]
  {
    hide Claims, TodoClaims, HasUpdated, Passed;
    var taken := Claims(th.jobs)[..Passed(th)];
    if k in th.held {
      var i :| 0 <= i < |taken| && taken[i].Pair? && taken[i].key == k;
      assert taken[i] == Pair(k);
    }
  }

  /** Whoever waits is stopped by what the other one has taken. */
  lemma {:induction false} WaitStops(hash: Hash, th: Thread, other: Thread)
    requires OnTrack(th) && OnTrack(other) && Waits(hash, th, other) && th.held !! other.held
    requires LockWait(hash, th, other) ==> th.todo[0].key in other.held
    ensures Passed(th) <= |Claims(th.jobs)| && Passed(other) <= |Claims(other.jobs)|
    ensures StoppedBy(Claims(th.jobs), Passed(th), Claims(other.jobs)[..Passed(other)])
  {
    hide Claims, HasUpdated, Passed, PairsOf;
    var claims, p, taken, task := Claims(th.jobs), Passed(th), Claims(other.jobs)[..Passed(other)], th.todo[0];
    if LockWait(hash, th, other) {
      PairTaken(other, task.key);
      assert claims[p..][0] == Pair(task.key);
    } else {
      var lot := RowUpdated(task).value;
      PairTaken(th, lot.home);
      PairTaken(other, lot.home);
      if lot.home !in th.held {
        assert task.Draw? by { assert Needs(false, task) <= th.held; }
        assert claims[p..][0] == Row(lot);
      }
    }
  }

  /** In every run, operations of any kind whose lock keys differ and that wait in a circle cross. */
  lemma {:induction false} DeadlockCrosses(hash: Hash, catalog: Catalog, db: Db, es: seq<Event>, ring: seq<nat>,
      ops: seq<seq<Job>>)
    requires TellsOps(hash, ops) && |ops| >= 2 && Run(hash, catalog, Start(db), es).Some?
    requires Deadlocked(hash, Run(hash, catalog, Start(db), es).value, ring, ops)
    ensures exists ps :: Crossing(ops, ps)
  {
    hide Run, OnTrack, Separate, RowsApart, Inside, Waits, TellsOps;
    var s := Run(hash, catalog, Start(db), es).value;
    RunOnTrack(hash, catalog, db, es);
    RunSeparate(hash, catalog, db, es);
    RunRowsApart(hash, catalog, db, es);
    RunInside(hash, catalog, db, es);
    forall i | 0 <= i < |ring| ensures OnTrack(s.live[ring[i]]) {
      assert WaitsFor(hash, s, ring[i], ring[After(i, |ring|)]);
      WaiterSteps(hash, s, ring[i], ring[After(i, |ring|)]);
    }
    var ps: seq<nat> := seq(|ring|, i requires 0 <= i < |ring| => Passed(s.live[ring[i]]));
    StoppedCross(hash, s, es, ring, ops, ps);
  }

  lemma {:induction false} WaiterSteps(hash: Hash, s: System, t: nat, u: nat)
    requires WaitsFor(hash, s, t, u)
    ensures !s.live[t].failed
  {
  }

  lemma {:induction false} StoppedCross(hash: Hash, s: System, es: seq<Event>, ring: seq<nat>, ops: seq<seq<Job>>,
      ps: seq<nat>)
    requires TellsOps(hash, ops) && |ops| >= 2 && Separate(hash, s) && RowsApart(s) && AllInside(s, es)
    requires Deadlocked(hash, s, ring, ops) && |ps| == |ring|
    requires forall i :: 0 <= i < |ring| ==> OnTrack(s.live[ring[i]]) && ps[i] == Passed(s.live[ring[i]])
    ensures Crossing(ops, ps)
  {
    hide Claims, Passed, OnTrack, Separate, RowsApart, StoppedBy, TellsOps, AllInside, Waits;
    forall i | 0 <= i < |ops| ensures ps[i] <= |Claims(ops[i])| { PassedInside(s.live[ring[i]]); }
    forall i | 0 <= i < |ops| ensures StoppedBy(Claims(ops[i]), ps[i], Taken(ops, ps, After(i, |ops|))) {
      var j := After(i, |ops|);
      assert WaitsFor(hash, s, ring[i], ring[j]);
      RingStops(hash, s, es, ops, ring[i], ring[j], i, j);
    }
    forall i, j | 0 <= i < |ops| && 0 <= j < |ops| && i != j ensures NoneShared(Taken(ops, ps, i), Taken(ops, ps, j)) {
      forall c | c in Taken(ops, ps, i) ensures c !in Taken(ops, ps, j) { NotTakenTwice(hash, s, ring[i], ring[j], c); }
    }
  }

  lemma {:induction false} PassedInside(th: Thread)
    requires OnTrack(th)
    ensures Passed(th) <= |Claims(th.jobs)|
  {
    hide Claims, TodoClaims;
  }

  lemma {:induction false} RingStops(hash: Hash, s: System, es: seq<Event>, ops: seq<seq<Job>>, t: nat, u: nat, i: nat,
      j: nat)
    requires TellsOps(hash, ops) && Separate(hash, s) && AllInside(s, es) && WaitsFor(hash, s, t, u)
    requires i < |ops| && j < |ops| && s.live[t].jobs == ops[i] && s.live[u].jobs == ops[j]
    requires OnTrack(s.live[t]) && OnTrack(s.live[u])
    ensures Passed(s.live[t]) <= |Claims(ops[i])| && Passed(s.live[u]) <= |Claims(ops[j])|
    ensures StoppedBy(Claims(ops[i]), Passed(s.live[t]), Claims(ops[j])[..Passed(s.live[u])])
  {
    hide Claims, Passed, OnTrack, StoppedBy, HasUpdated, AllLocks, Separate;
    var th, other := s.live[t], s.live[u];
    assert Inside(th) && Inside(other);
    forall k | k in th.held ensures k !in other.held { SeparateHeldOnce(hash, s, t, u, k); }
    if LockWait(hash, th, other) {
      var k := th.todo[0].key;
      assert k in AcquiredBy(th.todo);
      var h :| h in other.held && hash(h) == hash(k);
    }
    WaitStops(hash, th, other);
  }

  lemma {:induction false} NotTakenTwice(hash: Hash, s: System, t: nat, u: nat, c: Claim)
    requires Separate(hash, s) && RowsApart(s) && t in s.live && u in s.live && t != u
    requires OnTrack(s.live[t]) && OnTrack(s.live[u])
    requires Passed(s.live[t]) <= |Claims(s.live[t].jobs)| && Passed(s.live[u]) <= |Claims(s.live[u].jobs)|
    requires c in Claims(s.live[t].jobs)[..Passed(s.live[t])]
    ensures c !in Claims(s.live[u].jobs)[..Passed(s.live[u])]
  {
    hide Claims, Passed, HasUpdated, Separate, PairsOf, TodoClaims, Covered;
    if c.Pair? {
      PairTaken(s.live[t], c.key);
      PairTaken(s.live[u], c.key);
      SeparateHeldOnce(hash, s, t, u, c.key);
    } else {
      assert HasUpdated(s.live[t], c.lot);
    }
  }

  // ---- Operations that can come to a circle alone ----

  /** A transaction can come to this alone while `db` stays committed. */
  ghost predicate ComesTo(catalog: Catalog, db: Db, th: Thread)
  {
    exists n :: Advanced(Fresh(th.jobs, th.clock), n, catalog, db) == Some(th)
  }

  /** Neither has locked or updated what the other has. */
  ghost predicate Compatible(hash: Hash, a: Thread, b: Thread)
  {
    Apart(hash, a.held, b.held) && forall lot :: HasUpdated(a, lot) ==> !HasUpdated(b, lot)
  }

  /** Transactions that run the operations, each as it is alone, compatible, and each stopped by the next. */
  ghost predicate Stand(hash: Hash, catalog: Catalog, db: Db, ths: seq<Thread>, ops: seq<seq<Job>>)
  {
    && |ths| == |ops|
    && (forall i :: 0 <= i < |ths| ==> ths[i].jobs == ops[i] && ComesTo(catalog, db, ths[i]))
    && (forall i, j :: 0 <= i < |ths| && 0 <= j < |ths| && i != j ==> Compatible(hash, ths[i], ths[j]))
    && (forall i :: 0 <= i < |ths| ==> Waits(hash, ths[i], ths[After(i, |ths|)]))
  }

  /** Nothing has been committed; the transactions below m have come to `ths`. */
  ghost predicate Standing(s: System, db: Db, ths: seq<Thread>, m: nat)
    requires m <= |ths|
  {
    s.db == db && (forall t: nat :: t in s.live <==> t < m) && forall t: nat :: t < m ==> s.live[t] == ths[t]
  }

  /** Only these operations run, and none is committed. */
  ghost predicate OnlyThese(es: seq<Event>, ops: seq<seq<Job>>)
  {
    && (forall i :: 0 <= i < |es| ==> !es[i].Commit?)
    && (forall i :: 0 <= i < |es| && es[i].Begin? ==> es[i].jobs in ops)
  }

  lemma {:induction false} StandUp(hash: Hash, catalog: Catalog, db: Db, ths: seq<Thread>, ops: seq<seq<Job>>, m: nat)
    returns (es: seq<Event>, s: System)
    requires Stand(hash, catalog, db, ths, ops) && m <= |ths|
    ensures Run(hash, catalog, Start(db), es) == Some(s) && Standing(s, db, ths, m) && OnlyThese(es, ops)
  {
    hide Run, Compatible, Waits, ComesTo, FreeFor, Advanced;
    if m == 0 {
      es, s := [], Start(db);
      NothingRun(hash, catalog, Start(db));
    } else {
      var before, id := Start(db), m - 1;
      es, before := StandUp(hash, catalog, db, ths, ops, id);
      var th := ths[id];
      var n := Come(catalog, db, th);
      forall i | 0 <= i < id ensures Compatible(hash, ths[i], th) { }
      StandFree(hash, before, ths, id);
      var more := Enter(hash, catalog, Start(db), es, before, id, n, th);
      es, s := es + more, before.(live := before.live[id := th]);
    }
  }

  lemma {:induction false} Come(catalog: Catalog, db: Db, th: Thread) returns (n: nat)
    requires ComesTo(catalog, db, th)
    ensures Advanced(Fresh(th.jobs, th.clock), n, catalog, db) == Some(th)
  {
    n :| Advanced(Fresh(th.jobs, th.clock), n, catalog, db) == Some(th);
  }

  lemma {:induction false} StandFree(hash: Hash, s: System, ths: seq<Thread>, id: nat)
    requires id < |ths| && Standing(s, s.db, ths, id) && forall i :: 0 <= i < id ==> Compatible(hash, ths[i], ths[id])
    ensures FreeFor(hash, s, id, ths[id])
  {
    hide HasUpdated;
    forall k | k in ths[id].held ensures LockFree(hash, s, id, k) {
      forall u, h | u in s.live && u != id && h in s.live[u].held ensures hash(h) != hash(k) {
        assert Compatible(hash, ths[u], ths[id]);
      }
    }
    forall lot | HasUpdated(ths[id], lot) ensures RowFree(s, id, lot) {
      forall u | u in s.live && u != id ensures !HasUpdated(s.live[u], lot) {
        assert Compatible(hash, ths[u], ths[id]);
      }
    }
  }

  lemma {:induction false} NothingRun(hash: Hash, catalog: Catalog, s: System)
    ensures Run(hash, catalog, s, []) == Some(s)
  {
  }

  /** Operations that can each come to a stop alone, compatible and each stopped by the next, do wait for each
      other in a circle in some run. */
  lemma {:induction false} StandDeadlocks(hash: Hash, catalog: Catalog, db: Db, ths: seq<Thread>, ops: seq<seq<Job>>)
    returns (es: seq<Event>, s: System, ring: seq<nat>)
    requires |ops| >= 2 && Stand(hash, catalog, db, ths, ops)
    ensures Run(hash, catalog, Start(db), es) == Some(s) && Deadlocked(hash, s, ring, ops) && OnlyThese(es, ops)
  {
    hide Run, Compatible, ComesTo, OnlyThese, Waits;
    es, s := StandUp(hash, catalog, db, ths, ops, |ths|);
    ring := seq(|ops|, i => i);
  }

  ghost predicate NoCommit(es: seq<Event>) { forall i :: 0 <= i < |es| ==> !es[i].Commit? }

  lemma {:induction false} RunUncommitted(hash: Hash, catalog: Catalog, db: Db, es: seq<Event>)
    requires NoCommit(es) && Run(hash, catalog, Start(db), es).Some?
    ensures var s := Run(hash, catalog, Start(db), es).value;
            s.db == db && forall id :: id in s.live ==> ComesTo(catalog, db, s.live[id])
  {
    hide ComesTo, Step, Unblocked;
    if es != [] {
      var n := |es| - 1;
      RunUncommitted(hash, catalog, db, es[..n]);
      var s := Run(hash, catalog, Start(db), es[..n]).value;
      match es[n] {
        case Begin(_, jobs, clock) => FreshComes(catalog, db, jobs, clock);
        case Execute(id) => StepComes(catalog, db, s.live[id]);
        case Rollback(_) =>
      }
    }
  }

  lemma {:induction false} FreshComes(catalog: Catalog, db: Db, jobs: seq<Job>, clock: Clock)
    ensures ComesTo(catalog, db, Fresh(jobs, clock))
  {
    assert Advanced(Fresh(jobs, clock), 0, catalog, db) == Some(Fresh(jobs, clock));
  }

  lemma {:induction false} StepComes(catalog: Catalog, db: Db, th: Thread)
    requires CanStep(th) && ComesTo(catalog, db, th)
    ensures ComesTo(catalog, db, Step(th, catalog, db))
  {
    hide Step;
    var n := Come(catalog, db, th);
    StepKeepsRequest(th, catalog, db);
    assert Advanced(Fresh(th.jobs, th.clock), n + 1, catalog, db) == Some(Step(th, catalog, db));
  }

  /** Exactly when operations of any kind can deadlock before anything is committed, for every hash. */
  lemma {:induction false} UncommittedDeadlockIff(hash: Hash, catalog: Catalog, db: Db, ops: seq<seq<Job>>)
    requires |ops| >= 2
    ensures (exists es, s, ring :: (
               NoCommit(es) && Run(hash, catalog, Start(db), es) == Some(s) && Deadlocked(hash, s, ring, ops)))
            <==> exists ths :: Stand(hash, catalog, db, ths, ops)
  {
    hide Run, Deadlocked, Stand;
    if es, s, ring :| NoCommit(es) && Run(hash, catalog, Start(db), es) == Some(s) && Deadlocked(hash, s, ring, ops) {
      RunUncommitted(hash, catalog, db, es);
      RunSeparate(hash, catalog, db, es);
      RunRowsApart(hash, catalog, db, es);
      DeadlockedStand(hash, catalog, s, ring, ops);
    }
    if ths :| Stand(hash, catalog, db, ths, ops) {
      var es, s, ring := StandDeadlocks(hash, catalog, db, ths, ops);
    }
  }

  lemma {:induction false} DeadlockedStand(hash: Hash, catalog: Catalog, s: System, ring: seq<nat>,
      ops: seq<seq<Job>>)
    requires |ops| >= 2 && Deadlocked(hash, s, ring, ops) && Separate(hash, s) && RowsApart(s)
    requires forall id :: id in s.live ==> ComesTo(catalog, s.db, s.live[id])
    ensures exists ths :: Stand(hash, catalog, s.db, ths, ops)
  {
    hide Waits, ComesTo, HasUpdated, Apart;
    var ths := seq(|ring|, i requires 0 <= i < |ring| => s.live[ring[i]]);
    forall i, j | 0 <= i < |ths| && 0 <= j < |ths| && i != j ensures Compatible(hash, ths[i], ths[j]) {
      assert ring[i] != ring[j];
    }
    forall i | 0 <= i < |ths| ensures Waits(hash, ths[i], ths[After(i, |ths|)]) {
      assert WaitsFor(hash, s, ring[i], ring[After(i, |ring|)]);
    }
    assert Stand(hash, catalog, s.db, ths, ops);
  }

  // ---- Confirmations: lists of entries, which never fail ----

  ghost predicate Entries(jobs: seq<Job>) { forall i :: 0 <= i < |jobs| ==> jobs[i].Credit? }

  function Keys(jobs: seq<Job>): (r: seq<Key>)
    ensures |r| == |jobs|
  {
    seq(|jobs|, i requires 0 <= i < |jobs| => jobs[i].key)
  }

  function PairClaims(keys: seq<Key>): (r: seq<Claim>)
    ensures |r| == |keys|
  {
    seq(|keys|, i requires 0 <= i < |keys| => Pair(keys[i]))
  }

  predicate Plain(task: Task) { task.Lock? || task.OpenLot? || task.ReadStock? || task.Insert? }

  lemma {:induction false} EntryTasks(job: Job, held: set<Key>)
    requires job.Credit?
    ensures TodoClaims(JobTasks(job), held) == [Pair(job.key)]
    ensures forall task :: task in JobTasks(job) ==> Plain(task)
  {
    var ts := JobTasks(job);
    assert ts == [ts[0], ts[1]] && ts[1..][1..] == [];
    NoClaims(ts[1..], held + {job.key});
  }

  lemma {:induction false} EntriesClaims(jobs: seq<Job>, held: set<Key>)
    requires Entries(jobs)
    ensures TodoClaims(Script(jobs), held) == PairClaims(Keys(jobs))
    ensures forall task :: task in Script(jobs) ==> Plain(task)
  {
    hide JobTasks, Plain, TaskClaims, Acquired;
    if jobs != [] {
      EntryTasks(jobs[0], held);
      JobAcquires(jobs[0]);
      EntriesClaims(jobs[1..], held + LocksOf(jobs[0]));
      ClaimsJoin(JobTasks(jobs[0]), Script(jobs[1..]), held);
      assert PairClaims(Keys(jobs)) == [Pair(jobs[0].key)] + PairClaims(Keys(jobs[1..]));
    }
  }

  lemma {:induction false} EntriesLocks(jobs: seq<Job>, k: Key)
    requires Entries(jobs)
    ensures k in AllLocks(jobs) <==> k in Keys(jobs)
  {
    hide JobTasks, LocksOf;
    if jobs != [] {
      assert LocksOf(jobs[0]) == {jobs[0].key} by { EntryLocks(jobs[0]); }
      EntriesLocks(jobs[1..], k);
      JobAcquires(jobs[0]);
      AcquiredParts(JobTasks(jobs[0]), Script(jobs[1..]));
      assert Keys(jobs) == [jobs[0].key] + Keys(jobs[1..]);
    }
  }

  lemma {:induction false} EntryLocks(job: Job)
    requires job.Credit?
    ensures LocksOf(job) == {job.key}
  {
  }

  lemma {:induction false} PlainSucceeds(v: View, catalog: Catalog, clock: Clock, todo: seq<Task>)
    requires forall task :: task in todo ==> Plain(task)
    ensures Outcome(v, catalog, clock, todo).Ok?
    decreases |todo|
  {
    hide CreditLot, Post;
    if todo != [] {
      assert todo[0] in todo;
      PlainSucceeds(Effect(v, catalog, clock, todo[0]).value, catalog, clock, todo[1..]);
    }
  }

  lemma {:induction false} StepPlain(th: Thread, catalog: Catalog, db: Db)
    requires CanStep(th) && forall task :: task in th.todo ==> Plain(task)
    ensures RowUpdated(th.todo[0]).None? && forall task :: task in Step(th, catalog, db).todo ==> Plain(task)
  {
    hide Balance, Written, Apply;
    var task := th.todo[0];
    assert Plain(task);
    var left := Left(task, catalog, Apply(db, th.writes)).value;
    assert forall other :: other in left + th.todo[1..] ==> other in left || other in th.todo;
  }

  /** Entries update no lot. */
  lemma {:induction false} PlainUpdatesNothing(th: Thread, n: nat, catalog: Catalog, db: Db, out: Thread)
    requires Advanced(th, n, catalog, db) == Some(out) && (forall task :: task in th.todo ==> Plain(task))
    requires forall lot :: !HasUpdated(th, lot)
    ensures (forall task :: task in out.todo ==> Plain(task)) && forall lot :: !HasUpdated(out, lot)
  {
    hide HasUpdated, Step, Plain, RowUpdated;
    if n > 0 {
      var mid := Advanced(th, n - 1, catalog, db).value;
      PlainUpdatesNothing(th, n - 1, catalog, db, mid);
      StepPlain(mid, catalog, db);
      forall lot ensures !HasUpdated(out, lot) { StepUpdates(mid, catalog, db, lot); }
    }
  }

  ghost predicate ArrivedAt(catalog: Catalog, db: Db, th: Thread, jobs: seq<Job>, p: nat)
  {
    && ComesTo(catalog, db, th) && th.jobs == jobs && CanStep(th) && p < |jobs| && th.todo[0] == Lock(jobs[p].key)
    && (forall k :: k in th.held <==> k in Keys(jobs)[..p]) && forall lot :: !HasUpdated(th, lot)
  }

  /** The first p entries are done and the next lock is asked for. */
  lemma {:induction false} EntriesArrive(catalog: Catalog, db: Db, clock: Clock, jobs: seq<Job>, p: nat)
    returns (th: Thread)
    requires Entries(jobs) && p < |jobs|
    ensures ArrivedAt(catalog, db, th, jobs, p)
  {
    hide Advanced, Outcome, HasUpdated, Plain, Script;
    var done, rest := jobs[..p], jobs[p..];
    ScriptJoin(done, rest);
    assert done + rest == jobs;
    EntriesClaims(jobs, {});
    EntriesClaims(done, {});
    PlainSucceeds(View(db, 0, []), catalog, clock, Script(done));
    var n;
    n, th := Arrives(catalog, db, jobs, clock, Script(done), Script(rest));
    NothingUpdated(jobs, clock);
    PlainUpdatesNothing(Fresh(jobs, clock), n, catalog, db, th);
    FirstIsLock(rest);
    assert Keys(jobs)[..p] == Keys(done);
    forall k ensures k in th.held <==> k in Keys(jobs)[..p] { EntriesLocks(done, k); }
  }

  lemma {:induction false} FirstIsLock(jobs: seq<Job>)
    requires Entries(jobs) && jobs != []
    ensures Script(jobs) != [] && Script(jobs)[0] == Lock(jobs[0].key)
  {
  }

  lemma {:induction false} ScriptJoin(a: seq<Job>, b: seq<Job>)
    ensures Script(a + b) == Script(a) + Script(b)
  {
    hide JobTasks;
    if a == [] {
      assert a + b == b;
    } else {
      ScriptJoin(a[1..], b);
      assert (a + b)[1..] == a[1..] + b;
      assert JobTasks(a[0]) + (Script(a[1..]) + Script(b)) == JobTasks(a[0]) + Script(a[1..]) + Script(b);
    }
  }

  /** A circular wait of transactions that run these operations is reachable. */
  ghost predicate CanDeadlock(hash: Hash, catalog: Catalog, db: Db, ops: seq<seq<Job>>)
  {
    exists es, s, ring :: (Run(hash, catalog, Start(db), es) == Some(s) && Deadlocked(hash, s, ring, ops))
  }

  ghost predicate KeysApart(a: seq<Job>, p: nat, b: seq<Job>, q: nat)
    requires p <= |a| && q <= |b|
  {
    forall k :: k in Keys(a)[..p] ==> k !in Keys(b)[..q]
  }

  /** The entry number p of one asks for a pair among the first q of the other. */
  predicate AsksFor(jobs: seq<Job>, p: nat, other: seq<Job>, q: nat)
  {
    p < |jobs| && q <= |other| && jobs[p].key in Keys(other)[..q]
  }

  lemma {:induction false} EntriesStopped(jobs: seq<Job>, p: nat, other: seq<Job>, q: nat)
    requires Entries(jobs) && Entries(other) && p <= |Claims(jobs)| && q <= |Claims(other)|
    requires StoppedBy(Claims(jobs), p, Claims(other)[..q])
    ensures AsksFor(jobs, p, other, q)
  {
    hide Script, TodoClaims, Keys;
    EntriesClaims(jobs, {});
    EntriesClaims(other, {});
    forall lot ensures Row(lot) !in Claims(other)[..q] { }
    KeysAt(jobs, p);
    PairIn(Keys(other), q, jobs[p].key);
  }

  lemma {:induction false} EntriesDisjoint(a: seq<Job>, p: nat, b: seq<Job>, q: nat)
    requires Entries(a) && Entries(b) && p <= |a| && q <= |b| && |Claims(a)| == |a| && |Claims(b)| == |b|
    requires NoneShared(Claims(a)[..p], Claims(b)[..q])
    ensures KeysApart(a, p, b, q)
  {
    hide Script, TodoClaims, Keys;
    EntriesClaims(a, {});
    EntriesClaims(b, {});
    forall k | k in Keys(a)[..p] ensures k !in Keys(b)[..q] {
      PairIn(Keys(a), p, k);
      PairIn(Keys(b), q, k);
    }
  }

  /** A crossing of confirmations, in terms of their pairs. */
  ghost predicate KeysCross(ops: seq<seq<Job>>, ps: seq<nat>)
  {
    && |ps| == |ops| && (forall i :: 0 <= i < |ops| ==> ps[i] < |ops[i]|)
    && (forall i :: 0 <= i < |ops| ==> AsksFor(ops[i], ps[i], ops[After(i, |ops|)], ps[After(i, |ops|)]))
    && (forall i, j :: 0 <= i < |ops| && 0 <= j < |ops| && i != j ==> KeysApart(ops[i], ps[i], ops[j], ps[j]))
  }

  lemma {:induction false} EntriesCross(ops: seq<seq<Job>>, ps: seq<nat>)
    requires |ops| >= 2 && Crossing(ops, ps) && forall j :: 0 <= j < |ops| ==> Entries(ops[j])
    ensures KeysCross(ops, ps)
  {
    hide Claims, Keys, StoppedBy, Entries, NoneShared, AsksFor, KeysApart;
    forall i | 0 <= i < |ops|
      ensures ps[i] < |ops[i]| && AsksFor(ops[i], ps[i], ops[After(i, |ops|)], ps[After(i, |ops|)])
    {
      var j := After(i, |ops|);
      assert Taken(ops, ps, j) == Claims(ops[j])[..ps[j]];
      EntriesStopped(ops[i], ps[i], ops[j], ps[j]);
      AskedInside(ops[i], ps[i], ops[j], ps[j]);
    }
    forall i, j | 0 <= i < |ops| && 0 <= j < |ops| && i != j ensures KeysApart(ops[i], ps[i], ops[j], ps[j]) {
      assert NoneShared(Taken(ops, ps, i), Taken(ops, ps, j));
      TakenApart(ops, ps, i, j);
    }
  }

  lemma {:induction false} TakenApart(ops: seq<seq<Job>>, ps: seq<nat>, i: nat, j: nat)
    requires Positions(ops, ps) && i < |ops| && j < |ops| && NoneShared(Taken(ops, ps, i), Taken(ops, ps, j))
    requires Entries(ops[i]) && Entries(ops[j]) && ps[i] <= |ops[i]| && ps[j] <= |ops[j]|
    ensures KeysApart(ops[i], ps[i], ops[j], ps[j])
  {
    hide Claims, Entries, NoneShared, KeysApart;
    EntriesCount(ops[i]);
    EntriesCount(ops[j]);
    EntriesDisjoint(ops[i], ps[i], ops[j], ps[j]);
  }

  lemma {:induction false} AskedInside(jobs: seq<Job>, p: nat, other: seq<Job>, q: nat)
    requires AsksFor(jobs, p, other, q)
    ensures p < |jobs|
  {
  }

  lemma {:induction false} EntriesCount(jobs: seq<Job>)
    requires Entries(jobs)
    ensures |Claims(jobs)| == |jobs|
  {
    hide Script, TodoClaims;
    EntriesClaims(jobs, {});
  }

  lemma {:induction false} PairIn(keys: seq<Key>, p: nat, k: Key)
    requires p <= |keys|
    ensures k in keys[..p] <==> Pair(k) in PairClaims(keys)[..p]
  {
    if k in keys[..p] {
      var i :| 0 <= i < p && keys[i] == k;
      assert PairClaims(keys)[..p][i] == Pair(k);
    }
  }

  lemma {:induction false} KeysAt(jobs: seq<Job>, i: nat)
    requires i < |jobs|
    ensures Keys(jobs)[i] == jobs[i].key
  {
  }

  lemma {:induction false} EntriesStand(hash: Hash, catalog: Catalog, db: Db, ops: seq<seq<Job>>, ps: seq<nat>)
    returns (ths: seq<Thread>)
    requires TellsOps(hash, ops) && |ops| >= 2 && KeysCross(ops, ps)
    requires forall i :: 0 <= i < |ops| ==> Entries(ops[i])
    ensures Stand(hash, catalog, db, ths, ops)
  {
    hide Entries, Keys, ComesTo, HasUpdated, TellsOps, Compatible, KeysApart, AsksFor, ArrivedAt, Waits;
    var clock: Clock := n => n;
    ths := [];
    while |ths| < |ops|
      invariant |ths| <= |ops|
      invariant forall i :: 0 <= i < |ths| ==> ArrivedAt(catalog, db, ths[i], ops[i], ps[i])
    {
      var i := |ths|;
      var th := EntriesArrive(catalog, db, clock, ops[i], ps[i]);
      ths := ths + [th];
    }
    forall i, j | 0 <= i < |ths| && 0 <= j < |ths| && i != j ensures Compatible(hash, ths[i], ths[j]) {
      EntriesApart(hash, catalog, db, ths, ops, ps, i, j);
    }
    forall i | 0 <= i < |ths|
      ensures Waits(hash, ths[i], ths[After(i, |ths|)]) && ths[i].jobs == ops[i] && ComesTo(catalog, db, ths[i])
    {
      var j := After(i, |ths|);
      EntriesWait(hash, catalog, db, ths[i], ops[i], ps[i], ths[j], ops[j], ps[j]);
    }
  }

  lemma {:induction false} EntriesWait(hash: Hash, catalog: Catalog, db: Db, th: Thread, jobs: seq<Job>, p: nat,
      other: Thread, otherJobs: seq<Job>, q: nat)
    requires ArrivedAt(catalog, db, th, jobs, p) && ArrivedAt(catalog, db, other, otherJobs, q)
    requires AsksFor(jobs, p, otherJobs, q)
    ensures Waits(hash, th, other) && th.jobs == jobs && ComesTo(catalog, db, th)
  {
    hide ComesTo, HasUpdated, Keys;
    assert jobs[p].key in other.held;
  }

  lemma {:induction false} EntriesApart(hash: Hash, catalog: Catalog, db: Db, ths: seq<Thread>, ops: seq<seq<Job>>,
      ps: seq<nat>, i: nat, j: nat)
    requires TellsOps(hash, ops) && |ths| == |ops| && i < |ops| && j < |ops| && i != j && |ps| == |ops|
    requires Entries(ops[i]) && Entries(ops[j])
    requires ArrivedAt(catalog, db, ths[i], ops[i], ps[i]) && ArrivedAt(catalog, db, ths[j], ops[j], ps[j])
    requires KeysApart(ops[i], ps[i], ops[j], ps[j])
    ensures Compatible(hash, ths[i], ths[j])
  {
    hide Entries, Keys, ComesTo, AllLocks, HasUpdated;
    forall k, h | k in ths[i].held && h in ths[j].held ensures hash(k) != hash(h) {
      EntriesLocks(ops[i], k);
      EntriesLocks(ops[j], h);
    }
  }

  /** Any number of confirmations, on any tables, can come to wait for each other in a circle exactly when
      their lists of pairs cross. */
  lemma {:induction false} ConfirmationsDeadlockIff(hash: Hash, catalog: Catalog, db: Db, ops: seq<seq<Job>>)
    requires TellsOps(hash, ops) && |ops| >= 2 && forall i :: 0 <= i < |ops| ==> Entries(ops[i])
    ensures CanDeadlock(hash, catalog, db, ops) <==> exists ps :: Crossing(ops, ps)
  {
    hide Run, Crossing, KeysCross, Deadlocked, TellsOps, Stand, Entries;
    if CanDeadlock(hash, catalog, db, ops) {
      var es, s, ring :| Run(hash, catalog, Start(db), es) == Some(s) && Deadlocked(hash, s, ring, ops);
      DeadlockCrosses(hash, catalog, db, es, ring, ops);
    }
    if ps :| Crossing(ops, ps) {
      EntriesCross(ops, ps);
      var ths := EntriesStand(hash, catalog, db, ops, ps);
      var es, s, ring := StandDeadlocks(hash, catalog, db, ths, ops);
    }
  }

  /** For two confirmations: one has locked its first i pairs and the other its first j, these are disjoint,
      and each asks for a pair the other has locked. */
  ghost predicate TwoCross(a: seq<Job>, b: seq<Job>, i: nat, j: nat)
  {
    && i < |a| && j < |b|
    && (forall k :: k in Keys(a)[..i] ==> k !in Keys(b)[..j])
    && a[i].key in Keys(b)[..j] && b[j].key in Keys(a)[..i]
  }

  lemma {:induction false} TwoConfirmationsDeadlockIff(hash: Hash, catalog: Catalog, db: Db, a: seq<Job>, b: seq<Job>)
    requires TellsOps(hash, [a, b]) && Entries(a) && Entries(b)
    ensures CanDeadlock(hash, catalog, db, [a, b]) <==> exists i, j :: TwoCross(a, b, i, j)
  {
    hide CanDeadlock, TellsOps, Entries, Crossing, TwoCross;
    var ops := [a, b];
    assert ops[0] == a && ops[1] == b;
    ConfirmationsDeadlockIff(hash, catalog, db, ops);
    if ps :| Crossing(ops, ps) { CrossingTwo(a, b, ps); }
    if i, j :| TwoCross(a, b, i, j) { TwoCrossing(a, b, i, j); }
  }

  lemma {:induction false} CrossingTwo(a: seq<Job>, b: seq<Job>, ps: seq<nat>)
    requires Entries(a) && Entries(b) && Crossing([a, b], ps)
    ensures |ps| == 2 && TwoCross(a, b, ps[0], ps[1])
  {
    hide Entries, Keys, Claims;
    var ops := [a, b];
    assert ops[0] == a && ops[1] == b;
    EntriesCross(ops, ps);
    assert AsksFor(ops[0], ps[0], ops[After(0, 2)], ps[After(0, 2)]);
    assert AsksFor(ops[1], ps[1], ops[After(1, 2)], ps[After(1, 2)]);
    assert KeysApart(ops[0], ps[0], ops[1], ps[1]);
  }

  lemma {:induction false} TwoCrossing(a: seq<Job>, b: seq<Job>, i: nat, j: nat)
    requires Entries(a) && Entries(b) && TwoCross(a, b, i, j)
    ensures exists ps :: Crossing([a, b], ps)
  {
    hide Entries, Keys, Claims;
    var ops, ps: seq<nat> := [a, b], [i, j];
    assert ops[0] == a && ops[1] == b;
    TwoClaims(a, b, i, j);
    assert Positions(ops, ps);
    assert Crossing(ops, ps);
  }

  lemma {:induction false} TwoClaims(a: seq<Job>, b: seq<Job>, i: nat, j: nat)
    requires Entries(a) && Entries(b) && TwoCross(a, b, i, j)
    ensures i < |Claims(a)| && j < |Claims(b)|
    ensures Claims(a)[i] in Claims(b)[..j] && Claims(b)[j] in Claims(a)[..i]
    ensures NoneShared(Claims(a)[..i], Claims(b)[..j]) && NoneShared(Claims(b)[..j], Claims(a)[..i])
  {
    hide Keys, TodoClaims, Script;
    EntriesClaims(a, {});
    EntriesClaims(b, {});
    KeysAt(a, i);
    KeysAt(b, j);
    PairIn(Keys(b), j, a[i].key);
    PairIn(Keys(a), i, b[j].key);
    forall c | c in Claims(a)[..i] ensures c !in Claims(b)[..j] {
      PairIn(Keys(a), i, c.key);
      PairIn(Keys(b), j, c.key);
    }
  }

  function Receipt(k: Key): Job { Credit(k, 1, NfeEntry, None) }

  /** The smallest case, for any hash that tells the two pairs apart: neither code nor schema orders the items
      of a confirmation, and two that list the same two pairs in opposite orders can wait for each other. */
  lemma {:induction false} OppositeOrdersDeadlock(hash: Hash, catalog: Catalog, db: Db, a: Key, b: Key)
    requires hash(a) != hash(b)
    ensures CanDeadlock(hash, catalog, db, [[Receipt(a), Receipt(b)], [Receipt(b), Receipt(a)]])
  {
    hide CanDeadlock, AllLocks;
    var x, y := [Receipt(a), Receipt(b)], [Receipt(b), Receipt(a)];
    assert Keys(x) == [a, b] && Keys(y) == [b, a];
    forall k ensures (k in AllLocks(x) <==> k == a || k == b) && (k in AllLocks(y) <==> k == a || k == b) {
      EntriesLocks(x, k);
      EntriesLocks(y, k);
    }
    assert Keys(x)[..1] == [a] && Keys(y)[..1] == [b];
    assert TwoCross(x, y, 1, 1);
    TwoConfirmationsDeadlockIff(hash, catalog, db, x, y);
  }

  // ---- Nobody gets out without a rollback ----

  lemma {:induction false} NextStillDeadlocked(hash: Hash, catalog: Catalog, s: System, e: Event, ring: seq<nat>,
      ops: seq<seq<Job>>)
    requires Deadlocked(hash, s, ring, ops) && Enabled(hash, s, e) && (e.Rollback? ==> e.id !in ring)
    ensures Deadlocked(hash, Next(hash, catalog, s, e), ring, ops)
  {
    hide Step, Apply, HasUpdated, RowUpdated;
    var next := Next(hash, catalog, s, e);
    forall i | 0 <= i < |ring| ensures ring[i] in next.live && next.live[ring[i]] == s.live[ring[i]] {
      assert WaitsFor(hash, s, ring[i], ring[After(i, |ring|)]);
    }
    forall i | 0 <= i < |ring| ensures WaitsFor(hash, next, ring[i], ring[After(i, |ring|)]) {
      assert WaitsFor(hash, s, ring[i], ring[After(i, |ring|)]);
      assert ring[After(i, |ring|)] in next.live;
    }
  }

  /** Once transactions wait in a circle they wait through every continuation, until one of them is rolled
      back. */
  lemma {:induction false} WaitingLasts(hash: Hash, catalog: Catalog, s: System, more: seq<Event>, ring: seq<nat>,
      ops: seq<seq<Job>>)
    requires Deadlocked(hash, s, ring, ops) && Run(hash, catalog, s, more).Some?
    requires forall i :: 0 <= i < |more| && more[i].Rollback? ==> more[i].id !in ring
    ensures Deadlocked(hash, Run(hash, catalog, s, more).value, ring, ops)
  {
    hide Deadlocked, Next, Enabled;
    if more != [] {
      var n := |more| - 1;
      WaitingLasts(hash, catalog, s, more[..n], ring, ops);
      NextStillDeadlocked(hash, catalog, Run(hash, catalog, s, more[..n]).value, more[n], ring, ops);
    }
  }
}
