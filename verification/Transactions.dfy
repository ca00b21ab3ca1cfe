/**
 The stock operations as concurrent database transactions, one SQL statement at a time.

 A transaction reads the committed rows together with its own uncommitted writes; a pair is locked
 by pg_advisory_xact_lock on a hash of the pair and stays locked until commit or rollback
 (services/app/src/modules/stock/balance.ts:15-17, libs/shared/src/db/client.ts:43-63). The hash is
 an arbitrary function: nothing here needs it to be injective. The database itself locks a lot row
 that a transaction updates, also until commit or rollback.
 */
module Transactions {
  import opened Prelude
  import opened Ledger
  import opened Stock

  // ---- Statements ----

  /** A statement still to be executed. A statement that reads a value puts it into the statement
      that uses it, so what a transaction has read travels in its remaining work. */
  datatype Task =
    | Lock(key: Key)                                                   // lockStockRow
    | FindProduct(product: int)                                        // product.findUnique
    | Resolve(job: Job)                                                // resolveExitLines
    | ReadStock(key: Key, quantity: int, kind: Kind, lot: Option<LotId>)  // nextBalanceAfter
    | Insert(key: Key, quantity: int, kind: Kind, lot: Option<LotId>, current: int)  // stockMovement.create
    | OpenLot(key: Key, number: string, expiry: int, quantity: int, kind: Kind)  // batch.create of an entry
    | Draw(id: LotId, quantity: int)                                   // batch.update ... decrement
    | ReadLot(id: LotId, to: Key, quantity: int)                       // batch.findUniqueOrThrow
    | FindDestination(to: Key, origin: Lot, quantity: int)             // batch.findFirst
    | Store(to: Key, origin: Lot, quantity: int, twin: Option<nat>)    // batch.update ... increment or batch.create
    | Persist(item: Item)                                              // saleItem.create, transferItem.create

  /** The pairs whose movements a statement, or what it leaves to do, reads or writes. */
  function RowNeeds(task: Task): set<Key>
  {
    match task
    case Resolve(job) => {job.key} + if job.Move? then {job.to} else {}
    case ReadStock(key, _, _, _) => {key}
    case Insert(key, _, _, _, _) => {key}
    case OpenLot(key, _, _, _, _) => {key}
    case ReadLot(_, to, _) => {to}
    case FindDestination(to, _, _) => {to}
    case Store(to, _, _, _) => {to}
    case _ => {}
  }

  /** The pairs whose lots a statement, or what it leaves to do, reads or writes. */
  function LotNeeds(task: Task): set<Key>
  {
    match task
    case Resolve(job) =>
      {job.key} + (if job.Move? then {job.to} else {})
      + if !job.Credit? && job.pick.Some? then {job.pick.value.home} else {}
    case OpenLot(key, _, _, _, _) => {key}
    case Draw(id, _) => {id.home}
    case ReadLot(id, to, _) => {id.home, to}
    case FindDestination(to, _, _) => {to}
    case Store(to, _, _, _) => {to}
    case _ => {}
  }

  function DebitTasks(job: Job, line: Line): seq<Task>
    requires job.Debit?
  {
    [ReadStock(job.key, -line.quantity, job.kind, line.lot)]
    + (if line.lot.Some? then [Draw(line.lot.value, line.quantity)] else [])
    + if job.price.Some? then [Persist(Item(job.key.product, line.lot, line.quantity, job.price.value))] else []
  }

  function MoveTasks(job: Job, line: Line): seq<Task>
    requires job.Move?
  {
    [ReadStock(job.key, -line.quantity, TransferOut, line.lot),
     if line.lot.Some? then ReadLot(line.lot.value, job.to, line.quantity)
      else ReadStock(job.to, line.quantity, TransferIn, None),
     Persist(Item(job.key.product, line.lot, line.quantity, 0))]
  }

  function LineTasks(job: Job, line: Line): seq<Task>
    requires !job.Credit?
  {
    if job.Debit? then DebitTasks(job, line) else MoveTasks(job, line)
  }

  function LinesTasks(job: Job, lines: seq<Line>): seq<Task>
    requires !job.Credit?
  {
    if lines == [] then [] else LineTasks(job, lines[0]) + LinesTasks(job, lines[1..])
  }

  predicate StoreBefore(a: Key, b: Key) { a.store < b.store }

  /** The statements of one item of an operation; a transfer locks its two stores in store order. */
  function JobTasks(job: Job): seq<Task>
  {
    match job
    case Credit(key, quantity, kind, lot) =>
      [Lock(key)] + (match lot
                     case None => [ReadStock(key, quantity, kind, None)]
                     case Some((number, expiry)) => [OpenLot(key, number, expiry, quantity, kind)])
    case Debit(key, _, _, _, _) =>
      [Lock(key), FindProduct(key.product), Resolve(job)]
    case Move(key, to, _, _) =>
      (if StoreBefore(key, to) then [Lock(key), Lock(to)] else [Lock(to), Lock(key)])
      + [FindProduct(key.product), Resolve(job)]
  }

  function Script(jobs: seq<Job>): seq<Task>
  {
    if jobs == [] then [] else JobTasks(jobs[0]) + Script(jobs[1..])
  }

  // ---- One transaction ----

  datatype Thread = Thread(
    jobs: seq<Job>,        // what it was asked to do
    clock: Clock,          // the timestamps its movements get
    todo: seq<Task>,       // the statements left
    writes: seq<Write>,    // its uncommitted writes, in order
    tick: nat,
    items: seq<Item>,
    held: set<Key>,        // the pairs it has locked
    steps: nat,            // statements executed
    failed: bool)          // an exception was thrown; only a rollback can follow

  function Fresh(jobs: seq<Job>, clock: Clock): Thread
  {
    Thread(jobs, clock, Script(jobs), [], 0, [], {}, 0, false)
  }

  function Apply(db: Db, writes: seq<Write>): Db
  {
    if writes == [] then db else Put(Apply(db, writes[..|writes| - 1]), writes[|writes| - 1])
  }

  /** The tables as the transaction sees them while `db` is committed. */
  function Sees(th: Thread, db: Db): View { View(Apply(db, th.writes), th.tick, th.items) }

  predicate CanStep(th: Thread) { !th.failed && th.todo != [] }

  function Acquired(task: Task): set<Key> { if task.Lock? then {task.key} else {} }

  /** The lot that a transfer credits: the one found, or the one it is about to create. */
  function StoredIn(task: Task, seen: Db): LotId
    requires task.Store?
  {
    LotId(task.to, task.twin.GetOr(|At(seen, task.to).lots|))
  }

  /** The row a statement writes, if any, when the transaction sees `seen`. */
  function Written(task: Task, seen: Db, createdAt: int): Option<Write>
  {
    match task
    case Insert(key, quantity, kind, lot, current) =>
      Some(InsertMovement(Movement(key, quantity, current + quantity, kind, lot, createdAt)))
    case OpenLot(key, number, expiry, quantity, _) => Some(CreateLot(key, Lot(number, expiry, quantity)))
    case Draw(id, quantity) => Some(AddToLot(id, -quantity))
    case Store(to, origin, quantity, twin) =>
      if twin.Some? then Some(AddToLot(StoredIn(task, seen), quantity))
      else Some(CreateLot(to, Lot(origin.number, origin.expiry, quantity)))
    case _ => None
  }

  /** What is left of a statement once it has read what it reads; None if it throws. */
  function Left(task: Task, catalog: Catalog, seen: Db): Option<seq<Task>>
  {
    match task
    case FindProduct(product) => if product in catalog then Some([]) else None
    case Resolve(job) =>
      if job.Credit? || job.key.product !in catalog then None
      else
        (match ResolveExitLines(seen, catalog[job.key.product], job.key, job.quantity, job.pick)
         case Err(_) => None
         case Ok(lines) => Some(LinesTasks(job, lines)))
    case ReadStock(key, quantity, kind, lot) => Some([Insert(key, quantity, kind, lot, CurrentStock(seen, key))])
    case OpenLot(key, number, expiry, quantity, kind) =>
      Some([ReadStock(key, quantity, kind, Some(LotId(key, |At(seen, key).lots|)))])
    case ReadLot(id, to, quantity) =>
      Some([Draw(id, quantity), FindDestination(to, FindLot(seen, id).GetOr(Lot("", 0, 0)), quantity)])
    case FindDestination(to, origin, quantity) =>
      Some([Store(to, origin, quantity, FindTwin(At(seen, to).lots, origin.number))])
    case Store(to, _, quantity, _) => Some([ReadStock(to, quantity, TransferIn, Some(StoredIn(task, seen)))])
    case _ => Some([])
  }

  function AndWrite(writes: seq<Write>, w: Option<Write>): seq<Write>
  {
    if w.Some? then writes + [w.value] else writes
  }

  /** Executes the next statement while `db` is committed. */
  function Step(th: Thread, catalog: Catalog, db: Db): Thread
    requires CanStep(th)
  {
    var task, seen := th.todo[0], Apply(db, th.writes);
    match Left(task, catalog, seen)
    case None => th.(steps := th.steps + 1, failed := true)
    case Some(left) =>
      th.(todo := left + th.todo[1..],
          writes := AndWrite(th.writes, Written(task, seen, th.clock(th.tick))),
          tick := th.tick + if task.Insert? then 1 else 0,
          items := th.items + if task.Persist? then [task.item] else [],
          held := th.held + Acquired(task),
          steps := th.steps + 1)
  }

  // ---- Row locks ----

  /** The lot row that a statement updates, if any. */
  function RowUpdated(task: Task): Option<LotId>
  {
    match task
    case Draw(id, _) => Some(id)
    case Store(to, _, _, Some(twin)) => Some(LotId(to, twin))
    case _ => None
  }

  ghost predicate HasUpdated(th: Thread, id: LotId) { exists w :: w in th.writes && w.AddToLot? && w.id == id }

  // ---- Any number of transactions ----

  /** The committed tables, the open transactions and the committed ones in commit order. */
  datatype System = System(db: Db, live: map<nat, Thread>, log: seq<Thread>)

  type Hash = Key -> int

  datatype Event =
    | Begin(id: nat, jobs: seq<Job>, clock: Clock)
    | Execute(id: nat)      // the next statement; it waits for locks of other transactions
    | Commit(id: nat)
    | Rollback(id: nat)     // after an exception, a timeout or a lost connection

  /** No other open transaction holds an advisory lock with the hash of `k`. */
  ghost predicate LockFree(hash: Hash, s: System, id: nat, k: Key)
  {
    forall u, h :: u in s.live && u != id && h in s.live[u].held ==> hash(h) != hash(k)
  }

  /** No other open transaction has updated the lot `lot`. */
  ghost predicate RowFree(s: System, id: nat, lot: LotId)
  {
    forall u :: u in s.live && u != id ==> !HasUpdated(s.live[u], lot)
  }

  /** The statement waits neither for an advisory lock nor for a row. */
  ghost predicate Unblocked(hash: Hash, s: System, id: nat, task: Task)
  {
    && (task.Lock? ==> LockFree(hash, s, id, task.key))
    && (RowUpdated(task).Some? ==> RowFree(s, id, RowUpdated(task).value))
  }

  ghost predicate Enabled(hash: Hash, s: System, e: Event)
  {
    match e
    case Begin(id, _, _) => id !in s.live
    case Execute(id) => id in s.live && CanStep(s.live[id]) && Unblocked(hash, s, id, s.live[id].todo[0])
    case Commit(id) => id in s.live && !s.live[id].failed && s.live[id].todo == []
    case Rollback(id) => id in s.live
  }

  ghost function Next(hash: Hash, catalog: Catalog, s: System, e: Event): System
    requires Enabled(hash, s, e)
  {
    match e
    case Begin(id, jobs, clock) => s.(live := s.live[id := Fresh(jobs, clock)])
    case Execute(id) => s.(live := s.live[id := Step(s.live[id], catalog, s.db)])
    case Commit(id) => System(Apply(s.db, s.live[id].writes), s.live - {id}, s.log + [s.live[id]])
    case Rollback(id) => s.(live := s.live - {id})
  }

  /** The system after `es`, if each event was possible when it happened. */
  ghost function Run(hash: Hash, catalog: Catalog, start: System, es: seq<Event>): Option<System>
  {
    if es == [] then Some(start)
    else
      match Run(hash, catalog, start, es[..|es| - 1])
      case None => None
      case Some(s) =>
        var e := es[|es| - 1];
        if Enabled(hash, s, e) then Some(Next(hash, catalog, s, e)) else None
  }

  /** The tables after the committed transactions `log`, in order. */
  function DbAfter(db: Db, log: seq<Thread>): Db
  {
    if log == [] then db else Apply(DbAfter(db, log[..|log| - 1]), log[|log| - 1].writes)
  }

  lemma {:induction false} LogGrows(db: Db, log: seq<Thread>, th: Thread)
    ensures DbAfter(db, log + [th]) == Apply(DbAfter(db, log), th.writes)
  {
    assert (log + [th])[..|log|] == log;
  }

  ghost predicate Finished(th: Thread) { !th.failed && th.todo == [] }

  function Start(db: Db): System { System(db, map[], []) }

  function LocksOf(job: Job): set<Key> { {job.key} + if job.Move? then {job.to} else {} }

  /** An explicitly chosen lot belongs to a pair that its own transaction has locked by then: the pair it is
      used for, the other end of the transfer, or a pair of an earlier item. */
  ghost predicate LotsLocked(jobs: seq<Job>, held: set<Key>)
  {
    jobs == [] ||
    (&& (!jobs[0].Credit? && jobs[0].pick.Some? ==> jobs[0].pick.value.home in held + LocksOf(jobs[0]))
     && LotsLocked(jobs[1..], held + LocksOf(jobs[0])))
  }

  ghost predicate LotsRespected(es: seq<Event>)
  {
    forall i :: 0 <= i < |es| && es[i].Begin? ==> LotsLocked(es[i].jobs, {})
  }
}
