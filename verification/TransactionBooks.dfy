/**
 What a committed operation has booked, in every interleaving and whatever lots anyone chose: its
 movements and its persisted items add up to exactly what it was asked for.
 */
module TransactionBooks {
  import opened Prelude
  import opened Ledger
  import opened Stock
  import opened StockInvariants
  import opened StockBooks
  import opened StockTransfers
  import opened Transactions

  /** What is added up: the stock of a pair, the value of the persisted items, or their units of a product. */
  datatype Measure = StockOf(key: Key) | ValueOfItems | UnitsOfItems(product: int)

  function ItemWeight(m: Measure, item: Item): int
  {
    match m
    case StockOf(_) => 0
    case ValueOfItems => item.quantity * item.unitPriceCents
    case UnitsOfItems(product) => if item.product == product then item.quantity else 0
  }

  function UnitsAt(m: Measure, k: Key, quantity: int): int
  {
    if m == StockOf(k) then quantity else 0
  }

  /** What `quantity` units of a debit or transfer add: to the stock, and as items if it persists any. */
  function QuantityWeight(m: Measure, job: Job, quantity: int): int
    requires !job.Credit?
  {
    match m
    case StockOf(k) => Share(job, quantity, k)
    case _ =>
      if job.Move? then ItemWeight(m, Item(job.key.product, None, quantity, 0))
      else if job.price.Some? then ItemWeight(m, Item(job.key.product, None, quantity, job.price.value))
      else 0
  }

  function JobWeight(m: Measure, job: Job): int
  {
    if job.Credit? then UnitsAt(m, job.key, job.quantity) else QuantityWeight(m, job, job.quantity)
  }

  function JobsWeight(m: Measure, jobs: seq<Job>): int
  {
    if jobs == [] then 0 else JobWeight(m, jobs[0]) + JobsWeight(m, jobs[1..])
  }

  /** What a statement, with all that it leaves to do, is still to add. */
  function TaskWeight(m: Measure, task: Task): int
  {
    match task
    case Resolve(job) => JobWeight(m, job)
    case ReadStock(key, quantity, _, _) => UnitsAt(m, key, quantity)
    case Insert(key, quantity, _, _, _) => UnitsAt(m, key, quantity)
    case OpenLot(key, _, _, quantity, _) => UnitsAt(m, key, quantity)
    case ReadLot(_, to, quantity) => UnitsAt(m, to, quantity)
    case FindDestination(to, _, quantity) => UnitsAt(m, to, quantity)
    case Store(to, _, quantity, _) => UnitsAt(m, to, quantity)
    case Persist(item) => ItemWeight(m, item)
    case _ => 0
  }

  function TodoWeight(m: Measure, todo: seq<Task>): int
  {
    if todo == [] then 0 else TaskWeight(m, todo[0]) + TodoWeight(m, todo[1..])
  }

  function WrittenUnits(writes: seq<Write>, k: Key): int
  {
    if writes == [] then 0
    else
      var w := writes[|writes| - 1];
      WrittenUnits(writes[..|writes| - 1], k) + if w.InsertMovement? && w.row.key == k then w.row.quantity else 0
  }

  /** What the transaction has added so far. */
  function Booked(m: Measure, th: Thread): int
  {
    match m
    case StockOf(k) => WrittenUnits(th.writes, k)
    case ValueOfItems => ItemsValue(th.items)
    case UnitsOfItems(product) => ItemUnits(th.items, product)
  }

  /** Booked and still to do make up what was asked. */
  predicate Balanced(m: Measure, th: Thread)
  {
    Booked(m, th) + TodoWeight(m, th.todo) == JobsWeight(m, th.jobs)
  }

  lemma {:induction false} TodoJoin(m: Measure, a: seq<Task>, b: seq<Task>)
    ensures TodoWeight(m, a + b) == TodoWeight(m, a) + TodoWeight(m, b)
  {
    hide TaskWeight;
    if a == [] {
      assert a + b == b;
    } else {
      assert (a + b)[1..] == a[1..] + b;
      TodoJoin(m, a[1..], b);
    }
  }

  lemma {:induction false} TodoOf(m: Measure, a: Task, b: Task, c: Task)
    ensures TodoWeight(m, [a]) == TaskWeight(m, a)
    ensures TodoWeight(m, [a, b]) == TaskWeight(m, a) + TaskWeight(m, b)
    ensures TodoWeight(m, [a, b, c]) == TaskWeight(m, a) + TaskWeight(m, b) + TaskWeight(m, c)
  {
    hide TaskWeight;
    assert [a][1..] == [] && [a, b][1..] == [b] && [a, b, c][1..] == [b, c] && [b, c][1..] == [c] && [b][1..] == [];
    assert [c][1..] == [];
    assert TodoWeight(m, [b, c]) == TaskWeight(m, b) + TodoWeight(m, [c]);
    assert TodoWeight(m, [c]) == TaskWeight(m, c) + TodoWeight(m, []);
  }

  // ---- A script asks for what its jobs ask for ----

  lemma {:induction false} JobTodo(m: Measure, job: Job)
    ensures TodoWeight(m, JobTasks(job)) == JobWeight(m, job)
  {
    hide ItemWeight;
    var ts := JobTasks(job);
    match job {
      case Credit(_, _, _, _) =>
        assert ts == [ts[0], ts[1]];
        TodoOf(m, ts[0], ts[1], ts[0]);
      case Debit(_, _, _, _, _) =>
        assert ts == [ts[0], ts[1], ts[2]];
        TodoOf(m, ts[0], ts[1], ts[2]);
      case Move(_, _, _, _) =>
        assert ts == [ts[0]] + [ts[1], ts[2], ts[3]];
        TodoJoin(m, [ts[0]], [ts[1], ts[2], ts[3]]);
        TodoOf(m, ts[1], ts[2], ts[3]);
        TodoOf(m, ts[0], ts[1], ts[2]);
    }
  }

  lemma {:induction false} ScriptTodo(m: Measure, jobs: seq<Job>)
    ensures TodoWeight(m, Script(jobs)) == JobsWeight(m, jobs)
  {
    hide JobTasks, JobWeight;
    if jobs != [] {
      JobTodo(m, jobs[0]);
      ScriptTodo(m, jobs[1..]);
      TodoJoin(m, JobTasks(jobs[0]), Script(jobs[1..]));
    }
  }

  // ---- A statement passes on what it does not book itself ----

  /** What executing a statement books at once. */
  function NowBooked(m: Measure, task: Task): int
  {
    match task
    case Insert(key, quantity, _, _, _) => UnitsAt(m, key, quantity)
    case Persist(item) => ItemWeight(m, item)
    case _ => 0
  }

  lemma {:induction false} DebitTodo(m: Measure, job: Job, line: Line)
    requires job.Debit?
    ensures TodoWeight(m, DebitTasks(job, line)) == QuantityWeight(m, job, line.quantity)
  {
    hide ItemWeight;
    var ts := DebitTasks(job, line);
    ItemsAlike(m, job.key.product, line.lot, line.quantity, job.price.GetOr(0));
    TodoOf(m, ts[0], ts[|ts| - 1], ts[0]);
    if |ts| == 1 {
      assert ts == [ts[0]];
    } else if |ts| == 2 {
      assert ts == [ts[0], ts[1]];
    } else {
      assert ts == [ts[0], ts[1], ts[2]];
      TodoOf(m, ts[0], ts[1], ts[2]);
    }
  }

  lemma {:induction false} ItemsAlike(m: Measure, product: int, lot: Option<LotId>, quantity: int, price: int)
    ensures ItemWeight(m, Item(product, lot, quantity, price)) == ItemWeight(m, Item(product, None, quantity, price))
    ensures m.StockOf? ==> ItemWeight(m, Item(product, lot, quantity, price)) == 0
  {
  }

  lemma {:induction false} MoveTodo(m: Measure, job: Job, line: Line)
    requires job.Move?
    ensures TodoWeight(m, MoveTasks(job, line)) == QuantityWeight(m, job, line.quantity)
  {
    hide ItemWeight;
    var ts := MoveTasks(job, line);
    assert ts == [ts[0], ts[1], ts[2]];
    TodoOf(m, ts[0], ts[1], ts[2]);
    ItemsAlike(m, job.key.product, line.lot, line.quantity, 0);
  }

  /** Weights are additive in the quantity of a job. */
  lemma {:induction false} WeightAdds(m: Measure, job: Job, a: int, b: int)
    requires !job.Credit?
    ensures QuantityWeight(m, job, a + b) ==
            QuantityWeight(m, job, a) + QuantityWeight(m, job, b)
    ensures QuantityWeight(m, job, 0) == 0
  {
    if job.Debit? && job.price.Some? {
      Distribute(a, b, job.price.value);
    }
  }

  lemma {:induction false} LinesTodo(m: Measure, job: Job, lines: seq<Line>)
    requires !job.Credit?
    ensures TodoWeight(m, LinesTasks(job, lines)) == QuantityWeight(m, job, LineUnits(lines))
  {
    hide QuantityWeight, DebitTasks, MoveTasks, TaskWeight;
    if lines == [] {
      WeightAdds(m, job, 0, 0);
    } else {
      LinesTodo(m, job, lines[1..]);
      TodoJoin(m, LineTasks(job, lines[0]), LinesTasks(job, lines[1..]));
      if job.Debit? { DebitTodo(m, job, lines[0]); } else { MoveTodo(m, job, lines[0]); }
      WeightAdds(m, job, lines[0].quantity, LineUnits(lines[1..]));
    }
  }

  lemma {:induction false} ResolvedTodo(m: Measure, job: Job, catalog: Catalog, seen: Db)
    requires Left(Resolve(job), catalog, seen).Some?
    ensures TodoWeight(m, Left(Resolve(job), catalog, seen).value) == JobWeight(m, job)
  {
    hide QuantityWeight, LinesTasks, ResolveExitLines;
    var p := catalog[job.key.product];
    ResolvedLinesTotal(seen, p, job.key, job.quantity, job.pick);
    var lines := ResolveExitLines(seen, p, job.key, job.quantity, job.pick).value;
    LinesTodo(m, job, lines);
  }

  lemma {:induction false} LeftTodo(m: Measure, task: Task, catalog: Catalog, seen: Db)
    requires Left(task, catalog, seen).Some?
    ensures NowBooked(m, task) + TodoWeight(m, Left(task, catalog, seen).value) == TaskWeight(m, task)
  {
    hide ItemWeight, FindTwin, Balance;
    var left := Left(task, catalog, seen).value;
    if task.Resolve? {
      ResolvedTodo(m, task.job, catalog, seen);
    } else if |left| == 1 {
      assert left == [left[0]];
      TodoOf(m, left[0], left[0], left[0]);
    } else if |left| == 2 {
      assert left == [left[0], left[1]];
      TodoOf(m, left[0], left[1], left[0]);
    }
  }

  // ---- One step ----

  lemma {:induction false} WriteBooks(m: Measure, th: Thread, task: Task, seen: Db)
    requires m.StockOf?
    ensures WrittenUnits(AndWrite(th.writes, Written(task, seen, th.clock(th.tick))), m.key) ==
            WrittenUnits(th.writes, m.key) + NowBooked(m, task)
  {
    var w := Written(task, seen, th.clock(th.tick));
    if w.Some? {
      assert (th.writes + [w.value])[..|th.writes|] == th.writes;
    }
  }

  lemma {:induction false} ItemBooks(m: Measure, items: seq<Item>, item: Item)
    requires !m.StockOf?
    ensures m.ValueOfItems? ==> ItemsValue(items + [item]) == ItemsValue(items) + ItemWeight(m, item)
    ensures m.UnitsOfItems? ==>
      ItemUnits(items + [item], m.product) == ItemUnits(items, m.product) + ItemWeight(m, item)
  {
    AddItemCounts(items, item, if m.UnitsOfItems? then m.product else 0);
  }

  lemma {:induction false} StepBooks(m: Measure, th: Thread, catalog: Catalog, db: Db)
    requires CanStep(th) && !Step(th, catalog, db).failed
    ensures Booked(m, Step(th, catalog, db)) == Booked(m, th) + NowBooked(m, th.todo[0])
  {
    hide Left, Written, WrittenUnits, ItemsValue, ItemUnits, ItemWeight;
    var task := th.todo[0];
    if m.StockOf? {
      WriteBooks(m, th, task, Apply(db, th.writes));
    } else {
      if task.Persist? { ItemBooks(m, th.items, task.item); }
      assert th.items + [] == th.items;
    }
  }

  lemma {:induction false} StepBalanced(m: Measure, th: Thread, catalog: Catalog, db: Db)
    requires CanStep(th) && Balanced(m, th) && !Step(th, catalog, db).failed
    ensures Balanced(m, Step(th, catalog, db))
  {
    hide Booked, TaskWeight, NowBooked, Left, Written, JobsWeight;
    var task, rest := th.todo[0], th.todo[1..];
    var left := Left(task, catalog, Apply(db, th.writes)).value;
    StepBooks(m, th, catalog, db);
    LeftTodo(m, task, catalog, Apply(db, th.writes));
    TodoJoin(m, left, rest);
  }

  // ---- Every run ----

  ghost predicate SystemBalanced(m: Measure, db: Db, s: System)
  {
    && s.db == DbAfter(db, s.log)
    && (forall id :: id in s.live && !s.live[id].failed ==> Balanced(m, s.live[id]))
    && (forall i :: 0 <= i < |s.log| ==> Finished(s.log[i]) && Balanced(m, s.log[i]))
  }

  lemma {:induction false} NextBalanced(m: Measure, hash: Hash, catalog: Catalog, db: Db, s: System, e: Event)
    requires SystemBalanced(m, db, s) && Enabled(hash, s, e)
    ensures SystemBalanced(m, db, Next(hash, catalog, s, e))
  {
    hide Balanced, Apply, Step, LockFree, DbAfter;
    match e {
      case Begin(_, jobs, clock) => FreshBalanced(m, jobs, clock);
      case Execute(id) =>
        if !Step(s.live[id], catalog, s.db).failed && !s.live[id].failed { StepBalanced(m, s.live[id], catalog, s.db); }
      case Commit(id) => LogGrows(db, s.log, s.live[id]);
      case Rollback(_) =>
    }
  }

  lemma {:induction false} FreshBalanced(m: Measure, jobs: seq<Job>, clock: Clock)
    ensures Balanced(m, Fresh(jobs, clock))
  {
    ScriptTodo(m, jobs);
  }

  lemma {:induction false} RunBalanced(m: Measure, hash: Hash, catalog: Catalog, db: Db, es: seq<Event>)
    requires Run(hash, catalog, Start(db), es).Some?
    ensures SystemBalanced(m, db, Run(hash, catalog, Start(db), es).value)
  {
    hide SystemBalanced, Next, Enabled;
    if es == [] {
      StartBalanced(m, db);
    } else {
      var n := |es| - 1;
      RunBalanced(m, hash, catalog, db, es[..n]);
      NextBalanced(m, hash, catalog, db, Run(hash, catalog, Start(db), es[..n]).value, es[n]);
    }
  }

  lemma {:induction false} StartBalanced(m: Measure, db: Db)
    ensures SystemBalanced(m, db, Start(db))
  {
  }

  /** The rows a transaction writes change the stock by their quantities, whatever tables they meet. */
  lemma {:induction false} ApplyBooks(db: Db, writes: seq<Write>, k: Key)
    ensures StockUnits(Apply(db, writes), k) == StockUnits(db, k) + WrittenUnits(writes, k)
  {
    if writes != [] {
      var n := |writes| - 1;
      var before, w := Apply(db, writes[..n]), writes[n];
      ApplyBooks(db, writes[..n], k);
      PutAt(before, w, k);
      if w.InsertMovement? && w.row.key == k { UnitsSnoc(At(before, k).rows, w.row); }
    }
  }

  lemma {:induction false} AskedIsWeight(jobs: seq<Job>, k: Key)
    ensures JobsWeight(StockOf(k), jobs) == AskedOfAll(jobs, k)
  {
    if jobs != [] { AskedIsWeight(jobs[1..], k); }
  }

  /** Every committed operation, whatever ran beside it and whatever lots anyone chose, has persisted
      items of exactly the value and units it was asked for and changed each pair's stock by exactly what
      it was asked for. */
  lemma {:induction false} CommittedBooksExactly(hash: Hash, catalog: Catalog, db: Db, es: seq<Event>, i: nat,
      product: int)
    requires Run(hash, catalog, Start(db), es).Some?
    requires i < |Run(hash, catalog, Start(db), es).value.log|
    ensures var log := Run(hash, catalog, Start(db), es).value.log;
            && BookedAsAsked(DbAfter(db, log[..i]), DbAfter(db, log[..i + 1]), log[i].jobs)
            && ItemsValue(log[i].items) == JobsWeight(ValueOfItems, log[i].jobs)
            && ItemUnits(log[i].items, product) == JobsWeight(UnitsOfItems(product), log[i].jobs)
  {
    hide Run, Apply, JobsWeight, AskedOfAll, WrittenUnits, StockUnits;
    var log := Run(hash, catalog, Start(db), es).value.log;
    RunBalanced(ValueOfItems, hash, catalog, db, es);
    RunBalanced(UnitsOfItems(product), hash, catalog, db, es);
    forall k ensures StockUnits(DbAfter(db, log[..i + 1]), k) ==
                     StockUnits(DbAfter(db, log[..i]), k) + AskedOfAll(log[i].jobs, k)
    {
      RunBalanced(StockOf(k), hash, catalog, db, es);
      ApplyBooks(DbAfter(db, log[..i]), log[i].writes, k);
      AskedIsWeight(log[i].jobs, k);
      assert log[..i + 1][..i] == log[..i];
    }
  }

  // ---- Sales and transfers ----

  lemma {:induction false} SaleWeights(tenant: int, store: int, items: seq<SaleLine>, product: int)
    ensures JobsWeight(ValueOfItems, SaleJobs(tenant, store, items)) == SaleTotal(items)
    ensures JobsWeight(UnitsOfItems(product), SaleJobs(tenant, store, items)) == SoldUnits(items, product)
  {
    if items != [] {
      assert SaleJobs(tenant, store, items)[1..] == SaleJobs(tenant, store, items[1..]);
      SaleWeights(tenant, store, items[1..], product);
    }
  }

  /** Every committed sale adds up: its stored total, its persisted items, the request and the units debited
      agree, in every run and for every lot that anyone chose. */
  lemma {:induction false} CommittedSaleAddsUp(hash: Hash, catalog: Catalog, db: Db, es: seq<Event>, i: nat,
      tenant: int, store: int, items: seq<SaleLine>, product: int)
    requires Run(hash, catalog, Start(db), es).Some?
    requires i < |Run(hash, catalog, Start(db), es).value.log|
    requires Run(hash, catalog, Start(db), es).value.log[i].jobs == SaleJobs(tenant, store, items)
    ensures var log := Run(hash, catalog, Start(db), es).value.log;
            var k := Key(tenant, product, store);
            && ItemsValue(log[i].items) == SaleTotal(items)
            && ItemUnits(log[i].items, product) == SoldUnits(items, product)
            && StockUnits(DbAfter(db, log[..i + 1]), k) ==
               StockUnits(DbAfter(db, log[..i]), k) - SoldUnits(items, product)
  {
    hide Run, JobsWeight, AskedOfAll, StockUnits, SaleTotal, SoldUnits, ItemsValue, ItemUnits, SaleJobs;
    CommittedBooksExactly(hash, catalog, db, es, i, product);
    SaleWeights(tenant, store, items, product);
    SaleAsks(tenant, store, items, product);
  }

  /** Every committed transfer conserves each product's stock and moves exactly what was requested, in every
      run and for every lot that anyone chose. */
  lemma {:induction false} CommittedTransferConserves(hash: Hash, catalog: Catalog, db: Db, es: seq<Event>, i: nat,
      tenant: int, origin: int, destination: int, items: seq<TransferLine>, product: int, stores: seq<int>)
    requires Run(hash, catalog, Start(db), es).Some?
    requires i < |Run(hash, catalog, Start(db), es).value.log|
    requires Run(hash, catalog, Start(db), es).value.log[i].jobs == TransferJobs(tenant, origin, destination, items)
    requires origin != destination && Distinct(stores) && origin in stores && destination in stores
    ensures var log := Run(hash, catalog, Start(db), es).value.log;
            var before, after := DbAfter(db, log[..i]), DbAfter(db, log[..i + 1]);
            var c := Scope(tenant, product, stores, None);
            && HeldOver(after, c) == HeldOver(before, c)
            && MovedExactly(before, after, tenant, product, origin, destination, MovedUnits(items, product))
  {
    hide Run, HeldOver, BookedAsAsked, MovedExactly, JobsWeight;
    var log := Run(hash, catalog, Start(db), es).value.log;
    CommittedBooksExactly(hash, catalog, db, es, i, product);
    BookedTransferConserves(DbAfter(db, log[..i]), DbAfter(db, log[..i + 1]), tenant, origin, destination, items,
      product, stores);
  }
}
