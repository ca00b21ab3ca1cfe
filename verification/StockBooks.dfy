/**
 What the stock operations book: exactly the units that were asked for, in a transfer without any
 being gained or lost, and in a sale with items that add up to its stored total.
 */
module StockBooks {
  import opened Prelude
  import opened Ledger
  import opened Stock
  import opened StockInvariants

  // ---- Units ----

  /** What a job was asked to add to the stock of `k`. */
  function Asked(job: Job, k: Key): int
  {
    match job
    case Credit(key, quantity, _, _) => if k == key then quantity else 0
    case Debit(key, quantity, _, _, _) => if k == key then -quantity else 0
    case Move(key, to, quantity, _) =>
      (if k == key then -quantity else 0) + (if k == to then quantity else 0)
  }

  function AskedOfAll(jobs: seq<Job>, k: Key): int
  {
    if jobs == [] then 0 else Asked(jobs[0], k) + AskedOfAll(jobs[1..], k)
  }

  function StockUnits(db: Db, k: Key): int { Units(At(db, k).rows) }

  lemma {:induction false} PostBooks(v: View, clock: Clock, k: Key, quantity: int, kind: Kind, lot: Option<LotId>,
      h: Key)
    ensures StockUnits(Post(v, clock, k, quantity, kind, lot).db, h) ==
            StockUnits(v.db, h) + if h == k then quantity else 0
  {
    var rows := At(v.db, h).rows;
    PostAt(v, clock, k, quantity, kind, lot, h);
    if h == k {
      UnitsSnoc(rows, Movement(h, quantity, Balance(rows) + quantity, kind, lot, clock(v.tick)));
    }
  }

  lemma {:induction false} ChangeBooks(v: View, w: Write, h: Key)
    requires !w.InsertMovement?
    ensures StockUnits(Change(v, w).db, h) == StockUnits(v.db, h)
  {
  }

  lemma {:induction false} DebitLineBooks(v: View, clock: Clock, job: Job, line: Line, h: Key)
    requires job.Debit?
    ensures StockUnits(DebitLine(v, clock, job, line).db, h) ==
            StockUnits(v.db, h) - if h == job.key then line.quantity else 0
  {
    hide *;
    DebitLineIs(v, clock, job, line);
    PostBooks(v, clock, job.key, -line.quantity, job.kind, line.lot, h);
    if line.lot.Some? {
      ChangeBooks(Post(v, clock, job.key, -line.quantity, job.kind, line.lot),
                  AddToLot(line.lot.value, -line.quantity), h);
    }
  }

  lemma {:induction false} ReceiveLotBooks(v: View, clock: Clock, to: Key, id: LotId, quantity: int, h: Key)
    ensures StockUnits(ReceiveLot(v, clock, to, id, quantity).db, h) ==
            StockUnits(v.db, h) + if h == to then quantity else 0
  {
    var origin := FindLot(v.db, id).GetOr(Lot("", 0, 0));
    var v1 := Change(v, AddToLot(id, -quantity));
    ChangeBooks(v, AddToLot(id, -quantity), h);
    DepositAt(v1, to, origin, quantity, h);
    var (v2, twin) := Deposit(v1, to, origin, quantity);
    PostBooks(v2, clock, to, quantity, TransferIn, Some(twin), h);
  }

  lemma {:induction false} ReceiveBooks(v: View, clock: Clock, to: Key, line: Line, h: Key)
    ensures StockUnits(Receive(v, clock, to, line).db, h) ==
            StockUnits(v.db, h) + if h == to then line.quantity else 0
  {
    match line.lot
    case None => PostBooks(v, clock, to, line.quantity, TransferIn, None, h);
    case Some(id) => ReceiveLotBooks(v, clock, to, id, line.quantity, h);
  }

  lemma {:induction false} MoveLineBooks(v: View, clock: Clock, job: Job, line: Line, h: Key)
    requires job.Move?
    ensures StockUnits(MoveLine(v, clock, job, line).db, h) ==
            StockUnits(v.db, h) - (if h == job.key then line.quantity else 0) + if h == job.to then line.quantity else 0
  {
    hide *;
    var v1 := Post(v, clock, job.key, -line.quantity, TransferOut, line.lot);
    MoveLineIs(v, clock, job, line);
    PostBooks(v, clock, job.key, -line.quantity, TransferOut, line.lot, h);
    ReceiveBooks(v1, clock, job.to, line, h);
  }

  /** `units` units of what the job moves, as they count for `h`. */
  function Share(job: Job, units: int, h: Key): int
  {
    (if h == job.key then -units else 0) + if job.Move? && h == job.to then units else 0
  }

  lemma {:induction false} DoLinesBooks(v: View, clock: Clock, job: Job, lines: seq<Line>, h: Key)
    requires !job.Credit?
    ensures StockUnits(DoLines(v, clock, job, lines).db, h) == StockUnits(v.db, h) + Share(job, LineUnits(lines), h)
    decreases |lines|
  {
    if lines != [] {
      if job.Debit? {
        DebitLineBooks(v, clock, job, lines[0], h);
      } else {
        MoveLineBooks(v, clock, job, lines[0], h);
      }
      DoLinesBooks(DoLine(v, clock, job, lines[0]), clock, job, lines[1..], h);
    }
  }

  lemma {:induction false} DoJobBooks(v: View, catalog: Catalog, clock: Clock, job: Job, h: Key)
    requires DoJob(v, catalog, clock, job).Ok?
    ensures StockUnits(DoJob(v, catalog, clock, job).value.db, h) == StockUnits(v.db, h) + Asked(job, h)
  {
    if job.Credit? {
      CreditAt(v, clock, job, h);
      var rows := At(v.db, h).rows;
      if h == job.key {
        UnitsSnoc(rows, Credited(At(v.db, h), job, clock(v.tick)).rows[|rows|]);
      }
    } else {
      var p := catalog[job.key.product];
      ResolvedLinesTotal(v.db, p, job.key, job.quantity, job.pick);
      DoLinesBooks(v, clock, job, ResolveExitLines(v.db, p, job.key, job.quantity, job.pick).value, h);
    }
  }

  /** An accepted operation changes the stock of each pair by exactly what its items asked for,
      however many lots an exit was split over. */
  lemma {:induction false} OperationBooksExactly(v: View, catalog: Catalog, clock: Clock, jobs: seq<Job>, h: Key)
    requires DoJobs(v, catalog, clock, jobs).Ok?
    ensures StockUnits(DoJobs(v, catalog, clock, jobs).value.db, h) == StockUnits(v.db, h) + AskedOfAll(jobs, h)
    decreases |jobs|
  {
    if jobs != [] {
      DoJobBooks(v, catalog, clock, jobs[0], h);
      OperationBooksExactly(DoJob(v, catalog, clock, jobs[0]).value, catalog, clock, jobs[1..], h);
    }
  }

  // ---- Sales ----

  /** The total that createSale stores before it debits anything. */
  function SaleTotal(items: seq<SaleLine>): int
  {
    if items == [] then 0 else items[0].quantity * items[0].unitPriceCents + SaleTotal(items[1..])
  }

  function ItemsValue(items: seq<Item>): int
  {
    if items == [] then 0
    else ItemsValue(items[..|items| - 1]) + items[|items| - 1].quantity * items[|items| - 1].unitPriceCents
  }

  function ItemUnits(items: seq<Item>, product: int): int
  {
    if items == [] then 0
    else ItemUnits(items[..|items| - 1], product) +
         if items[|items| - 1].product == product then items[|items| - 1].quantity else 0
  }

  function SoldUnits(items: seq<SaleLine>, product: int): int
  {
    if items == [] then 0
    else (if items[0].product == product then items[0].quantity else 0) + SoldUnits(items[1..], product)
  }

  lemma {:induction false} AddItemCounts(items: seq<Item>, item: Item, product: int)
    ensures ItemsValue(items + [item]) == ItemsValue(items) + item.quantity * item.unitPriceCents
    ensures ItemUnits(items + [item], product) ==
            ItemUnits(items, product) + if item.product == product then item.quantity else 0
  {
    assert (items + [item])[..|items|] == items;
  }

  lemma {:induction false} SaleLineItems(v: View, clock: Clock, job: Job, line: Line)
    requires job.Debit? && job.price.Some?
    ensures DebitLine(v, clock, job, line).items ==
            v.items + [Item(job.key.product, line.lot, line.quantity, job.price.value)]
  {
  }

  lemma {:induction false} SaleLinesItems(v: View, clock: Clock, job: Job, lines: seq<Line>, product: int)
    requires job.Debit? && job.price.Some?
    ensures var items := DoLines(v, clock, job, lines).items;
            && ItemsValue(items) == ItemsValue(v.items) + LineUnits(lines) * job.price.value
            && ItemUnits(items, product) ==
               ItemUnits(v.items, product) + if job.key.product == product then LineUnits(lines) else 0
    decreases |lines|
  {
    hide DebitLine, MoveLine, ItemsValue, ItemUnits;
    if lines != [] {
      var v1 := DoLine(v, clock, job, lines[0]);
      SaleLineItems(v, clock, job, lines[0]);
      AddItemCounts(v.items, Item(job.key.product, lines[0].lot, lines[0].quantity, job.price.value), product);
      SaleLinesItems(v1, clock, job, lines[1..], product);
      Distribute(lines[0].quantity, LineUnits(lines[1..]), job.price.value);
    }
  }

  lemma {:induction false} Distribute(a: int, b: int, price: int)
    ensures a * price + b * price == (a + b) * price
  {
  }

  lemma {:induction false} SaleItems(v: View, catalog: Catalog, clock: Clock, tenant: int, store: int,
      items: seq<SaleLine>, product: int)
    requires DoJobs(v, catalog, clock, SaleJobs(tenant, store, items)).Ok?
    ensures var v1 := DoJobs(v, catalog, clock, SaleJobs(tenant, store, items)).value;
            && ItemsValue(v1.items) == ItemsValue(v.items) + SaleTotal(items)
            && ItemUnits(v1.items, product) == ItemUnits(v.items, product) + SoldUnits(items, product)
    decreases |items|
  {
    if items != [] {
      var jobs := SaleJobs(tenant, store, items);
      var job := jobs[0];
      var p := catalog[job.key.product];
      var lines := ResolveExitLines(v.db, p, job.key, job.quantity, job.pick).value;
      ResolvedLinesTotal(v.db, p, job.key, job.quantity, job.pick);
      SaleLinesItems(v, clock, job, lines, product);
      assert jobs[1..] == SaleJobs(tenant, store, items[1..]);
      SaleItems(DoJob(v, catalog, clock, job).value, catalog, clock, tenant, store, items[1..], product);
    }
  }

  lemma {:induction false} SaleAsks(tenant: int, store: int, items: seq<SaleLine>, product: int)
    ensures AskedOfAll(SaleJobs(tenant, store, items), Key(tenant, product, store)) == -SoldUnits(items, product)
  {
    if items != [] {
      assert SaleJobs(tenant, store, items)[1..] == SaleJobs(tenant, store, items[1..]);
      SaleAsks(tenant, store, items[1..], product);
    }
  }

  /** The stored total of a sale is the sum over its persisted items, and per product the items, the
      units requested and the units debited from the store agree. */
  lemma {:induction false} SaleAddsUp(db: Db, catalog: Catalog, clock: Clock, tenant: int, store: int,
      items: seq<SaleLine>, product: int)
    requires Transact(db, catalog, clock, SaleJobs(tenant, store, items)).Ok?
    ensures var after := Transact(db, catalog, clock, SaleJobs(tenant, store, items)).value;
            var k := Key(tenant, product, store);
            && ItemsValue(after.items) == SaleTotal(items)
            && ItemUnits(after.items, product) == SoldUnits(items, product)
            && StockUnits(after.db, k) == StockUnits(db, k) - SoldUnits(items, product)
  {
    SaleItems(View(db, 0, []), catalog, clock, tenant, store, items, product);
    SaleAsks(tenant, store, items, product);
    OperationBooksExactly(View(db, 0, []), catalog, clock, SaleJobs(tenant, store, items), Key(tenant, product, store));
  }
}
