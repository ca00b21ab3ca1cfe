/**
 Transfers between stores (services/app/src/modules/stock/transfers.ts). No transfer creates or loses
 units of a product. The units of a lot number can be created: the source never asks whether an
 explicitly chosen lot is one of the transferred product.
 */
module StockTransfers {
  import opened Prelude
  import opened Ledger
  import opened Stock
  import opened StockInvariants
  import opened StockBooks

  function NumberQuantities(lots: seq<Lot>, number: string): seq<int>
  {
    seq(|lots|, i requires 0 <= i < |lots| => if lots[i].number == number then lots[i].quantity else 0)
  }

  /** Units in the lots with this number. */
  function NumberUnits(lots: seq<Lot>, number: string): int { Sum(NumberQuantities(lots, number)) }

  /** What a pair holds: its stock, or the units of one lot number. */
  function Held(s: Shelf, number: Option<string>): int
  {
    match number
    case None => Units(s.rows)
    case Some(n) => NumberUnits(s.lots, n)
  }

  /** What is counted: the stock (`number` is None) or a lot number of a product, over a list of stores. */
  datatype Scope = Scope(tenant: int, product: int, stores: seq<int>, number: Option<string>)

  predicate InScope(k: Key, c: Scope) { k.tenant == c.tenant && k.product == c.product && k.store in c.stores }

  function HeldByStore(db: Db, c: Scope): seq<int>
  {
    seq(|c.stores|, i requires 0 <= i < |c.stores| => Held(At(db, Key(c.tenant, c.product, c.stores[i])), c.number))
  }

  function HeldOver(db: Db, c: Scope): int { Sum(HeldByStore(db, c)) }

  ghost predicate Distinct(xs: seq<int>) { forall i, j :: 0 <= i < j < |xs| ==> xs[i] != xs[j] }

  lemma {:induction false} NumberUnitsUpdate(lots: seq<Lot>, i: nat, quantity: int, n: string)
    requires i < |lots|
    ensures NumberUnits(lots[i := lots[i].(quantity := quantity)], n) ==
            NumberUnits(lots, n) + if lots[i].number == n then quantity - lots[i].quantity else 0
  {
    var x := if lots[i].number == n then quantity else 0;
    SumUpdate(NumberQuantities(lots, n), i, x);
    assert NumberQuantities(lots[i := lots[i].(quantity := quantity)], n) == NumberQuantities(lots, n)[i := x];
  }

  lemma {:induction false} NumberUnitsSnoc(lots: seq<Lot>, lot: Lot, n: string)
    ensures NumberUnits(lots + [lot], n) == NumberUnits(lots, n) + if lot.number == n then lot.quantity else 0
  {
    assert NumberQuantities(lots + [lot], n)[..|lots|] == NumberQuantities(lots, n);
  }

  /** When one pair's holding changes by d, the total changes by d if the pair is counted. */
  lemma {:induction false} HeldOverShift(db: Db, after: Db, k: Key, d: int, c: Scope)
    requires Distinct(c.stores)
    requires forall h :: Held(At(after, h), c.number) == Held(At(db, h), c.number) + if h == k then d else 0
    ensures HeldOver(after, c) == HeldOver(db, c) + if InScope(k, c) then d else 0
  {
    hide Held, At, Sum;
    var xs, ys := HeldByStore(db, c), HeldByStore(after, c);
    if InScope(k, c) {
      var a :| 0 <= a < |c.stores| && c.stores[a] == k.store;
      forall i | 0 <= i < |xs| ensures ys[i] == xs[a := xs[a] + d][i] {
        assert Key(c.tenant, c.product, c.stores[i]) == k <==> i == a;
      }
      assert ys == xs[a := xs[a] + d];
      SumUpdate(xs, a, xs[a] + d);
    } else {
      assert ys == xs;
    }
  }

  // ---- Stock ----

  function MovedUnits(items: seq<TransferLine>, product: int): int
  {
    if items == [] then 0
    else (if items[0].product == product then items[0].quantity else 0) + MovedUnits(items[1..], product)
  }

  /** What a transfer asks of each pair of the tenant. */
  function TransferShare(origin: int, destination: int, moved: int, store: int): int
  {
    if store == origin then -moved else if store == destination then moved else 0
  }

  /** Each store's stock of the product changed by what a transfer of `moved` units asks of it. */
  ghost predicate MovedExactly(before: Db, after: Db, tenant: int, product: int, origin: int, destination: int,
      moved: int)
  {
    forall store :: (
      StockUnits(after, Key(tenant, product, store)) ==
      StockUnits(before, Key(tenant, product, store)) + TransferShare(origin, destination, moved, store))
  }

  ghost predicate BookedAsAsked(before: Db, after: Db, jobs: seq<Job>)
  {
    forall h :: StockUnits(after, h) == StockUnits(before, h) + AskedOfAll(jobs, h)
  }

  lemma {:induction false} TransferAsks(tenant: int, origin: int, destination: int, items: seq<TransferLine>,
      product: int, store: int)
    requires origin != destination
    ensures AskedOfAll(TransferJobs(tenant, origin, destination, items), Key(tenant, product, store)) ==
            TransferShare(origin, destination, MovedUnits(items, product), store)
  {
    if items != [] {
      assert TransferJobs(tenant, origin, destination, items)[1..] ==
             TransferJobs(tenant, origin, destination, items[1..]);
      TransferAsks(tenant, origin, destination, items[1..], product, store);
    }
  }

  lemma {:induction false} SumShift(xs: seq<int>, ys: seq<int>, a: nat, b: nat, d: int)
    requires |xs| == |ys| && a < |xs| && b < |xs| && a != b
    requires ys[a] == xs[a] - d && ys[b] == xs[b] + d
    requires forall i :: 0 <= i < |xs| && i != a && i != b ==> ys[i] == xs[i]
    ensures Sum(xs) == Sum(ys)
  {
    hide Sum;
    SumUpdate(xs, a, xs[a] - d);
    SumUpdate(xs[a := xs[a] - d], b, xs[b] + d);
    assert ys == xs[a := xs[a] - d][b := xs[b] + d];
  }

  /** Tables that booked exactly what a transfer asked for hold as much of every product as before. */
  lemma {:induction false} BookedTransferConserves(before: Db, after: Db, tenant: int, origin: int, destination: int,
      items: seq<TransferLine>, product: int, stores: seq<int>)
    requires origin != destination && Distinct(stores) && origin in stores && destination in stores
    requires BookedAsAsked(before, after, TransferJobs(tenant, origin, destination, items))
    ensures HeldOver(after, Scope(tenant, product, stores, None))
      == HeldOver(before, Scope(tenant, product, stores, None))
    ensures MovedExactly(before, after, tenant, product, origin, destination, MovedUnits(items, product))
  {
    hide AskedOfAll, MovedUnits, TransferJobs, Sum;
    var c := Scope(tenant, product, stores, None);
    forall store
      ensures StockUnits(after, Key(tenant, product, store)) == StockUnits(before, Key(tenant, product, store)) +
        TransferShare(origin, destination, MovedUnits(items, product), store)
    {
      TransferAsks(tenant, origin, destination, items, product, store);
    }
    var xs, ys := HeldByStore(before, c), HeldByStore(after, c);
    forall i | 0 <= i < |xs|
      ensures ys[i] == xs[i] + TransferShare(origin, destination, MovedUnits(items, product), stores[i])
    {
      assert xs[i] == StockUnits(before, Key(tenant, product, stores[i]));
      assert ys[i] == StockUnits(after, Key(tenant, product, stores[i]));
    }
    var a :| 0 <= a < |stores| && stores[a] == origin;
    var b :| 0 <= b < |stores| && stores[b] == destination;
    SumShift(xs, ys, a, b, MovedUnits(items, product));
  }

  /** A completed transfer of any number of items, whatever lots were chosen for it: over every list of
      distinct stores that includes both ends each product's stock is what it was, the requested units
      left the origin and entered the destination, and no other store changed. */
  lemma {:induction false} TransferConserves(db: Db, catalog: Catalog, clock: Clock, tenant: int, origin: int,
      destination: int, items: seq<TransferLine>, product: int, stores: seq<int>)
    requires Transact(db, catalog, clock, TransferJobs(tenant, origin, destination, items)).Ok?
    requires origin != destination && Distinct(stores) && origin in stores && destination in stores
    ensures var after := Transact(db, catalog, clock, TransferJobs(tenant, origin, destination, items)).value.db;
            && HeldOver(after, Scope(tenant, product, stores, None))
               == HeldOver(db, Scope(tenant, product, stores, None))
            && MovedExactly(db, after, tenant, product, origin, destination, MovedUnits(items, product))
  {
    hide AskedOfAll, MovedUnits, TransferJobs, HeldOver, DoJobs;
    var jobs := TransferJobs(tenant, origin, destination, items);
    var after := Transact(db, catalog, clock, jobs).value.db;
    forall h ensures StockUnits(after, h) == StockUnits(db, h) + AskedOfAll(jobs, h) {
      OperationBooksExactly(View(db, 0, []), catalog, clock, jobs, h);
    }
    BookedTransferConserves(db, after, tenant, origin, destination, items, product, stores);
  }

  // ---- Lots ----

  /** Lots never vanish and never change their number or their expiry. */
  ghost predicate LotsKept(a: Db, b: Db)
  {
    forall id :: FindLot(a, id).Some? ==>
      && FindLot(b, id).Some? && FindLot(b, id).value.number == FindLot(a, id).value.number
      && FindLot(b, id).value.expiry == FindLot(a, id).value.expiry
  }

  predicate Numbered(db: Db, id: LotId, number: string)
  {
    FindLot(db, id).Some? && FindLot(db, id).value.number == number
  }

  lemma {:induction false} PutKeepsLots(db: Db, w: Write)
    ensures LotsKept(db, Put(db, w))
  {
  }

  lemma {:induction false} LotsKeptTrans(a: Db, b: Db, c: Db)
    requires LotsKept(a, b) && LotsKept(b, c)
    ensures LotsKept(a, c)
  {
    hide FindLot;
  }

  lemma {:induction false} RowLeavesHeld(db: Db, row: Movement, c: Scope)
    requires c.number.Some?
    ensures HeldOver(Put(db, InsertMovement(row)), c) == HeldOver(db, c)
  {
    assert HeldByStore(Put(db, InsertMovement(row)), c) == HeldByStore(db, c);
  }

  lemma {:induction false} AddToLotHeld(db: Db, id: LotId, d: int, c: Scope)
    requires c.number.Some? && FindLot(db, id).Some? && Distinct(c.stores)
    ensures HeldOver(Put(db, AddToLot(id, d)), c) ==
            HeldOver(db, c) + if Numbered(db, id, c.number.value) && InScope(id.home, c) then d else 0
  {
    hide HeldOver, NumberUnits;
    var after, n := Put(db, AddToLot(id, d)), c.number.value;
    forall h
      ensures Held(At(after, h), c.number) ==
        Held(At(db, h), c.number) + if h == id.home then (if Numbered(db, id, n) then d else 0) else 0
    {
      if h == id.home {
        var lots := At(db, h).lots;
        NumberUnitsUpdate(lots, id.index, lots[id.index].quantity + d, n);
      }
    }
    HeldOverShift(db, after, id.home, if Numbered(db, id, n) then d else 0, c);
  }

  lemma {:induction false} CreateLotHeld(db: Db, to: Key, lot: Lot, c: Scope)
    requires c.number.Some? && Distinct(c.stores)
    ensures HeldOver(Put(db, CreateLot(to, lot)), c) ==
            HeldOver(db, c) + if lot.number == c.number.value && InScope(to, c) then lot.quantity else 0
  {
    hide HeldOver, NumberUnits;
    var after, d := Put(db, CreateLot(to, lot)), if lot.number == c.number.value then lot.quantity else 0;
    forall h ensures Held(At(after, h), c.number) == Held(At(db, h), c.number) + if h == to then d else 0 {
      if h == to { NumberUnitsSnoc(At(db, h).lots, lot, c.number.value); }
    }
    HeldOverShift(db, after, to, d, c);
  }

  lemma {:induction false} DepositHeld(v: View, to: Key, origin: Lot, quantity: int, c: Scope)
    requires c.number.Some? && Distinct(c.stores)
    ensures var after := Deposit(v, to, origin, quantity).0.db;
            && HeldOver(after, c) ==
               HeldOver(v.db, c) + (if origin.number == c.number.value && InScope(to, c) then quantity else 0)
            && LotsKept(v.db, after)
  {
    hide HeldOver, LotsKept;
    match FindTwin(At(v.db, to).lots, origin.number) {
      case Some(i) =>
        AddToLotHeld(v.db, LotId(to, i), quantity, c);
        PutKeepsLots(v.db, AddToLot(LotId(to, i), quantity));
      case None =>
        var lot := Lot(origin.number, origin.expiry, quantity);
        CreateLotHeld(v.db, to, lot, c);
        PutKeepsLots(v.db, CreateLot(to, lot));
    }
  }

  /** What a transfer out of the lot `id` adds to the counted units: it credits the destination of the
      transferred product and debits the lot wherever that belongs. */
  function LotDrift(db: Db, to: Key, id: LotId, quantity: int, c: Scope): int
  {
    if c.number.Some? && Numbered(db, id, c.number.value)
    then (if InScope(to, c) then quantity else 0) - if InScope(id.home, c) then quantity else 0
    else 0
  }

  lemma {:induction false} ReceiveLotHeld(v: View, clock: Clock, to: Key, id: LotId, quantity: int, c: Scope)
    requires c.number.Some? && FindLot(v.db, id).Some? && Distinct(c.stores)
    ensures var after := ReceiveLot(v, clock, to, id, quantity).db;
            HeldOver(after, c) == HeldOver(v.db, c) + LotDrift(v.db, to, id, quantity, c) && LotsKept(v.db, after)
  {
    hide HeldOver, LotsKept, Deposit, Put, At, Balance;
    var origin := FindLot(v.db, id).GetOr(Lot("", 0, 0));
    var v1 := Change(v, AddToLot(id, -quantity));
    AddToLotHeld(v.db, id, -quantity, c);
    PutKeepsLots(v.db, AddToLot(id, -quantity));
    var (v2, twin) := Deposit(v1, to, origin, quantity);
    DepositHeld(v1, to, origin, quantity, c);
    LotsKeptTrans(v.db, v1.db, v2.db);
    PostHeld(v2, clock, to, quantity, TransferIn, Some(twin), c);
    LotsKeptTrans(v.db, v2.db, Post(v2, clock, to, quantity, TransferIn, Some(twin)).db);
  }

  lemma {:induction false} PostHeld(v: View, clock: Clock, k: Key, quantity: int, kind: Kind, lot: Option<LotId>,
      c: Scope)
    requires c.number.Some?
    ensures var after := Post(v, clock, k, quantity, kind, lot).db;
            && HeldOver(after, c) == HeldOver(v.db, c) && LotsKept(v.db, after)
            && forall id :: FindLot(after, id) == FindLot(v.db, id)
  {
    hide HeldOver, LotsKept;
    var row := Movement(k, quantity, CurrentStock(v.db, k) + quantity, kind, lot, clock(v.tick));
    RowLeavesHeld(v.db, row, c);
    PutKeepsLots(v.db, InsertMovement(row));
  }

  function LineDrift(db: Db, to: Key, line: Line, c: Scope): int
  {
    if line.lot.Some? then LotDrift(db, to, line.lot.value, line.quantity, c) else 0
  }

  lemma {:induction false} MoveLineHeld(v: View, clock: Clock, job: Job, line: Line, c: Scope)
    requires job.Move? && c.number.Some? && Distinct(c.stores)
    requires line.lot.Some? ==> FindLot(v.db, line.lot.value).Some?
    ensures var after := MoveLine(v, clock, job, line).db;
            HeldOver(after, c) == HeldOver(v.db, c) + LineDrift(v.db, job.to, line, c) && LotsKept(v.db, after)
  {
    hide HeldOver, LotsKept, Post, ReceiveLot, FindLot, MoveLine;
    var v1 := Post(v, clock, job.key, -line.quantity, TransferOut, line.lot);
    MoveLineIs(v, clock, job, line);
    PostHeld(v, clock, job.key, -line.quantity, TransferOut, line.lot, c);
    if line.lot.Some? {
      ReceiveLotHeld(v1, clock, job.to, line.lot.value, line.quantity, c);
    } else {
      PostHeld(v1, clock, job.to, line.quantity, TransferIn, None, c);
    }
    LotsKeptTrans(v.db, v1.db, Receive(v1, clock, job.to, line).db);
  }

  function LinesDrift(db: Db, to: Key, lines: seq<Line>, c: Scope): int
  {
    if lines == [] then 0 else LineDrift(db, to, lines[0], c) + LinesDrift(db, to, lines[1..], c)
  }

  ghost predicate LotsThere(db: Db, lines: seq<Line>)
  {
    forall i :: 0 <= i < |lines| && lines[i].lot.Some? ==> FindLot(db, lines[i].lot.value).Some?
  }

  /** The drift can be read off later tables as well. */
  lemma {:induction false} DriftKept(a: Db, b: Db, to: Key, lines: seq<Line>, c: Scope)
    requires LotsKept(a, b) && LotsThere(a, lines)
    ensures LotsThere(b, lines) && LinesDrift(b, to, lines, c) == LinesDrift(a, to, lines, c)
  {
    hide FindLot;
    if lines != [] {
      DriftKept(a, b, to, lines[1..], c);
    }
  }

  lemma {:induction false} MoveLinesHeld(v: View, clock: Clock, job: Job, lines: seq<Line>, c: Scope)
    requires job.Move? && c.number.Some? && Distinct(c.stores) && LotsThere(v.db, lines)
    ensures var after := DoLines(v, clock, job, lines).db;
            HeldOver(after, c) == HeldOver(v.db, c) + LinesDrift(v.db, job.to, lines, c) && LotsKept(v.db, after)
    decreases |lines|
  {
    hide HeldOver, FindLot, MoveLine, LineDrift;
    if lines != [] {
      var v1 := MoveLine(v, clock, job, lines[0]);
      MoveLineHeld(v, clock, job, lines[0], c);
      DriftKept(v.db, v1.db, job.to, lines[1..], c);
      MoveLinesHeld(v1, clock, job, lines[1..], c);
      LotsKeptTrans(v.db, v1.db, DoLines(v, clock, job, lines).db);
    }
  }

  /** The lines of an accepted exit name lots that exist: the chosen one, or lots of the pair itself. */
  lemma {:induction false} ResolvedLotsThere(db: Db, perishable: bool, k: Key, quantity: int, pick: Option<LotId>)
    requires quantity >= 1 && ResolveExitLines(db, perishable, k, quantity, pick).Ok?
    ensures LotsThere(db, ResolveExitLines(db, perishable, k, quantity, pick).value)
  {
    hide ResolveExitLines, FindLot;
    ResolvedLinesBacked(db, perishable, k, quantity, pick);
    var lines := ResolveExitLines(db, perishable, k, quantity, pick).value;
    forall i | 0 <= i < |lines| && lines[i].lot.Some? ensures FindLot(db, lines[i].lot.value).Some? {
      assert LineBacked(db, perishable, k, pick, lines[i]);
    }
  }

  /** Lines out of lots of the transferred product leave the total alone. */
  lemma {:induction false} OwnLinesDrift(db: Db, to: Key, lines: seq<Line>, c: Scope)
    requires forall i :: 0 <= i < |lines| && lines[i].lot.Some? ==>
      (InScope(lines[i].lot.value.home, c) <==> InScope(to, c))
    ensures LinesDrift(db, to, lines, c) == 0
  {
    if lines != [] { OwnLinesDrift(db, to, lines[1..], c); }
  }

  /** What an item adds to the counted units: nothing unless a lot was chosen for it. */
  function JobDrift(db: Db, job: Job, c: Scope): int
    requires job.Move?
  {
    if job.pick.Some? then LotDrift(db, job.to, job.pick.value, job.quantity, c) else 0
  }

  ghost predicate Aimed(job: Job, c: Scope)
  {
    && job.Move? && job.quantity >= 1
    && job.to.product == job.key.product && job.to.tenant == job.key.tenant
    && job.key.store in c.stores && job.to.store in c.stores
  }

  lemma {:induction false} MoveHeld(v: View, catalog: Catalog, clock: Clock, job: Job, c: Scope)
    requires Aimed(job, c) && c.number.Some? && Distinct(c.stores) && DoJob(v, catalog, clock, job).Ok?
    ensures var after := DoJob(v, catalog, clock, job).value.db;
            && HeldOver(after, c) == HeldOver(v.db, c) + JobDrift(v.db, job, c) && LotsKept(v.db, after)
            && (job.pick.Some? ==> FindLot(v.db, job.pick.value).Some?)
  {
    hide HeldOver, LotsKept, DoLines;
    var p := catalog[job.key.product];
    var lines := ResolveExitLines(v.db, p, job.key, job.quantity, job.pick).value;
    ResolvedLotsThere(v.db, p, job.key, job.quantity, job.pick);
    MoveLinesHeld(v, clock, job, lines, c);
    if job.pick.Some? {
      assert lines == [Line(job.pick, job.quantity, false, true)] && lines[1..] == [];
    } else {
      ResolvedLinesFit(v.db, p, job.key, job.quantity, job.pick);
      OwnLinesDrift(v.db, job.to, lines, c);
    }
  }

  function JobsDrift(db: Db, jobs: seq<Job>, c: Scope): int
  {
    if jobs == [] then 0
    else (if jobs[0].Move? then JobDrift(db, jobs[0], c) else 0) + JobsDrift(db, jobs[1..], c)
  }

  lemma {:induction false} MovesHeld(v: View, catalog: Catalog, clock: Clock, jobs: seq<Job>, c: Scope)
    requires c.number.Some? && Distinct(c.stores) && DoJobs(v, catalog, clock, jobs).Ok?
    requires forall i :: 0 <= i < |jobs| ==> Aimed(jobs[i], c)
    ensures var after := DoJobs(v, catalog, clock, jobs).value.db;
            HeldOver(after, c) == HeldOver(v.db, c) + JobsDrift(after, jobs, c) && LotsKept(v.db, after)
    decreases |jobs|
  {
    hide HeldOver, FindLot, DoJob;
    if jobs != [] {
      var v1 := DoJob(v, catalog, clock, jobs[0]).value;
      MoveHeld(v, catalog, clock, jobs[0], c);
      MovesHeld(v1, catalog, clock, jobs[1..], c);
      LotsKeptTrans(v.db, v1.db, DoJobs(v, catalog, clock, jobs).value.db);
    }
  }

  /** What the items of a transfer add to the units counted by `c`, with lot numbers looked up in `db`. */
  function ItemsDrift(db: Db, tenant: int, destination: int, items: seq<TransferLine>, c: Scope): int
  {
    if items == [] then 0
    else (if items[0].pick.Some?
          then LotDrift(db, Key(tenant, items[0].product, destination), items[0].pick.value, items[0].quantity, c)
          else 0)
         + ItemsDrift(db, tenant, destination, items[1..], c)
  }

  lemma {:induction false} DriftOfItems(db: Db, tenant: int, origin: int, destination: int, items: seq<TransferLine>,
      c: Scope)
    ensures JobsDrift(db, TransferJobs(tenant, origin, destination, items), c) ==
            ItemsDrift(db, tenant, destination, items, c)
  {
    hide LotDrift;
    if items != [] {
      assert TransferJobs(tenant, origin, destination, items)[1..] ==
             TransferJobs(tenant, origin, destination, items[1..]);
      DriftOfItems(db, tenant, origin, destination, items[1..], c);
    }
  }

  /** The exact effect of a completed transfer on the units of a lot number, whatever lots were chosen:
      each chosen lot with that number credits the transferred product and debits the product it is of. */
  lemma {:induction false} TransferLotDrift(db: Db, catalog: Catalog, clock: Clock, tenant: int, origin: int,
      destination: int, items: seq<TransferLine>, c: Scope)
    requires Transact(db, catalog, clock, TransferJobs(tenant, origin, destination, items)).Ok?
    requires c.number.Some? && Distinct(c.stores) && origin in c.stores && destination in c.stores
    ensures var after := Transact(db, catalog, clock, TransferJobs(tenant, origin, destination, items)).value.db;
            HeldOver(after, c) == HeldOver(db, c) + ItemsDrift(after, tenant, destination, items, c)
  {
    hide HeldOver, JobsDrift, ItemsDrift, DoJobs;
    var jobs := TransferJobs(tenant, origin, destination, items);
    MovesHeld(View(db, 0, []), catalog, clock, jobs, c);
    DriftOfItems(Transact(db, catalog, clock, jobs).value.db, tenant, origin, destination, items, c);
  }

  /** A lot of the given product, in one of the stores. */
  predicate LotOf(id: LotId, tenant: int, product: int, stores: seq<int>)
  {
    id.home.tenant == tenant && id.home.product == product && id.home.store in stores
  }

  lemma {:induction false} OwnItemsDrift(db: Db, tenant: int, destination: int, items: seq<TransferLine>, c: Scope)
    requires destination in c.stores
    requires forall i :: 0 <= i < |items| && items[i].pick.Some? ==>
      LotOf(items[i].pick.value, tenant, items[i].product, c.stores)
    ensures ItemsDrift(db, tenant, destination, items, c) == 0
  {
    hide Numbered;
    if items != [] {
      OwnItemsDrift(db, tenant, destination, items[1..], c);
    }
  }

  /** When every chosen lot is one of the transferred product, in whatever store, the units of every lot
      number are conserved too. */
  lemma {:induction false} TransferConservesLots(db: Db, catalog: Catalog, clock: Clock, tenant: int, origin: int,
      destination: int, items: seq<TransferLine>, c: Scope)
    requires Transact(db, catalog, clock, TransferJobs(tenant, origin, destination, items)).Ok?
    requires c.number.Some? && Distinct(c.stores) && origin in c.stores && destination in c.stores
    requires forall i :: 0 <= i < |items| && items[i].pick.Some? ==>
      LotOf(items[i].pick.value, tenant, items[i].product, c.stores)
    ensures var after := Transact(db, catalog, clock, TransferJobs(tenant, origin, destination, items)).value.db;
            HeldOver(after, c) == HeldOver(db, c)
  {
    hide HeldOver, ItemsDrift, DoJobs;
    TransferLotDrift(db, catalog, clock, tenant, origin, destination, items, c);
    OwnItemsDrift(Transact(db, catalog, clock, TransferJobs(tenant, origin, destination, items)).value.db,
      tenant, destination, items, c);
  }

  ghost predicate AllLotsConserved(before: Db, after: Db, tenant: int, stores: seq<int>)
  {
    forall product, number :: HeldOver(after, Scope(tenant, product, stores, Some(number))) ==
                              HeldOver(before, Scope(tenant, product, stores, Some(number)))
  }

  /** The transfer of one item out of a chosen lot conserves every lot number of every product exactly
      when that lot is one of the transferred product; otherwise units of its number appear there. */
  lemma {:induction false} ChosenLotConservesIff(db: Db, catalog: Catalog, clock: Clock, tenant: int, origin: int,
      destination: int, item: TransferLine, stores: seq<int>)
    requires Transact(db, catalog, clock, TransferJobs(tenant, origin, destination, [item])).Ok?
    requires Distinct(stores) && origin in stores && destination in stores
    requires item.pick.Some? && item.pick.value.home.store in stores
    ensures var after := Transact(db, catalog, clock, TransferJobs(tenant, origin, destination, [item])).value.db;
            var id := item.pick.value;
            && (AllLotsConserved(db, after, tenant, stores) <==> LotOf(id, tenant, item.product, stores))
            && FindLot(after, id).Some?
            && (!LotOf(id, tenant, item.product, stores) ==>
                  var c := Scope(tenant, item.product, stores, Some(FindLot(after, id).value.number));
                  HeldOver(after, c) == HeldOver(db, c) + item.quantity)
  {
    hide HeldOver, DoJobs, FindLot;
    var jobs := TransferJobs(tenant, origin, destination, [item]);
    var after, id := Transact(db, catalog, clock, jobs).value.db, item.pick.value;
    ChosenLotThere(db, catalog, clock, tenant, origin, destination, item);
    if LotOf(id, tenant, item.product, stores) {
      forall product, number
        ensures HeldOver(after, Scope(tenant, product, stores, Some(number))) ==
                HeldOver(db, Scope(tenant, product, stores, Some(number)))
      {
        TransferConservesLots(db, catalog, clock, tenant, origin, destination, [item],
          Scope(tenant, product, stores, Some(number)));
      }
    } else {
      var c := Scope(tenant, item.product, stores, Some(FindLot(after, id).value.number));
      TransferLotDrift(db, catalog, clock, tenant, origin, destination, [item], c);
      assert [item][1..] == [];
    }
  }

  lemma {:induction false} ChosenLotThere(db: Db, catalog: Catalog, clock: Clock, tenant: int, origin: int,
      destination: int, item: TransferLine)
    requires Transact(db, catalog, clock, TransferJobs(tenant, origin, destination, [item])).Ok? && item.pick.Some?
    ensures FindLot(Transact(db, catalog, clock, TransferJobs(tenant, origin, destination, [item])).value.db,
              item.pick.value).Some?
  {
    hide HeldOver, FindLot, DoJob;
    var jobs := TransferJobs(tenant, origin, destination, [item]);
    var v, stores := View(db, 0, []), if origin == destination then [origin] else [origin, destination];
    var c := Scope(tenant, item.product, stores, Some(""));
    assert jobs[1..] == [];
    MoveHeld(v, catalog, clock, jobs[0], c);
    MovesHeld(v, catalog, clock, jobs, c);
  }

  /** The failing input: an accepted transfer of one product out of a lot of another one. */
  lemma {:induction false} ForeignLotMints(db: Db, catalog: Catalog, clock: Clock, tenant: int, origin: int,
      destination: int, item: TransferLine, stores: seq<int>)
    requires Distinct(stores) && origin in stores && destination in stores && item.product in catalog
    requires item.pick.Some? && item.pick.value.home.store in stores && item.pick.value.home.product != item.product
    requires FindLot(db, item.pick.value).Some? && FindLot(db, item.pick.value).value.quantity >= item.quantity
    ensures var r := Transact(db, catalog, clock, TransferJobs(tenant, origin, destination, [item]));
            r.Ok? && !AllLotsConserved(db, r.value.db, tenant, stores)
  {
    hide HeldOver, AllLotsConserved, MoveLine, FindLot;
    var jobs := TransferJobs(tenant, origin, destination, [item]);
    var v, line := View(db, 0, []), Line(item.pick, item.quantity, false, true);
    assert jobs[1..] == [] && [line][1..] == [];
    assert DoLines(v, clock, jobs[0], [line]) == DoLines(MoveLine(v, clock, jobs[0], line), clock, jobs[0], []);
    assert DoJobs(v, catalog, clock, jobs) == DoJobs(MoveLine(v, clock, jobs[0], line), catalog, clock, []);
    ChosenLotConservesIff(db, catalog, clock, tenant, origin, destination, item, stores);
  }
}
