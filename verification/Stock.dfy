/**
 The stock tables and the operations that change them, each as one uninterrupted transaction
 (services/app/src/modules/stock, services/app/src/modules/sales/sales.ts). `Transactions` runs
 the same operations statement by statement and interleaved.
 */
module Stock {
  import opened Prelude
  import opened Ledger
  import opened Fefo

  datatype Lot = Lot(number: string, expiry: int, quantity: int)

  /** The rows of stock_movements and batches that belong to one pair, in creation order. */
  datatype Shelf = Shelf(rows: seq<Movement>, lots: seq<Lot>)

  /** The two tables, partitioned by pair; an absent pair has no rows. */
  type Db = map<Key, Shelf>

  function At(db: Db, k: Key): Shelf { if k in db then db[k] else Shelf([], []) }

  /** getCurrentStock(product, store). */
  function CurrentStock(db: Db, k: Key): int { Balance(At(db, k).rows) }

  function FindLot(db: Db, id: LotId): Option<Lot>
  {
    var lots := At(db, id.home).lots;
    if id.index < |lots| then Some(lots[id.index]) else None
  }

  // ---- Row-level writes ----

  datatype Write =
    | InsertMovement(row: Movement)
    | CreateLot(home: Key, lot: Lot)
    | AddToLot(id: LotId, delta: int)   // UPDATE ... SET quantity = quantity + delta

  function Target(w: Write): Key
  {
    match w
    case InsertMovement(row) => row.key
    case CreateLot(home, _) => home
    case AddToLot(id, _) => id.home
  }

  function PutShelf(s: Shelf, w: Write): Shelf
  {
    match w
    case InsertMovement(row) => s.(rows := s.rows + [row])
    case CreateLot(_, lot) => s.(lots := s.lots + [lot])
    case AddToLot(id, delta) =>
      if id.index < |s.lots| then
        s.(lots := s.lots[id.index := s.lots[id.index].(quantity := s.lots[id.index].quantity + delta)])
      else s
  }

  function Put(db: Db, w: Write): Db { db[Target(w) := PutShelf(At(db, Target(w)), w)] }

  // ---- Transactions as they see the tables ----

  /** A persisted sale item or transfer item. */
  datatype Item = Item(product: int, lot: Option<LotId>, quantity: int, unitPriceCents: int)

  /** The tables as a transaction sees them, the number of movements it has inserted and the items
      it has persisted. */
  datatype View = View(db: Db, tick: nat, items: seq<Item>)

  /** What does not change while transactions run: the catalogue (product -> isPerishable). */
  type Catalog = map<int, bool>

  /** createdAt of the n-th movement that a transaction inserts. */
  type Clock = nat -> int

  datatype StockError =
    | UnknownProduct | Insufficient | NotPositiveQuantity | SameStore | NoItems | ReasonMissing
    | FutureDate | InvalidDate

  /** nextBalanceAfter and stockMovement.create. */
  function Post(v: View, clock: Clock, k: Key, quantity: int, kind: Kind, lot: Option<LotId>): View
  {
    var row := Movement(k, quantity, CurrentStock(v.db, k) + quantity, kind, lot, clock(v.tick));
    View(Put(v.db, InsertMovement(row)), v.tick + 1, v.items)
  }

  function Change(v: View, w: Write): View { v.(db := Put(v.db, w)) }

  function AddItem(v: View, item: Item): View { v.(items := v.items + [item]) }

  // ---- resolveExitLines ----

  datatype Line = Line(lot: Option<LotId>, quantity: int, fefoApplied: bool, fefoOverridden: bool)

  function Batches(lots: seq<Lot>): seq<Batch>
  {
    seq(|lots|, i requires 0 <= i < |lots| => Batch(i, lots[i].expiry, lots[i].quantity))
  }

  function FefoLines(k: Key, items: seq<Batch>): seq<Line>
  {
    seq(|items|, i requires 0 <= i < |items| => Line(Some(LotId(k, items[i].id)), items[i].quantity, true, false))
  }

  function ResolveExitLines(db: Db, perishable: bool, k: Key, quantity: int, pick: Option<LotId>)
    : (r: Result<seq<Line>, StockError>)
  {
    match pick
    case Some(id) =>
      var lot := FindLot(db, id);
      if lot.None? || lot.value.quantity < quantity then Err(Insufficient)
      else Ok([Line(pick, quantity, false, true)])
    case None =>
      if !perishable then
        if CurrentStock(db, k) < quantity then Err(Insufficient)
        else Ok([Line(None, quantity, false, false)])
      else
        match Suggest(Batches(At(db, k).lots), quantity)
        case Err(_) => Err(NotPositiveQuantity)
        case Ok(s) => if !s.fullyCovered then Err(Insufficient) else Ok(FefoLines(k, s.items))
  }

  // ---- One item of an operation ----

  /** What an operation does for one of its items:
      Credit is createManualEntry and one item of confirmNfeImport; Debit is createStockExit and one
      item of createSale (which has a price); Move is transferOneItem. */
  datatype Job =
    | Credit(key: Key, quantity: int, kind: Kind, lot: Option<(string, int)>)
    | Debit(key: Key, quantity: int, kind: Kind, pick: Option<LotId>, price: Option<int>)
    | Move(key: Key, to: Key, quantity: int, pick: Option<LotId>)

  function CreditLot(v: View, clock: Clock, job: Job): View
    requires job.Credit?
  {
    match job.lot
    case None => Post(v, clock, job.key, job.quantity, job.kind, None)
    case Some((number, expiry)) =>
      var id := LotId(job.key, |At(v.db, job.key).lots|);
      var v1 := Change(v, CreateLot(job.key, Lot(number, expiry, job.quantity)));
      Post(v1, clock, job.key, job.quantity, job.kind, Some(id))
  }

  function DebitLine(v: View, clock: Clock, job: Job, line: Line): View
    requires job.Debit?
  {
    var v1 := Post(v, clock, job.key, -line.quantity, job.kind, line.lot);
    var v2 := if line.lot.Some? then Change(v1, AddToLot(line.lot.value, -line.quantity)) else v1;
    if job.price.Some? then AddItem(v2, Item(job.key.product, line.lot, line.quantity, job.price.value)) else v2
  }

  /** batch.findFirst in the destination: the first lot with this number. */
  function FindTwin(lots: seq<Lot>, number: string): (r: Option<nat>)
    ensures r.Some? ==> r.value < |lots| && lots[r.value].number == number
    ensures r.Some? ==> forall i :: 0 <= i < r.value ==> lots[i].number != number
    ensures r.None? ==> forall i :: 0 <= i < |lots| ==> lots[i].number != number
  {
    if lots == [] then None
    else
      var n := |lots| - 1;
      var r := FindTwin(lots[..n], number);
      if r.None? && lots[n].number == number then Some(n) else r
  }

  /** Credits `quantity` units to the lot of `to` with the number and expiry of `origin`. */
  function Deposit(v: View, to: Key, origin: Lot, quantity: int): (View, LotId)
  {
    var lots := At(v.db, to).lots;
    match FindTwin(lots, origin.number)
    case Some(i) => (Change(v, AddToLot(LotId(to, i), quantity)), LotId(to, i))
    case None => (Change(v, CreateLot(to, Lot(origin.number, origin.expiry, quantity))), LotId(to, |lots|))
  }

  /** The lot `id` gives `quantity` units to its twin in `to`, and the units enter the stock there. */
  function ReceiveLot(v: View, clock: Clock, to: Key, id: LotId, quantity: int): View
  {
    var origin := FindLot(v.db, id).GetOr(Lot("", 0, 0));
    var v1 := Change(v, AddToLot(id, -quantity));
    var (v2, twin) := Deposit(v1, to, origin, quantity);
    Post(v2, clock, to, quantity, TransferIn, Some(twin))
  }

  /** The half of a transfer line that reaches the destination; a lot moves with its units. */
  function Receive(v: View, clock: Clock, to: Key, line: Line): View
  {
    match line.lot
    case None => Post(v, clock, to, line.quantity, TransferIn, None)
    case Some(id) => ReceiveLot(v, clock, to, id, line.quantity)
  }

  function MoveLine(v: View, clock: Clock, job: Job, line: Line): View
    requires job.Move?
  {
    var v1 := Post(v, clock, job.key, -line.quantity, TransferOut, line.lot);
    AddItem(Receive(v1, clock, job.to, line), Item(job.key.product, line.lot, line.quantity, 0))
  }

  function DoLine(v: View, clock: Clock, job: Job, line: Line): View
    requires !job.Credit?
  {
    if job.Debit? then DebitLine(v, clock, job, line) else MoveLine(v, clock, job, line)
  }

  function DoLines(v: View, clock: Clock, job: Job, lines: seq<Line>): View
    requires !job.Credit?
    decreases |lines|
  {
    if lines == [] then v else DoLines(DoLine(v, clock, job, lines[0]), clock, job, lines[1..])
  }

  function DoJob(v: View, catalog: Catalog, clock: Clock, job: Job): Result<View, StockError>
  {
    if job.Credit? then Ok(CreditLot(v, clock, job))
    else if job.key.product !in catalog then Err(UnknownProduct)
    else
      match ResolveExitLines(v.db, catalog[job.key.product], job.key, job.quantity, job.pick)
      case Err(e) => Err(e)
      case Ok(lines) => Ok(DoLines(v, clock, job, lines))
  }

  function DoJobs(v: View, catalog: Catalog, clock: Clock, jobs: seq<Job>): Result<View, StockError>
    decreases |jobs|
  {
    if jobs == [] then Ok(v)
    else
      match DoJob(v, catalog, clock, jobs[0])
      case Err(e) => Err(e)
      case Ok(v1) => DoJobs(v1, catalog, clock, jobs[1..])
  }

  /** A whole transaction started on the tables `db`. */
  function Transact(db: Db, catalog: Catalog, clock: Clock, jobs: seq<Job>): Result<View, StockError>
  {
    DoJobs(View(db, 0, []), catalog, clock, jobs)
  }

  // ---- Requests ----

  /** An item as the routes accept it: whole units, at least one. */
  type Quantity = n: int | n >= 1 witness 1

  datatype SaleLine = SaleLine(product: int, pick: Option<LotId>, quantity: Quantity, unitPriceCents: nat)

  datatype TransferLine = TransferLine(product: int, pick: Option<LotId>, quantity: Quantity)

  /** An item of an NF-e matched to a product: its rounded quantity and the lot of the operator's override. */
  datatype NfeLine = NfeLine(product: int, quantity: nat, override: Option<(string, int)>)

  function SaleJobs(tenant: int, store: int, items: seq<SaleLine>): seq<Job>
  {
    seq(|items|, i requires 0 <= i < |items| =>
      Debit(Key(tenant, items[i].product, store), items[i].quantity, SaleExit, items[i].pick,
            Some(items[i].unitPriceCents)))
  }

  function TransferJobs(tenant: int, origin: int, destination: int, items: seq<TransferLine>): seq<Job>
  {
    seq(|items|, i requires 0 <= i < |items| =>
      Move(Key(tenant, items[i].product, origin), Key(tenant, items[i].product, destination),
           items[i].quantity, items[i].pick))
  }

  /** Items whose product row is missing are skipped; only perishable products get a lot. */
  function NfeJobs(catalog: Catalog, tenant: int, store: int, items: seq<NfeLine>): seq<Job>
  {
    if items == [] then []
    else
      var rest := NfeJobs(catalog, tenant, store, items[1..]);
      var item := items[0];
      if item.product !in catalog then rest
      else
        [Credit(Key(tenant, item.product, store), item.quantity, NfeEntry,
                if catalog[item.product] then item.override else None)] + rest
  }
}
