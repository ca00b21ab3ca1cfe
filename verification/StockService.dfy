/**
 The service functions as they are written: each opens one transaction (withTenant), walks over items
 and lines in loops and either commits everything or, on any exception, leaves the tables alone.
 Each is proved against the operation of module Stock that the rest of the project reasons about.
 */
module StockService {
  import opened Prelude
  import opened Ledger
  import opened Stock
  import opened StockInvariants
  import opened StockBooks
  import opened StockEntries

  lemma {:induction false} OneCredit(db: Db, catalog: Catalog, clock: Clock, job: Job)
    requires job.Credit?
    ensures Transact(db, catalog, clock, [job]) == Ok(CreditLot(View(db, 0, []), clock, job))
  {
    var v := View(db, 0, []);
    assert [job][0] == job && [job][1..] == [];
    assert DoJobs(v, catalog, clock, [job]) == DoJobs(CreditLot(v, clock, job), catalog, clock, []);
  }

  /** The day chosen for a sale; text that names no day still compares with today as a string. */
  datatype DateInput = Unset | Day(day: int) | Malformed(afterToday: bool)

  /** A sale of today is stamped with the current time, one of a past day with noon of that day. */
  datatype SoldAt = Now | NoonOf(day: int)

  function ResolveSaleDate(input: DateInput, today: int): (r: Result<SoldAt, StockError>)
    ensures r == Err(FutureDate) <==> (input.Day? && input.day > today) || (input.Malformed? && input.afterToday)
    ensures r == Err(InvalidDate) <==> input.Malformed? && !input.afterToday
    ensures r == Ok(Now) <==> input.Unset? || input == Day(today)
    ensures forall day :: r == Ok(NoonOf(day)) <==> input == Day(day) && day < today
  {
    match input
    case Unset => Ok(Now)
    case Day(day) => if day > today then Err(FutureDate) else if day == today then Ok(Now) else Ok(NoonOf(day))
    case Malformed(afterToday) => if afterToday then Err(FutureDate) else Err(InvalidDate)
  }

  datatype Sale = Sale(store: int, totalAmountCents: int, items: seq<Item>, soldAt: SoldAt)

  /** The balance that the last movement of the pair carries. */
  function LastBalance(db: Db, k: Key): int
  {
    var rows := At(db, k).rows;
    if rows == [] then 0 else rows[|rows| - 1].balanceAfter
  }

  lemma {:induction false} OneDebit(db: Db, catalog: Catalog, clock: Clock, job: Job)
    requires job.Debit?
    ensures Transact(db, catalog, clock, [job]) == DoJob(View(db, 0, []), catalog, clock, job)
  {
    hide DoJob;
    var v := View(db, 0, []);
    assert [job][0] == job && [job][1..] == [];
    if DoJob(v, catalog, clock, job).Ok? {
      var v1 := DoJob(v, catalog, clock, job).value;
      assert DoJobs(v, catalog, clock, [job]) == DoJobs(v1, catalog, clock, []);
    }
  }

  /** The row that a debit writes is the pair's last. */
  lemma {:induction false} DebitIsLast(v: View, clock: Clock, job: Job, line: Line)
    requires job.Debit?
    ensures LastBalance(DebitLine(v, clock, job, line).db, job.key) == CurrentStock(v.db, job.key) - line.quantity
  {
    hide Balance;
  }

  /** An accepted exit has at least one line. */
  lemma {:induction false} SomeLine(db: Db, perishable: bool, k: Key, quantity: int, pick: Option<LotId>)
    requires quantity >= 1 && ResolveExitLines(db, perishable, k, quantity, pick).Ok?
    ensures ResolveExitLines(db, perishable, k, quantity, pick).value != []
  {
    ResolvedLinesTotal(db, perishable, k, quantity, pick);
  }

  class TenantStock {
    const tenant: int
    const catalog: Catalog
    var db: Db            // committed stock_movements and batches
    var sales: seq<Sale>  // committed sales with their items

    /** Every stored total is the sum over the items stored with it. */
    ghost predicate Valid()
      reads this
    {
      LedgerRight(db) && forall i :: 0 <= i < |sales| ==> ItemsValue(sales[i].items) == sales[i].totalAmountCents
    }

    constructor (tenant: int, catalog: Catalog)
      ensures Valid() && db == map[] && sales == []
      ensures this.tenant == tenant && this.catalog == catalog
    {
      this.tenant, this.catalog := tenant, catalog;
      db, sales := map[], [];
      new;
      EmptyTables(catalog);
    }

    method CreateManualEntry(product: int, store: int, quantity: Quantity, lot: Option<(string, int)>, clock: Clock)
      returns (balanceAfter: int)
      requires Valid()
      modifies this`db
      ensures Valid()
      ensures var k := Key(tenant, product, store);
              && Transact(old(db), catalog, clock, [Credit(k, quantity, ManualEntry, lot)]) == Ok(View(db, 1, []))
              && balanceAfter == CurrentStock(old(db), k) + quantity
              && Entered(At(old(db), k), At(db, k), k, ManualEntry, true, [NfeLine(product, quantity, lot)])
              && forall h :: h != k ==> At(db, h) == At(old(db), h)
    {
      hide Entered, CreditLot;
      var k := Key(tenant, product, store);
      ghost var job := Credit(k, quantity, ManualEntry, lot);
      var v;
      v, balanceAfter := EnterUnits(View(db, 0, []), clock, k, quantity, lot);
      OneCredit(db, catalog, clock, job);
      DoJobsKeepsLedger(View(db, 0, []), catalog, clock, [job]);
      CreditEnters(View(db, 0, []), clock, k, ManualEntry, true, NfeLine(product, quantity, lot));
      forall h | h != k ensures At(v.db, h) == At(db, h) { CreditAt(View(db, 0, []), clock, job, h); }
      db := v.db;
    }

    /** The statements of a manual entry: lot, balance, movement. */
    static method EnterUnits(start: View, clock: Clock, k: Key, quantity: Quantity, lot: Option<(string, int)>)
      returns (v: View, balanceAfter: int)
      ensures v == CreditLot(start, clock, Credit(k, quantity, ManualEntry, lot))
      ensures v.tick == start.tick + 1 && v.items == start.items
      ensures balanceAfter == CurrentStock(start.db, k) + quantity
    {
      hide Balance;
      v := start;
      var batch: Option<LotId> := None;
      if lot.Some? {
        batch := Some(LotId(k, |At(v.db, k).lots|));
        v := Change(v, CreateLot(k, Lot(lot.value.0, lot.value.1, quantity)));
      }
      balanceAfter := CurrentStock(v.db, k) + quantity;
      v := View(Put(v.db, InsertMovement(Movement(k, quantity, balanceAfter, ManualEntry, batch, clock(v.tick)))),
                v.tick + 1, v.items);
    }

    /** One line of an exit or sale item. */
    static method DebitOne(start: View, clock: Clock, job: Job, line: Line) returns (v: View)
      requires job.Debit?
      ensures v == DebitLine(start, clock, job, line)
    {
      var balanceAfter := CurrentStock(start.db, job.key) - line.quantity;
      var row := Movement(job.key, -line.quantity, balanceAfter, job.kind, line.lot, clock(start.tick));
      v := View(Put(start.db, InsertMovement(row)), start.tick + 1, start.items);
      if line.lot.Some? {
        v := Change(v, AddToLot(line.lot.value, -line.quantity));
      }
      if job.price.Some? {
        v := AddItem(v, Item(job.key.product, line.lot, line.quantity, job.price.value));
      }
    }

    static method DebitLines(start: View, clock: Clock, job: Job, lines: seq<Line>) returns (v: View)
      requires job.Debit?
      ensures v == DoLines(start, clock, job, lines)
    {
      v := start;
      var i := 0;
      while i < |lines|
        invariant 0 <= i <= |lines|
        invariant DoLines(v, clock, job, lines[i..]) == DoLines(start, clock, job, lines)
      {
        assert lines[i..][0] == lines[i] && lines[i..][1..] == lines[i + 1..];
        v := DebitOne(v, clock, job, lines[i]);
        i := i + 1;
      }
    }

    /** The lot of a transfer line moves: decrement it, then credit or create its twin. */
    static method MoveLot(start: View, to: Key, id: LotId, quantity: int) returns (v: View, destination: LotId)
      ensures (v, destination) ==
        Deposit(Change(start, AddToLot(id, -quantity)), to, FindLot(start.db, id).GetOr(Lot("", 0, 0)), quantity)
    {
      var origin := FindLot(start.db, id).GetOr(Lot("", 0, 0));
      v := Change(start, AddToLot(id, -quantity));
      var lots := At(v.db, to).lots;
      var existing := FindTwin(lots, origin.number);
      if existing.Some? {
        destination := LotId(to, existing.value);
        v := Change(v, AddToLot(destination, quantity));
      } else {
        destination := LotId(to, |lots|);
        v := Change(v, CreateLot(to, Lot(origin.number, origin.expiry, quantity)));
      }
    }

    /** One line of a transfer item: debit the origin, move the lot, credit the destination. */
    static method MoveOne(start: View, clock: Clock, job: Job, line: Line) returns (v: View)
      requires job.Move?
      ensures v == MoveLine(start, clock, job, line)
    {
      hide Post, Put, Deposit, FindLot;
      v := Post(start, clock, job.key, -line.quantity, TransferOut, line.lot);
      var destination: Option<LotId> := None;
      if line.lot.Some? {
        var twin;
        v, twin := MoveLot(v, job.to, line.lot.value, line.quantity);
        destination := Some(twin);
      }
      v := Post(v, clock, job.to, line.quantity, TransferIn, destination);
      v := AddItem(v, Item(job.key.product, line.lot, line.quantity, 0));
    }

    static method MoveLines(start: View, clock: Clock, job: Job, lines: seq<Line>) returns (v: View)
      requires job.Move?
      ensures v == DoLines(start, clock, job, lines)
    {
      v := start;
      var i := 0;
      while i < |lines|
        invariant 0 <= i <= |lines|
        invariant DoLines(v, clock, job, lines[i..]) == DoLines(start, clock, job, lines)
      {
        assert lines[i..][0] == lines[i] && lines[i..][1..] == lines[i + 1..];
        v := MoveOne(v, clock, job, lines[i]);
        i := i + 1;
      }
    }

    /** The body that createStockExit, createSale and createTransfer share: item after item, the first
        exception ends the transaction. */
    static method RunItems(start: View, catalog: Catalog, clock: Clock, jobs: seq<Job>) returns (r: Result<View,
        StockError>)
      requires forall i :: 0 <= i < |jobs| ==> !jobs[i].Credit?
      ensures r == DoJobs(start, catalog, clock, jobs)
    {
      var v := start;
      var i := 0;
      while i < |jobs|
        invariant 0 <= i <= |jobs|
        invariant DoJobs(v, catalog, clock, jobs[i..]) == DoJobs(start, catalog, clock, jobs)
      {
        var job := jobs[i];
        assert jobs[i..][0] == job && jobs[i..][1..] == jobs[i + 1..];
        if job.key.product !in catalog {
          return Err(UnknownProduct);
        }
        var resolved := ResolveExitLines(v.db, catalog[job.key.product], job.key, job.quantity, job.pick);
        if resolved.Err? {
          return Err(resolved.error);
        }
        if job.Debit? {
          v := DebitLines(v, clock, job, resolved.value);
        } else {
          v := MoveLines(v, clock, job, resolved.value);
        }
        i := i + 1;
      }
      assert jobs[i..] == [];
      r := Ok(v);
    }

    /** The loop of createStockExit, which reports the balance of the last movement it wrote. */
    static method ExitLines(start: View, clock: Clock, job: Job, lines: seq<Line>) returns (v: View, balanceAfter: int)
      requires job.Debit?
      ensures v == DoLines(start, clock, job, lines)
      ensures balanceAfter == if lines == [] then 0 else LastBalance(v.db, job.key)
    {
      hide DebitLine, LastBalance, Balance;
      v, balanceAfter := start, 0;
      var i := 0;
      while i < |lines|
        invariant 0 <= i <= |lines|
        invariant DoLines(v, clock, job, lines[i..]) == DoLines(start, clock, job, lines)
        invariant balanceAfter == if i == 0 then 0 else LastBalance(v.db, job.key)
      {
        assert lines[i..][0] == lines[i] && lines[i..][1..] == lines[i + 1..];
        DebitIsLast(v, clock, job, lines[i]);
        balanceAfter := CurrentStock(v.db, job.key) - lines[i].quantity;
        v := DebitOne(v, clock, job, lines[i]);
        i := i + 1;
      }
    }

    /** createStockExit: saida_perda needs a reason. */
    method CreateStockExit(product: int, store: int, quantity: Quantity, loss: bool, hasReason: bool,
        pick: Option<LotId>, clock: Clock) returns (r: Result<int, StockError>)
      requires Valid()
      modifies this`db
      ensures Valid()
      ensures var job := Debit(Key(tenant, product, store), quantity,
                               if loss then LossExit else Adjustment, pick, None);
              if loss && !hasReason then r == Err(ReasonMissing) && db == old(db)
              else match Transact(old(db), catalog, clock, [job])
                   case Err(e) => r == Err(e) && db == old(db)
                   case Ok(after) => r == Ok(LastBalance(after.db, job.key)) && db == after.db
    {
      hide LedgerRight, DoLines, LastBalance, ResolveExitLines, DoJobs;
      if loss && !hasReason {
        return Err(ReasonMissing);
      }
      var job := Debit(Key(tenant, product, store), quantity, if loss then LossExit else Adjustment, pick, None);
      OneDebit(db, catalog, clock, job);
      if product !in catalog {
        return Err(UnknownProduct);
      }
      var resolved := ResolveExitLines(db, catalog[product], job.key, quantity, pick);
      if resolved.Err? {
        return Err(resolved.error);
      }
      SomeLine(db, catalog[product], job.key, quantity, pick);
      DoJobsKeepsLedger(View(db, 0, []), catalog, clock, [job]);
      var v, balanceAfter := ExitLines(View(db, 0, []), clock, job, resolved.value);
      db := v.db;
      r := Ok(balanceAfter);
    }

    /** createSale: the total is computed before anything is debited. */
    method CreateSale(store: int, items: seq<SaleLine>, saleDate: DateInput, today: int, clock: Clock)
      returns (r: Result<int, StockError>)
      requires Valid()
      modifies this
      ensures Valid()
      ensures if items == [] then r == Err(NoItems) && db == old(db) && sales == old(sales)
              else if ResolveSaleDate(saleDate, today).Err? then
                r == Err(ResolveSaleDate(saleDate, today).error) && db == old(db) && sales == old(sales)
              else match Transact(old(db), catalog, clock, SaleJobs(tenant, store, items))
                   case Err(e) => r == Err(e) && db == old(db) && sales == old(sales)
                   case Ok(after) =>
                     && r == Ok(SaleTotal(items)) && db == after.db
                     && sales == old(sales) +
                         [Sale(store, SaleTotal(items), after.items, ResolveSaleDate(saleDate, today).value)]
    {
      if items == [] {
        return Err(NoItems);
      }
      var soldAt := ResolveSaleDate(saleDate, today);
      if soldAt.Err? {
        return Err(soldAt.error);
      }
      var total := 0;
      var i := 0;
      while i < |items|
        invariant 0 <= i <= |items|
        invariant total + SaleTotal(items[i..]) == SaleTotal(items)
      {
        assert items[i..][0] == items[i] && items[i..][1..] == items[i + 1..];
        total := total + items[i].quantity * items[i].unitPriceCents;
        i := i + 1;
      }
      assert items[i..] == [];
      var out := RunItems(View(db, 0, []), catalog, clock, SaleJobs(tenant, store, items));
      if out.Err? {
        return Err(out.error);
      }
      DoJobsKeepsLedger(View(db, 0, []), catalog, clock, SaleJobs(tenant, store, items));
      SaleAddsUp(db, catalog, clock, tenant, store, items, 0);
      db := out.value.db;
      sales := sales + [Sale(store, total, out.value.items, soldAt.value)];
      r := Ok(total);
    }

    /** createTransfer: all or nothing over its items. */
    method CreateTransfer(origin: int, destination: int, items: seq<TransferLine>, clock: Clock)
      returns (r: Result<seq<Item>, StockError>)
      requires Valid()
      modifies this`db
      ensures Valid()
      ensures if origin == destination then r == Err(SameStore) && db == old(db)
              else if items == [] then r == Err(NoItems) && db == old(db)
              else match Transact(old(db), catalog, clock, TransferJobs(tenant, origin, destination, items))
                   case Err(e) => r == Err(e) && db == old(db)
                   case Ok(after) => r == Ok(after.items) && db == after.db
    {
      if origin == destination {
        return Err(SameStore);
      }
      if items == [] {
        return Err(NoItems);
      }
      var jobs := TransferJobs(tenant, origin, destination, items);
      var out := RunItems(View(db, 0, []), catalog, clock, jobs);
      if out.Err? {
        return Err(out.error);
      }
      DoJobsKeepsLedger(View(db, 0, []), catalog, clock, jobs);
      db := out.value.db;
      r := Ok(out.value.items);
    }

    /** The loop of confirmNfeImport over the items of an import in review. */
    method ConfirmItems(store: int, items: seq<NfeLine>, clock: Clock)
      requires Valid()
      modifies this`db
      ensures Valid()
      ensures var r := Transact(old(db), catalog, clock, NfeJobs(catalog, tenant, store, items));
              r.Ok? && db == r.value.db
      ensures forall h :: Confirmed(old(db), db, catalog, tenant, store, items, h)
    {
      hide Confirmed;
      var v := View(db, 0, []);
      ghost var start := v;
      var i := 0;
      while i < |items|
        invariant 0 <= i <= |items|
        invariant LedgerRight(v.db)
        invariant DoJobs(v, catalog, clock, NfeJobs(catalog, tenant, store, items[i..])) ==
                  DoJobs(start, catalog, clock, NfeJobs(catalog, tenant, store, items))
      {
        var item := items[i];
        assert items[i..][0] == item && items[i..][1..] == items[i + 1..];
        if item.product in catalog {
          var lot := if catalog[item.product] then item.override else None;
          ghost var job := Credit(Key(tenant, item.product, store), item.quantity, NfeEntry, lot);
          DoJobKeepsLedger(v, catalog, clock, job);
          ghost var jobs := NfeJobs(catalog, tenant, store, items[i..]);
          assert jobs[0] == job && jobs[1..] == NfeJobs(catalog, tenant, store, items[i + 1..]);
          v := CreditOne(v, clock, Key(tenant, item.product, store), item.quantity, lot);
        }
        i := i + 1;
      }
      assert items[i..] == [];
      assert DoJobs(start, catalog, clock, NfeJobs(catalog, tenant, store, items)) == Ok(v);
      forall h ensures Confirmed(start.db, v.db, catalog, tenant, store, items, h) {
        ConfirmationExact(start, catalog, clock, tenant, store, items, h);
      }
      db := v.db;
    }

    static method CreditOne(start: View, clock: Clock, k: Key, quantity: nat, lot: Option<(string,
        int)>) returns (v: View)
      ensures v == CreditLot(start, clock, Credit(k, quantity, NfeEntry, lot))
    {
      v := start;
      var batch: Option<LotId> := None;
      if lot.Some? {
        batch := Some(LotId(k, |At(v.db, k).lots|));
        v := Change(v, CreateLot(k, Lot(lot.value.0, lot.value.1, quantity)));
      }
      v := Post(v, clock, k, quantity, NfeEntry, batch);
    }
  }
}
