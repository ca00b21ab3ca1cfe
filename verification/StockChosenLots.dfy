/**
 What becomes of solvency when an exit or a transfer names a lot by hand: that branch of resolveExitLines
 (services/app/src/modules/stock/resolve-batches.ts:29-35) compares the request with the lot only.
 */
module StockChosenLots {
  import opened Prelude
  import opened Ledger
  import opened Stock
  import opened StockInvariants

  /** A one-line exit from an explicitly chosen lot that holds enough is accepted, and the balance it
      writes is negative exactly when the pair's stock is smaller than the request: that branch of
      resolveExitLines compares the request with the lot only. */
  lemma {:induction false} ExplicitLotExact(db: Db, catalog: Catalog, clock: Clock, k: Key, quantity: int, id: LotId)
    requires quantity >= 1 && k.product in catalog
    requires FindLot(db, id).Some? && FindLot(db, id).value.quantity >= quantity
    ensures var r := Transact(db, catalog, clock, [Debit(k, quantity, Adjustment, Some(id), None)]);
            && r.Ok?
            && var rows := At(r.value.db, k).rows;
               rows != [] && (rows[|rows| - 1].balanceAfter < 0 <==> CurrentStock(db, k) < quantity)
  {
    var v := View(db, 0, []);
    var job := Debit(k, quantity, Adjustment, Some(id), None);
    var line := Line(Some(id), quantity, false, true);
    assert [line][1..] == [] && [job][1..] == [];
    assert DoLines(v, clock, job, [line]) == DoLines(DebitLine(v, clock, job, line), clock, job, []);
    assert DoJobs(v, catalog, clock, [job]) == DoJobs(DebitLine(v, clock, job, line), catalog, clock, []);
    PostAt(v, clock, k, -quantity, Adjustment, Some(id), k);
  }

  /** An exit of a product that is not perishable leaves its lots alone, so the lots still fit the
      balance it writes exactly when they fitted what was to remain. */
  lemma {:induction false} UnlottedExitExact(db: Db, catalog: Catalog, clock: Clock, k: Key, quantity: int)
    requires quantity >= 1 && k.product in catalog && !catalog[k.product] && CurrentStock(db, k) >= quantity
    ensures var r := Transact(db, catalog, clock, [Debit(k, quantity, Adjustment, None, None)]);
            && r.Ok?
            && At(r.value.db, k).lots == At(db, k).lots
            && var rows := At(r.value.db, k).rows;
               && rows != []
               && (LotUnits(At(r.value.db, k).lots) <= rows[|rows| - 1].balanceAfter <==>
                     LotUnits(At(db, k).lots) + quantity <= CurrentStock(db, k))
  {
    var v := View(db, 0, []);
    var job := Debit(k, quantity, Adjustment, None, None);
    var line := Line(None, quantity, false, false);
    assert [line][1..] == [] && [job][1..] == [];
    assert DoLines(v, clock, job, [line]) == DoLines(DebitLine(v, clock, job, line), clock, job, []);
    assert DoJobs(v, catalog, clock, [job]) == DoJobs(DebitLine(v, clock, job, line), catalog, clock, []);
    PostAt(v, clock, k, -quantity, Adjustment, None, k);
  }

  // ---- When an exit out of a chosen lot keeps the tenant solvent ----

  lemma {:induction false} ChosenLotResult(db: Db, catalog: Catalog, clock: Clock, job: Job)
    requires job.Debit? && job.pick.Some? && job.key.product in catalog
    requires FindLot(db, job.pick.value).Some? && FindLot(db, job.pick.value).value.quantity >= job.quantity
    ensures Transact(db, catalog, clock, [job]) ==
            Ok(DebitLine(View(db, 0, []), clock, job, Line(job.pick, job.quantity, false, true)))
  {
    hide DebitLine, FindLot;
    var v, line := View(db, 0, []), Line(job.pick, job.quantity, false, true);
    assert [line][1..] == [] && [job][1..] == [];
    assert DoLines(v, clock, job, [line]) == DoLines(DebitLine(v, clock, job, line), clock, job, []);
    assert DoJobs(v, catalog, clock, [job]) == DoJobs(DebitLine(v, clock, job, line), catalog, clock, []);
  }

  /** One movement without a lot on a solvent shelf. */
  lemma {:induction false} RowOnlySolventIff(s: Shelf, perishable: bool, row: Movement)
    requires ShelfSolvent(s, perishable) && Chronological(s.rows + [row])
    requires row.quantity <= 0 && row.balanceAfter == Balance(s.rows) + row.quantity
    ensures ShelfSolvent(Shelf(s.rows + [row], s.lots), perishable) <==>
            LotUnits(s.lots) - row.quantity <= Balance(s.rows)
  {
    hide Chronological, RunningSums, Balance, Units, LotUnits;
    LastRow(s.rows, row);
    NotNegative(s.lots);
    assert (s.rows + [row])[|s.rows|] == row;
  }

  lemma {:induction false} NotNegative(lots: seq<Lot>)
    requires NoNegativeLot(lots)
    ensures LotUnits(lots) >= 0
  {
    SumNonNegative(LotQuantities(lots));
  }

  lemma {:induction false} DrawnSolvent(s: Shelf, perishable: bool, i: nat, quantity: int)
    requires ShelfSolvent(s, perishable) && i < |s.lots| && 0 <= quantity <= s.lots[i].quantity
    ensures ShelfSolvent(Shelf(s.rows, s.lots[i := s.lots[i].(quantity := s.lots[i].quantity - quantity)]), perishable)
  {
    hide Chronological, RunningSums, Units, LotUnits;
    LotUnitsUpdate(s.lots, i, s.lots[i].(quantity := s.lots[i].quantity - quantity));
  }

  lemma {:induction false} ForeignDebitAt(v: View, clock: Clock, job: Job, line: Line, h: Key)
    requires job.Debit? && line.lot.Some? && line.lot.value.home != job.key && FindLot(v.db, line.lot.value).Some?
    ensures var s, id := At(v.db, h), line.lot.value;
            At(DebitLine(v, clock, job, line).db, h) ==
            if h == job.key then
              Shelf(s.rows + [Movement(h, -line.quantity, Balance(s.rows) - line.quantity, job.kind, line.lot,
                                       clock(v.tick))], s.lots)
            else if h == id.home then
              Shelf(s.rows,
                    s.lots[id.index := s.lots[id.index].(quantity := s.lots[id.index].quantity - line.quantity)])
            else s
  {
    hide Balance;
  }

  /** An exit out of an explicitly chosen lot that holds enough is always accepted. Out of the pair's own lot
      it keeps a solvent tenant solvent; out of any other lot exactly when the pair's own lots still fit the
      stock that remains. */
  lemma {:induction false} ChosenLotSolventIff(db: Db, catalog: Catalog, clock: Clock, job: Job)
    requires job.Debit? && job.pick.Some? && job.key.product in catalog && job.quantity >= 1
    requires FindLot(db, job.pick.value).Some? && FindLot(db, job.pick.value).value.quantity >= job.quantity
    requires AllSolvent(db, catalog)
    ensures var r := Transact(db, catalog, clock, [job]);
            && r.Ok?
            && (Chronological(At(r.value.db, job.key).rows) ==>
                  (AllSolvent(r.value.db, catalog) <==>
                     job.pick.value.home == job.key ||
                     LotUnits(At(db, job.key).lots) + job.quantity <= CurrentStock(db, job.key)))
  {
    hide DebitLine, Chronological, ShelfSolvent, LotUnits, Balance;
    var v, line, k := View(db, 0, []), Line(job.pick, job.quantity, false, true), job.key;
    ChosenLotResult(db, catalog, clock, job);
    var after := DebitLine(v, clock, job, line).db;
    if Chronological(At(after, k).rows) {
      if job.pick.value.home == k {
        OwnLotSolvent(db, catalog, clock, job);
      } else {
        ForeignLotSolventIff(db, catalog, clock, job, after);
      }
    }
  }

  lemma {:induction false} OwnLotSolvent(db: Db, catalog: Catalog, clock: Clock, job: Job)
    requires job.Debit? && job.pick.Some? && job.pick.value.home == job.key && job.quantity >= 1
    requires FindLot(db, job.pick.value).Some? && FindLot(db, job.pick.value).value.quantity >= job.quantity
    requires AllSolvent(db, catalog)
    ensures AllSolvent(DebitLine(View(db, 0, []), clock, job, Line(job.pick, job.quantity, false, true)).db, catalog)
  {
    hide DebitLine, Taken, ShelfSolvent;
    var v, line := View(db, 0, []), Line(job.pick, job.quantity, false, true);
    forall h ensures ShelfSolvent(At(DebitLine(v, clock, job, line).db, h), Perishable(catalog, h.product)) {
      assert ShelfSolvent(At(db, h), Perishable(catalog, h.product));
      DebitLineAt(v, clock, job, line, h);
      if h == job.key {
        TakenKeepsSolvent(At(db, h), Perishable(catalog, h.product), h, job.kind, line, clock(0));
      }
    }
  }

  lemma {:induction false} ForeignLotSolventIff(db: Db, catalog: Catalog, clock: Clock, job: Job, after: Db)
    requires job.Debit? && job.pick.Some? && job.pick.value.home != job.key && job.quantity >= 1
    requires FindLot(db, job.pick.value).Some? && FindLot(db, job.pick.value).value.quantity >= job.quantity
    requires after == DebitLine(View(db, 0, []), clock, job, Line(job.pick, job.quantity, false, true)).db
    requires AllSolvent(db, catalog) && Chronological(At(after, job.key).rows)
    ensures AllSolvent(after, catalog) <==> LotUnits(At(db, job.key).lots) + job.quantity <= CurrentStock(db, job.key)
  {
    hide DebitLine, ShelfSolvent, Chronological, LotUnits, Balance;
    var v, line, k, id := View(db, 0, []), Line(job.pick, job.quantity, false, true), job.key, job.pick.value;
    var s := At(db, k);
    var row := Movement(k, -job.quantity, Balance(s.rows) - job.quantity, job.kind, job.pick, clock(0));
    ForeignDebitAt(v, clock, job, line, k);
    assert ShelfSolvent(s, Perishable(catalog, k.product));
    RowOnlySolventIff(s, Perishable(catalog, k.product), row);
    forall h | h != k ensures ShelfSolvent(At(after, h), Perishable(catalog, h.product)) {
      assert ShelfSolvent(At(db, h), Perishable(catalog, h.product));
      ForeignDebitAt(v, clock, job, line, h);
      if h == id.home { DrawnSolvent(At(db, h), Perishable(catalog, h.product), id.index, job.quantity); }
    }
    assert AllSolvent(after, catalog) <==> ShelfSolvent(At(after, k), Perishable(catalog, k.product));
  }

  /** With a lot of another product, a solvent tenant ends with a negative balance. */
  lemma {:induction false} ForeignLotOversells()
    ensures exists db: Db, catalog: Catalog, clock: Clock, jobs: seq<Job> ::
      && AllSolvent(db, catalog)
      && Transact(db, catalog, clock, jobs).Ok?
      && !AllSolvent(Transact(db, catalog, clock, jobs).value.db, catalog)
  {
    var milk, rice := Key(1, 1, 1), Key(1, 2, 1);
    var catalog := map[1 := true, 2 := true];
    var row := Movement(milk, 5, 5, ManualEntry, Some(LotId(milk, 0)), 0);
    var db := map[milk := Shelf([row], [Lot("L1", 0, 5)])];
    var clock: Clock := n => n + 1;
    var jobs := [Debit(rice, 5, Adjustment, Some(LotId(milk, 0)), None)];
    assert AllSolvent(db, catalog) by {
      forall k ensures ShelfSolvent(At(db, k), Perishable(catalog, k.product)) {
        assert Units([]) == 0 && LotUnits([]) == 0;
        assert [row][..1] == [row];
        assert Quantities([row]) == [5] && LotQuantities([Lot("L1", 0, 5)]) == [5];
        SumCons(5, []);
        assert [5] + [] == [5];
      }
    }
    ExplicitLotExact(db, catalog, clock, rice, 5, LotId(milk, 0));
    var after := Transact(db, catalog, clock, jobs).value.db;
    DebitBooksOneRow(db, catalog, clock, rice, LotId(milk, 0));
    assert !ShelfSolvent(At(after, rice), true);
  }

  lemma {:induction false} DebitBooksOneRow(db: Db, catalog: Catalog, clock: Clock, k: Key, id: LotId)
    requires At(db, k) == Shelf([], []) && k.product in catalog
    requires FindLot(db, id).Some? && FindLot(db, id).value.quantity >= 5
    ensures var r := Transact(db, catalog, clock, [Debit(k, 5, Adjustment, Some(id), None)]);
            r.Ok? && |At(r.value.db, k).rows| == 1 && At(r.value.db, k).rows[0].balanceAfter == -5
  {
    var v := View(db, 0, []);
    var job := Debit(k, 5, Adjustment, Some(id), None);
    var line := Line(Some(id), 5, false, true);
    assert [line][1..] == [] && [job][1..] == [];
    assert DoLines(v, clock, job, [line]) == DoLines(DebitLine(v, clock, job, line), clock, job, []);
    assert DoJobs(v, catalog, clock, [job]) == DoJobs(DebitLine(v, clock, job, line), catalog, clock, []);
    PostAt(v, clock, k, -5, Adjustment, Some(id), k);
  }

  // ---- When a transfer out of a chosen lot keeps the tenant solvent ----

  lemma {:induction false} ChosenLotMoveResult(db: Db, catalog: Catalog, clock: Clock, job: Job)
    requires job.Move? && job.pick.Some? && job.key.product in catalog
    requires FindLot(db, job.pick.value).Some? && FindLot(db, job.pick.value).value.quantity >= job.quantity
    ensures Transact(db, catalog, clock, [job]) ==
            Ok(MoveLine(View(db, 0, []), clock, job, Line(job.pick, job.quantity, false, true)))
  {
    hide MoveLine, FindLot;
    var v, line := View(db, 0, []), Line(job.pick, job.quantity, false, true);
    assert [line][1..] == [] && [job][1..] == [];
    assert DoLines(v, clock, job, [line]) == DoLines(MoveLine(v, clock, job, line), clock, job, []);
    assert DoJobs(v, catalog, clock, [job]) == DoJobs(MoveLine(v, clock, job, line), catalog, clock, []);
  }

  function DrawnLots(lots: seq<Lot>, i: nat, quantity: int): seq<Lot>
  {
    if i < |lots| then lots[i := lots[i].(quantity := lots[i].quantity - quantity)] else lots
  }

  /** The shelf `h` after a transfer out of a lot that is not one of the origin's. */
  function MovedShelf(db: Db, clock: Clock, job: Job, h: Key): Shelf
    requires job.Move? && job.pick.Some?
  {
    var s, id := At(db, h), job.pick.value;
    var lots := if h == id.home then DrawnLots(s.lots, id.index, job.quantity) else s.lots;
    var origin := FindLot(db, id).GetOr(Lot("", 0, 0));
    if h == job.key then
      var row := Movement(h, -job.quantity, Balance(s.rows) - job.quantity, TransferOut, job.pick, clock(0));
      Shelf(s.rows + [row], lots)
    else if h == job.to then
      Shelf(s.rows + [Movement(h, job.quantity, Balance(s.rows) + job.quantity, TransferIn,
                               Some(TwinId(lots, h, origin)), clock(1))],
            DepositLots(lots, origin, job.quantity))
    else Shelf(s.rows, lots)
  }

  lemma {:induction false} DrawnAt(v: View, clock: Clock, job: Job, h: Key)
    requires job.Move? && job.pick.Some?
    ensures var v1 := Post(v, clock, job.key, -job.quantity, TransferOut, job.pick);
      At(Change(v1, AddToLot(job.pick.value, -job.quantity)).db, h) ==
        var s, id := At(v.db, h), job.pick.value;
        Shelf(if h != job.key then s.rows
              else s.rows + [Movement(h, -job.quantity, Balance(s.rows) - job.quantity, TransferOut, job.pick,
                                      clock(v.tick))],
              if h == id.home then DrawnLots(s.lots, id.index, job.quantity) else s.lots)
  {
    hide Post, At, Balance;
    var v1 := Post(v, clock, job.key, -job.quantity, TransferOut, job.pick);
    PostAt(v, clock, job.key, -job.quantity, TransferOut, job.pick, h);
    PutAt(v1.db, AddToLot(job.pick.value, -job.quantity), h);
  }

  lemma {:induction false} MoveForeignAt(db: Db, clock: Clock, job: Job, h: Key)
    requires job.Move? && job.to != job.key && job.pick.Some? && job.pick.value.home != job.key
    ensures At(MoveLine(View(db, 0, []), clock, job, Line(job.pick, job.quantity, false, true)).db, h) ==
            MovedShelf(db, clock, job, h)
  {
    hide Post, At, Balance, Deposit, MoveLine, FindTwin, DepositLots, DrawnLots;
    var v, line, id := View(db, 0, []), Line(job.pick, job.quantity, false, true), job.pick.value;
    var v1 := Post(v, clock, job.key, -job.quantity, TransferOut, job.pick);
    MoveLineIs(v, clock, job, line);
    PostTick(v, clock, job.key, -job.quantity, TransferOut, job.pick);
    var v2 := Change(v1, AddToLot(id, -job.quantity));
    DrawnAt(v, clock, job, h);
    DrawnAt(v, clock, job, job.to);
    PostAt(v, clock, job.key, -job.quantity, TransferOut, job.pick, id.home);
    var origin := FindLot(v1.db, id).GetOr(Lot("", 0, 0));
    DepositAt(v2, job.to, origin, job.quantity, h);
    DepositAt(v2, job.to, origin, job.quantity, job.to);
    var (v3, twin) := Deposit(v2, job.to, origin, job.quantity);
    PostAt(v3, clock, job.to, job.quantity, TransferIn, Some(twin), h);
  }

  /** The destination stays solvent exactly if its product may have lots. */
  lemma {:induction false} DestinationSolventIff(s: Shelf, perishable: bool, lots: seq<Lot>, origin: Lot, quantity: int,
      row: Movement)
    requires ShelfSolvent(s, perishable) && Chronological(s.rows + [row]) && quantity >= 1
    requires row.quantity == quantity && row.balanceAfter == Balance(s.rows) + quantity
    requires NoNegativeLot(s.lots) ==> NoNegativeLot(lots)
    requires LotUnits(lots) <= LotUnits(s.lots) && (s.lots == [] <==> lots == [])
    ensures ShelfSolvent(Shelf(s.rows + [row], DepositLots(lots, origin, quantity)), perishable) <==> perishable
  {
    hide RunningSums, Balance, Units, LotUnits;
    var out := DepositLots(lots, origin, quantity);
    LastRow(s.rows, row);
    match FindTwin(lots, origin.number) {
      case Some(i) => LotUnitsUpdate(lots, i, lots[i].(quantity := lots[i].quantity + quantity));
      case None => LotUnitsSnoc(lots, Lot(origin.number, origin.expiry, quantity));
    }
    if perishable { AddKeepsSolvent(s, perishable, out, LotUnits(out) - LotUnits(s.lots), row); }
  }

  /** A transfer out of an explicitly chosen lot that holds enough is always accepted. It keeps a solvent tenant
      solvent exactly when the product may have lots and, for a lot that is not the origin's, the lots of the
      origin and the request together fit the stock there. */
  lemma {:induction false} ChosenLotMoveSolventIff(db: Db, catalog: Catalog, clock: Clock, job: Job)
    requires job.Move? && job.pick.Some? && job.key.product in catalog && job.quantity >= 1
    requires job.to != job.key && job.to.product == job.key.product && job.to.tenant == job.key.tenant
    requires FindLot(db, job.pick.value).Some? && FindLot(db, job.pick.value).value.quantity >= job.quantity
    requires AllSolvent(db, catalog)
    ensures var r := Transact(db, catalog, clock, [job]);
            && r.Ok?
            && (Chronological(At(r.value.db, job.key).rows) && Chronological(At(r.value.db, job.to).rows) ==>
                  (AllSolvent(r.value.db, catalog) <==>
                     && Perishable(catalog, job.key.product)
                     && (job.pick.value.home == job.key ||
                         LotUnits(At(db, job.key).lots) + job.quantity <= CurrentStock(db, job.key))))
  {
    hide MoveLine, Chronological, ShelfSolvent, LotUnits, Balance, FindLot;
    var v, line, k := View(db, 0, []), Line(job.pick, job.quantity, false, true), job.key;
    ChosenLotMoveResult(db, catalog, clock, job);
    var after := MoveLine(v, clock, job, line).db;
    if Chronological(At(after, k).rows) && Chronological(At(after, job.to).rows) {
      if job.pick.value.home == k {
        OwnLotMoveSolvent(db, catalog, clock, job);
      } else {
        ForeignLotMoveSolventIff(db, catalog, clock, job, after);
      }
    }
  }

  lemma {:induction false} OwnLotMoveSolvent(db: Db, catalog: Catalog, clock: Clock, job: Job)
    requires job.Move? && job.pick.Some? && job.pick.value.home == job.key && job.quantity >= 1
    requires job.to != job.key && job.to.product == job.key.product && job.to.tenant == job.key.tenant
    requires FindLot(db, job.pick.value).Some? && FindLot(db, job.pick.value).value.quantity >= job.quantity
    requires AllSolvent(db, catalog)
    requires Chronological(At(MoveLine(View(db, 0, []), clock, job, Line(job.pick, job.quantity, false, true)).db,
                              job.key).rows)
    ensures Perishable(catalog, job.key.product)
    ensures AllSolvent(MoveLine(View(db, 0, []), clock, job, Line(job.pick, job.quantity, false, true)).db, catalog)
  {
    hide MoveLine, RunningSums, Units, LotUnits, Balance;
    var v, line, k := View(db, 0, []), Line(job.pick, job.quantity, false, true), job.key;
    MoveLineAt(v, clock, job, line, k);
    var s, row := At(db, k), At(MoveLine(v, clock, job, line).db, k).rows[|At(db, k).rows|];
    assert ShelfSolvent(s, Perishable(catalog, k.product));
    EarlierRows(s.rows, row);
    hide ShelfSolvent;
    DoLineKeepsSolvent(v, catalog, clock, job, line);
  }

  lemma {:induction false} ForeignLotMoveSolventIff(db: Db, catalog: Catalog, clock: Clock, job: Job, after: Db)
    requires job.Move? && job.pick.Some? && job.pick.value.home != job.key && job.quantity >= 1
    requires job.to != job.key && job.to.product == job.key.product
    requires FindLot(db, job.pick.value).Some? && FindLot(db, job.pick.value).value.quantity >= job.quantity
    requires after == MoveLine(View(db, 0, []), clock, job, Line(job.pick, job.quantity, false, true)).db
    requires AllSolvent(db, catalog)
    requires Chronological(At(after, job.key).rows) && Chronological(At(after, job.to).rows)
    ensures AllSolvent(after, catalog) <==>
            && Perishable(catalog, job.key.product)
            && LotUnits(At(db, job.key).lots) + job.quantity <= CurrentStock(db, job.key)
  {
    hide MoveLine, ShelfSolvent, Chronological, LotUnits, Balance, Perishable, DepositLots;
    var k, id, p := job.key, job.pick.value, Perishable(catalog, job.key.product);
    forall h ensures At(after, h) == MovedShelf(db, clock, job, h) { MoveForeignAt(db, clock, job, h); }
    assert forall h :: ShelfSolvent(At(db, h), Perishable(catalog, h.product));
    RowOnlySolventIff(At(db, k), p, At(after, k).rows[|At(db, k).rows|]);
    var s, drawn := At(db, job.to), DrawnLots(At(db, job.to).lots, id.index, job.quantity);
    var lots := if job.to == id.home then drawn else s.lots;
    if job.to == id.home { DrawnFromLots(s.lots, id.index, job.quantity); }
    DestinationSolventIff(s, p, lots, FindLot(db, id).value, job.quantity, At(after, job.to).rows[|s.rows|]);
    forall h | h != k && h != job.to ensures ShelfSolvent(At(after, h), Perishable(catalog, h.product)) {
      if h == id.home { DrawnSolvent(At(db, h), Perishable(catalog, h.product), id.index, job.quantity); }
    }
    assert AllSolvent(after, catalog) <==> ShelfSolvent(At(after, k), p) && ShelfSolvent(At(after, job.to), p);
  }

  lemma {:induction false} DrawnFromLots(lots: seq<Lot>, i: nat, quantity: int)
    requires i < |lots| && 0 <= quantity <= lots[i].quantity
    ensures LotUnits(DrawnLots(lots, i, quantity)) <= LotUnits(lots) && DrawnLots(lots, i, quantity) != []
    ensures NoNegativeLot(lots) ==> NoNegativeLot(DrawnLots(lots, i, quantity))
  {
    hide LotUnits;
    LotUnitsUpdate(lots, i, lots[i].(quantity := lots[i].quantity - quantity));
  }
}
