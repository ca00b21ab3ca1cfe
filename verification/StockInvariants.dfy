/**
 What every stock operation keeps: the cached balances are running sums, no lot and no balance is
 ever negative, and the lots of a pair never exceed its stock.
 */
module StockInvariants {
  import opened Prelude
  import opened Ledger
  import opened Fefo
  import opened Stock

  // ---- Sums over lots ----

  function LotQuantities(lots: seq<Lot>): seq<int>
  {
    seq(|lots|, i requires 0 <= i < |lots| => lots[i].quantity)
  }

  function LotUnits(lots: seq<Lot>): int { Sum(LotQuantities(lots)) }

  ghost predicate NoNegativeLot(lots: seq<Lot>) { forall i :: 0 <= i < |lots| ==> lots[i].quantity >= 0 }

  lemma {:induction false} LotUnitsSnoc(lots: seq<Lot>, lot: Lot)
    ensures LotUnits(lots + [lot]) == LotUnits(lots) + lot.quantity
  {
    assert LotQuantities(lots + [lot])[..|lots|] == LotQuantities(lots);
  }

  lemma {:induction false} SumUpdate(xs: seq<int>, i: nat, x: int)
    requires i < |xs|
    ensures Sum(xs[i := x]) == Sum(xs) - xs[i] + x
  {
    var n := |xs| - 1;
    if i < n {
      SumUpdate(xs[..n], i, x);
      assert xs[i := x][..n] == xs[..n][i := x];
    } else {
      assert xs[i := x][..n] == xs[..n];
    }
  }

  lemma {:induction false} LotUnitsUpdate(lots: seq<Lot>, i: nat, lot: Lot)
    requires i < |lots|
    ensures LotUnits(lots[i := lot]) == LotUnits(lots) - lots[i].quantity + lot.quantity
  {
    SumUpdate(LotQuantities(lots), i, lot.quantity);
    assert LotQuantities(lots[i := lot]) == LotQuantities(lots)[i := lot.quantity];
  }

  lemma {:induction false} SumBoundsElement(xs: seq<int>, i: nat)
    requires i < |xs| && forall j :: 0 <= j < |xs| ==> xs[j] >= 0
    ensures xs[i] <= Sum(xs)
  {
    var n := |xs| - 1;
    if i < n {
      SumBoundsElement(xs[..n], i);
    } else {
      SumNonNegative(xs[..n]);
    }
  }

  lemma {:induction false} SumNonNegative(xs: seq<int>)
    requires forall j :: 0 <= j < |xs| ==> xs[j] >= 0
    ensures Sum(xs) >= 0
  {
    if xs != [] { SumNonNegative(xs[..|xs| - 1]); }
  }

  // ---- The invariant of one shelf ----

  ghost predicate Solvent(s: Shelf, perishable: bool)
  {
    && NoNegativeLot(s.lots)
    && LotUnits(s.lots) <= Units(s.rows)
    && (forall i :: 0 <= i < |s.rows| ==> s.rows[i].balanceAfter >= 0)
    && (!perishable ==> s.lots == [])
  }

  /** As long as the timestamps of the pair follow the order of its rows. */
  ghost predicate ShelfRight(s: Shelf) { Chronological(s.rows) ==> RunningSums(s.rows) }

  ghost predicate ShelfSolvent(s: Shelf, perishable: bool)
  {
    Chronological(s.rows) ==> RunningSums(s.rows) && Solvent(s, perishable)
  }

  predicate Perishable(catalog: Catalog, product: int) { product in catalog && catalog[product] }

  ghost predicate LedgerRight(db: Db) { forall k :: ShelfRight(At(db, k)) }

  ghost predicate AllSolvent(db: Db, catalog: Catalog)
  {
    forall k :: ShelfSolvent(At(db, k), Perishable(catalog, k.product))
  }

  lemma {:induction false} EmptyTables(catalog: Catalog)
    ensures LedgerRight(map[]) && AllSolvent(map[], catalog)
  {
    assert LotUnits([]) == 0 && Units([]) == 0;
  }

  // ---- No operation breaks the ledger ----

  lemma {:induction false} PostKeepsShelf(s: Shelf, row: Movement)
    requires ShelfRight(s) && row.balanceAfter == Balance(s.rows) + row.quantity
    ensures ShelfRight(s.(rows := s.rows + [row]))
  {
    if Chronological(s.rows + [row]) {
      EarlierRows(s.rows, row);
      AppendKeepsSums(s.rows, row);
    }
  }

  lemma {:induction false} PutKeepsLedger(db: Db, w: Write)
    requires LedgerRight(db)
    requires w.InsertMovement? ==> w.row.balanceAfter == CurrentStock(db, w.row.key) + w.row.quantity
    ensures LedgerRight(Put(db, w))
  {
    if w.InsertMovement? { PostKeepsShelf(At(db, w.row.key), w.row); }
    forall h ensures ShelfRight(At(Put(db, w), h)) { assert ShelfRight(At(db, h)); }
  }

  lemma {:induction false} PostKeepsLedger(v: View, clock: Clock, k: Key, quantity: int, kind: Kind, lot: Option<LotId>)
    requires LedgerRight(v.db)
    ensures LedgerRight(Post(v, clock, k, quantity, kind, lot).db)
  {
    PutKeepsLedger(v.db,
        InsertMovement(Movement(k, quantity, CurrentStock(v.db, k) + quantity, kind, lot, clock(v.tick))));
  }

  lemma {:induction false} ChangeKeepsLedger(v: View, w: Write)
    requires LedgerRight(v.db) && !w.InsertMovement?
    ensures LedgerRight(Change(v, w).db)
  {
    PutKeepsLedger(v.db, w);
  }

  lemma {:induction false} DebitLineIs(v: View, clock: Clock, job: Job, line: Line)
    requires job.Debit?
    ensures var v1 := Post(v, clock, job.key, -line.quantity, job.kind, line.lot);
            DebitLine(v, clock, job, line).db ==
            if line.lot.Some? then Change(v1, AddToLot(line.lot.value, -line.quantity)).db else v1.db
  {
    hide Post, Put, At;
  }

  lemma {:induction false} MoveLineIs(v: View, clock: Clock, job: Job, line: Line)
    requires job.Move?
    ensures MoveLine(v, clock, job, line).db ==
            Receive(Post(v, clock, job.key, -line.quantity, TransferOut, line.lot), clock, job.to, line).db
  {
    hide Receive, Post;
  }

  lemma {:induction false} DebitLineKeepsLedger(v: View, clock: Clock, job: Job, line: Line)
    requires LedgerRight(v.db) && job.Debit?
    ensures LedgerRight(DebitLine(v, clock, job, line).db)
  {
    hide *;
    DebitLineIs(v, clock, job, line);
    PostKeepsLedger(v, clock, job.key, -line.quantity, job.kind, line.lot);
    if line.lot.Some? {
      ChangeKeepsLedger(Post(v, clock, job.key, -line.quantity, job.kind, line.lot),
        AddToLot(line.lot.value, -line.quantity));
    }
  }

  lemma {:induction false} MoveLineKeepsLedger(v: View, clock: Clock, job: Job, line: Line)
    requires LedgerRight(v.db) && job.Move?
    ensures LedgerRight(MoveLine(v, clock, job, line).db)
  {
    hide *;
    MoveLineIs(v, clock, job, line);
    PostKeepsLedger(v, clock, job.key, -line.quantity, TransferOut, line.lot);
    ReceiveKeepsLedger(Post(v, clock, job.key, -line.quantity, TransferOut, line.lot), clock, job.to, line);
  }

  lemma {:induction false} DepositKeepsLedger(v: View, to: Key, origin: Lot, quantity: int)
    requires LedgerRight(v.db)
    ensures LedgerRight(Deposit(v, to, origin, quantity).0.db)
  {
    match FindTwin(At(v.db, to).lots, origin.number)
    case Some(i) => ChangeKeepsLedger(v, AddToLot(LotId(to, i), quantity));
    case None => ChangeKeepsLedger(v, CreateLot(to, Lot(origin.number, origin.expiry, quantity)));
  }

  lemma {:induction false} ReceiveKeepsLedger(v: View, clock: Clock, to: Key, line: Line)
    requires LedgerRight(v.db)
    ensures LedgerRight(Receive(v, clock, to, line).db)
  {
    hide LedgerRight, Deposit, Post, Change, FindLot;
    match line.lot
    case None =>
      PostKeepsLedger(v, clock, to, line.quantity, TransferIn, None);
    case Some(id) =>
      var origin := FindLot(v.db, id).GetOr(Lot("", 0, 0));
      var v1 := Change(v, AddToLot(id, -line.quantity));
      var (v2, twin) := Deposit(v1, to, origin, line.quantity);
      ChangeKeepsLedger(v, AddToLot(id, -line.quantity));
      DepositKeepsLedger(v1, to, origin, line.quantity);
      PostKeepsLedger(v2, clock, to, line.quantity, TransferIn, Some(twin));
  }

  lemma {:induction false} DoLinesKeepsLedger(v: View, clock: Clock, job: Job, lines: seq<Line>)
    requires LedgerRight(v.db) && !job.Credit?
    ensures LedgerRight(DoLines(v, clock, job, lines).db)
    decreases |lines|
  {
    if lines != [] {
      if job.Debit? {
        DebitLineKeepsLedger(v, clock, job, lines[0]);
      } else {
        MoveLineKeepsLedger(v, clock, job, lines[0]);
      }
      DoLinesKeepsLedger(DoLine(v, clock, job, lines[0]), clock, job, lines[1..]);
    }
  }

  lemma {:induction false} DoJobKeepsLedger(v: View, catalog: Catalog, clock: Clock, job: Job)
    requires LedgerRight(v.db) && DoJob(v, catalog, clock, job).Ok?
    ensures LedgerRight(DoJob(v, catalog, clock, job).value.db)
  {
    if job.Credit? {
      match job.lot {
        case None => PostKeepsLedger(v, clock, job.key, job.quantity, job.kind, None);
        case Some((number, expiry)) =>
          var w := CreateLot(job.key, Lot(number, expiry, job.quantity));
          ChangeKeepsLedger(v, w);
          PostKeepsLedger(Change(v, w), clock, job.key, job.quantity, job.kind,
            Some(LotId(job.key, |At(v.db, job.key).lots|)));
      }
    } else {
      var lines := ResolveExitLines(v.db, catalog[job.key.product], job.key, job.quantity, job.pick).value;
      DoLinesKeepsLedger(v, clock, job, lines);
    }
  }

  /** No list of items, whatever they ask for, breaks the running sums. */
  lemma {:induction false} DoJobsKeepsLedger(v: View, catalog: Catalog, clock: Clock, jobs: seq<Job>)
    requires LedgerRight(v.db) && DoJobs(v, catalog, clock, jobs).Ok?
    ensures LedgerRight(DoJobs(v, catalog, clock, jobs).value.db)
    decreases |jobs|
  {
    if jobs != [] {
      DoJobKeepsLedger(v, catalog, clock, jobs[0]);
      DoJobsKeepsLedger(DoJob(v, catalog, clock, jobs[0]).value, catalog, clock, jobs[1..]);
    }
  }

  // ---- Solvency ----

  /** What the callers of the stock operations are asked to respect: a lot chosen by hand belongs to
      the pair it is used for, only perishable products have lots, a transfer joins two stores of
      one tenant, and quantities are whole units. */
  ghost predicate Disciplined(catalog: Catalog, job: Job)
  {
    match job
    case Credit(key, quantity, _, lot) =>
      quantity >= 0 && (lot.Some? ==> Perishable(catalog, key.product))
    case Debit(key, quantity, _, pick, _) =>
      quantity >= 1 && OwnLot(catalog, key, pick)
    case Move(key, to, quantity, pick) =>
      && quantity >= 1 && OwnLot(catalog, key, pick)
      && to != key && to.product == key.product && to.tenant == key.tenant
  }

  ghost predicate OwnLot(catalog: Catalog, k: Key, pick: Option<LotId>)
  {
    pick.Some? ==> pick.value.home == k && Perishable(catalog, k.product)
  }

  /** `line` takes from the pair `k` no more than its lot, or its stock if it has no lots, holds. */
  ghost predicate LineFits(s: Shelf, perishable: bool, k: Key, line: Line)
  {
    && line.quantity >= 0
    && match line.lot
       case Some(id) => id.home == k && id.index < |s.lots| && line.quantity <= s.lots[id.index].quantity
       case None => !perishable && line.quantity <= Balance(s.rows)
  }

  /** Several lines draw from different lots. */
  ghost predicate DistinctLots(lines: seq<Line>)
  {
    && (forall i, j :: 0 <= i < j < |lines| ==> lines[i].lot != lines[j].lot)
    && (|lines| > 1 ==> forall i :: 0 <= i < |lines| ==> lines[i].lot.Some?)
  }

  ghost predicate LinesFit(s: Shelf, perishable: bool, k: Key, lines: seq<Line>)
  {
    (forall i :: 0 <= i < |lines| ==> LineFits(s, perishable, k, lines[i])) && DistinctLots(lines)
  }

  lemma {:induction false} LaterDistinct(lines: seq<Line>, rest: seq<Line>)
    requires lines != [] && rest == lines[1..] && DistinctLots(lines)
    ensures DistinctLots(rest)
  {
    forall i, j | 0 <= i < j < |rest| ensures rest[i].lot != rest[j].lot {
      assert rest[i] == lines[i + 1] && rest[j] == lines[j + 1];
    }
  }

  function LineUnits(lines: seq<Line>): int
  {
    if lines == [] then 0 else lines[0].quantity + LineUnits(lines[1..])
  }

  lemma {:induction false} FefoLineUnits(k: Key, items: seq<Batch>)
    ensures LineUnits(FefoLines(k, items)) == Total(items)
  {
    if items != [] {
      FefoLineUnits(k, items[1..]);
      assert FefoLines(k, items)[1..] == FefoLines(k, items[1..]);
    }
  }

  /** resolveExitLines never returns lines for less or more than was asked. */
  lemma {:induction false} ResolvedLinesTotal(db: Db, perishable: bool, k: Key, quantity: int, pick: Option<LotId>)
    requires ResolveExitLines(db, perishable, k, quantity, pick).Ok?
    ensures LineUnits(ResolveExitLines(db, perishable, k, quantity, pick).value) == quantity
  {
    var lines := ResolveExitLines(db, perishable, k, quantity, pick).value;
    if pick.Some? || !perishable {
      assert lines[1..] == [];
    } else {
      var bs := Batches(At(db, k).lots);
      SuggestionExact(bs, quantity, 0);
      FefoLineUnits(k, Suggest(bs, quantity).value.items);
    }
  }

  /** A line of at least one unit takes from an existing lot, the chosen one or one of the pair, no more than
      that holds; or, without a lot, from the stock of a product that is not perishable. */
  ghost predicate LineBacked(db: Db, perishable: bool, k: Key, pick: Option<LotId>, line: Line)
  {
    && line.quantity >= 1
    && match line.lot
       case Some(id) =>
         && FindLot(db, id).Some? && line.quantity <= FindLot(db, id).value.quantity
         && (if pick.Some? then pick == line.lot else id.home == k)
       case None => pick.None? && !perishable && line.quantity <= CurrentStock(db, k)
  }

  ghost predicate LinesBacked(db: Db, perishable: bool, k: Key, pick: Option<LotId>, lines: seq<Line>)
  {
    (forall i :: 0 <= i < |lines| ==> LineBacked(db, perishable, k, pick, lines[i])) && DistinctLots(lines)
  }

  /** resolveExitLines never draws on what is not there, for every lot that may have been chosen. */
  lemma {:induction false} ResolvedLinesBacked(db: Db, perishable: bool, k: Key, quantity: int, pick: Option<LotId>)
    requires quantity >= 1 && ResolveExitLines(db, perishable, k, quantity, pick).Ok?
    ensures LinesBacked(db, perishable, k, pick, ResolveExitLines(db, perishable, k, quantity, pick).value)
  {
    var lines := ResolveExitLines(db, perishable, k, quantity, pick).value;
    if pick.None? && perishable {
      var bs := Batches(At(db, k).lots);
      var items := Suggest(bs, quantity).value.items;
      SuggestionExecutable(bs, quantity);
      forall i | 0 <= i < |lines| ensures LineBacked(db, perishable, k, pick, lines[i]) {
        assert items[i] in items;
        var b :| b in bs && DrawnFrom(items[i], b);
      }
    }
  }

  /** When the chosen lot is one of the pair, the lines fit the pair's own shelf. */
  lemma {:induction false} ResolvedLinesFit(db: Db, perishable: bool, k: Key, quantity: int, pick: Option<LotId>)
    requires quantity >= 1 && (pick.Some? ==> pick.value.home == k)
    requires ResolveExitLines(db, perishable, k, quantity, pick).Ok?
    ensures LinesFit(At(db, k), perishable, k, ResolveExitLines(db, perishable, k, quantity, pick).value)
  {
    hide ResolveExitLines, LinesFit, LinesBacked;
    ResolvedLinesBacked(db, perishable, k, quantity, pick);
    BackedFit(db, perishable, k, pick, ResolveExitLines(db, perishable, k, quantity, pick).value);
  }

  lemma {:induction false} BackedFit(db: Db, perishable: bool, k: Key, pick: Option<LotId>, lines: seq<Line>)
    requires (pick.Some? ==> pick.value.home == k) && LinesBacked(db, perishable, k, pick, lines)
    ensures LinesFit(At(db, k), perishable, k, lines)
  {
    hide DistinctLots;
    forall i | 0 <= i < |lines| ensures LineFits(At(db, k), perishable, k, lines[i]) {
      assert LineBacked(db, perishable, k, pick, lines[i]);
    }
  }

  /** How the rows of a shelf sit after one more row on a chronological shelf. */
  lemma {:induction false} LastRow(rows: seq<Movement>, row: Movement)
    requires ShelfRight(Shelf(rows, [])) && row.balanceAfter == Balance(rows) + row.quantity
    requires Chronological(rows + [row])
    ensures Chronological(rows) && RunningSums(rows) && RunningSums(rows + [row])
    ensures Balance(rows) == Units(rows) && Units(rows + [row]) == Units(rows) + row.quantity
  {
    EarlierRows(rows, row);
    AppendKeepsSums(rows, row);
    BalanceIsUnits(rows);
    UnitsSnoc(rows, row);
  }

  lemma {:induction false} RemoveKeepsSolvent(s: Shelf, perishable: bool, k: Key, line: Line, row: Movement)
    requires ShelfSolvent(s, perishable) && LineFits(s, perishable, k, line)
    requires row.quantity == -line.quantity && row.balanceAfter == Balance(s.rows) + row.quantity
    ensures var s1 := PutShelf(s, InsertMovement(row));
            ShelfSolvent(if line.lot.Some? then PutShelf(s1, AddToLot(line.lot.value, -line.quantity))
                         else s1, perishable)
  {
    hide Chronological, RunningSums, Balance, Units;
    if Chronological(s.rows + [row]) {
      LastRow(s.rows, row);
      if line.lot.Some? {
        var i := line.lot.value.index;
        var lot := s.lots[i];
        SumBoundsElement(LotQuantities(s.lots), i);
        LotUnitsUpdate(s.lots, i, lot.(quantity := lot.quantity - line.quantity));
      } else {
      }
    }
  }

  /** Adding units to the ledger and, if a lot is named, the same units to that lot. */
  lemma {:induction false} AddKeepsSolvent(s: Shelf, perishable: bool, lots: seq<Lot>, added: int, row: Movement)
    requires ShelfSolvent(s, perishable)
    requires row.quantity >= 0 && row.balanceAfter == Balance(s.rows) + row.quantity
    requires NoNegativeLot(s.lots) ==> NoNegativeLot(lots)
    requires LotUnits(lots) == LotUnits(s.lots) + added && added <= row.quantity
    requires !perishable && s.lots == [] ==> lots == []
    ensures ShelfSolvent(Shelf(s.rows + [row], lots), perishable)
  {
    if Chronological(s.rows + [row]) {
      LastRow(s.rows, row);
      if NoNegativeLot(s.lots) { SumNonNegative(LotQuantities(s.lots)); }
    }
  }

  // ---- One line of an exit or a transfer, shelf by shelf ----

  /** The shelf `k` after a line has left it. */
  function Taken(s: Shelf, k: Key, kind: Kind, line: Line, stamp: int): Shelf
  {
    var s1 := PutShelf(s,
        InsertMovement(Movement(k, -line.quantity, Balance(s.rows) - line.quantity, kind, line.lot, stamp)));
    if line.lot.Some? then PutShelf(s1, AddToLot(line.lot.value, -line.quantity)) else s1
  }

  function DepositLots(lots: seq<Lot>, origin: Lot, quantity: int): seq<Lot>
  {
    match FindTwin(lots, origin.number)
    case Some(i) => lots[i := lots[i].(quantity := lots[i].quantity + quantity)]
    case None => lots + [Lot(origin.number, origin.expiry, quantity)]
  }

  function TwinId(lots: seq<Lot>, k: Key, origin: Lot): LotId
  {
    LotId(k, FindTwin(lots, origin.number).GetOr(|lots|))
  }

  /** The shelf `k` after a line has been transferred to it. */
  function Given(s: Shelf, k: Key, origin: Lot, line: Line, stamp: int): Shelf
  {
    var twin := if line.lot.Some? then Some(TwinId(s.lots, k, origin)) else None;
    Shelf(s.rows + [Movement(k, line.quantity, Balance(s.rows) + line.quantity, TransferIn, twin, stamp)],
          if line.lot.Some? then DepositLots(s.lots, origin, line.quantity) else s.lots)
  }

  function OriginLot(s: Shelf, line: Line): Lot
  {
    if line.lot.Some? && line.lot.value.index < |s.lots| then s.lots[line.lot.value.index] else Lot("", 0, 0)
  }

  lemma {:induction false} DebitLineAt(v: View, clock: Clock, job: Job, line: Line, h: Key)
    requires job.Debit? && (line.lot.Some? ==> line.lot.value.home == job.key)
    ensures At(DebitLine(v, clock, job, line).db, h) ==
      if h == job.key then Taken(At(v.db, h), h, job.kind, line, clock(v.tick)) else At(v.db, h)
  {
  }

  lemma {:induction false} PostAt(v: View, clock: Clock, k: Key, quantity: int, kind: Kind, lot: Option<LotId>, h: Key)
    ensures At(Post(v, clock, k, quantity, kind, lot).db, h) ==
      if h != k then At(v.db, h)
      else PutShelf(At(v.db, h), InsertMovement(
        Movement(h, quantity, Balance(At(v.db, h).rows) + quantity, kind, lot, clock(v.tick))))
  {
  }

  lemma {:induction false} PostTick(v: View, clock: Clock, k: Key, quantity: int, kind: Kind, lot: Option<LotId>)
    ensures Post(v, clock, k, quantity, kind, lot).tick == v.tick + 1
  {
  }

  lemma {:induction false} PutAt(db: Db, w: Write, h: Key)
    ensures At(Put(db, w), h) == if h == Target(w) then PutShelf(At(db, h), w) else At(db, h)
  {
  }

  lemma {:induction false} DepositAt(v: View, to: Key, origin: Lot, quantity: int, h: Key)
    ensures var (v1, twin) := Deposit(v, to, origin, quantity);
            && v1.tick == v.tick && v1.items == v.items
            && twin == TwinId(At(v.db, to).lots, to, origin)
            && At(v1.db, h) ==
               if h != to then At(v.db, h)
               else Shelf(At(v.db, h).rows, DepositLots(At(v.db, h).lots, origin, quantity))
  {
  }

  lemma {:induction false} ReceiveLotAt(v: View, clock: Clock, to: Key, id: LotId, quantity: int, h: Key)
    requires id.home != to
    ensures var v1 := ReceiveLot(v, clock, to, id, quantity);
            var s, origin := At(v.db, h), FindLot(v.db, id).GetOr(Lot("", 0, 0));
            At(v1.db, h) ==
              if h == id.home then PutShelf(s, AddToLot(id, -quantity))
              else if h != to then s
              else Shelf(s.rows + [Movement(h, quantity, Balance(s.rows) + quantity, TransferIn,
                                            Some(TwinId(s.lots, h, origin)), clock(v.tick))],
                         DepositLots(s.lots, origin, quantity))
  {
    var origin := FindLot(v.db, id).GetOr(Lot("", 0, 0));
    var w := AddToLot(id, -quantity);
    var v1 := Change(v, w);
    PutAt(v.db, w, h);
    PutAt(v.db, w, to);
    DepositAt(v1, to, origin, quantity, h);
    var (v2, twin) := Deposit(v1, to, origin, quantity);
    PostAt(v2, clock, to, quantity, TransferIn, Some(twin), h);
  }

  lemma {:induction false} ReceiveAt(v: View, clock: Clock, from: Key, to: Key, line: Line, h: Key)
    requires to != from && (line.lot.Some? ==> line.lot.value.home == from)
    ensures At(Receive(v, clock, to, line).db, h) ==
      if h == from then
        if line.lot.Some? then PutShelf(At(v.db, h), AddToLot(line.lot.value, -line.quantity)) else At(v.db, h)
      else if h == to then Given(At(v.db, h), h, OriginLot(At(v.db, from), line), line, clock(v.tick))
      else At(v.db, h)
  {
    match line.lot
    case None =>
      PostAt(v, clock, to, line.quantity, TransferIn, None, h);
    case Some(id) =>
      ReceiveLotAt(v, clock, to, id, line.quantity, h);
      assert FindLot(v.db, id).GetOr(Lot("", 0, 0)) == OriginLot(At(v.db, from), line);
  }

  lemma {:induction false} MoveLineAt(v: View, clock: Clock, job: Job, line: Line, h: Key)
    requires job.Move? && job.to != job.key && (line.lot.Some? ==> line.lot.value.home == job.key)
    ensures At(MoveLine(v, clock, job, line).db, h) ==
      if h == job.key then Taken(At(v.db, h), h, TransferOut, line, clock(v.tick))
      else if h == job.to then Given(At(v.db, h), h, OriginLot(At(v.db, job.key), line), line, clock(v.tick + 1))
      else At(v.db, h)
  {
    hide Receive, Given, MoveLine, Post, At, Balance;
    var v1 := Post(v, clock, job.key, -line.quantity, TransferOut, line.lot);
    PostAt(v, clock, job.key, -line.quantity, TransferOut, line.lot, h);
    PostAt(v, clock, job.key, -line.quantity, TransferOut, line.lot, job.key);
    MoveLineIs(v, clock, job, line);
    PostTick(v, clock, job.key, -line.quantity, TransferOut, line.lot);
    assert OriginLot(At(v1.db, job.key), line) == OriginLot(At(v.db, job.key), line);
    ReceiveAt(v1, clock, job.key, job.to, line, h);
  }

  lemma {:induction false} GivenKeepsSolvent(s: Shelf, perishable: bool, k: Key, origin: Lot, line: Line, stamp: int)
    requires ShelfSolvent(s, perishable) && line.quantity >= 0 && (line.lot.Some? ==> perishable)
    ensures ShelfSolvent(Given(s, k, origin, line, stamp), perishable)
  {
    var out := Given(s, k, origin, line, stamp);
    if line.lot.Some? {
      match FindTwin(s.lots, origin.number) {
        case Some(i) => LotUnitsUpdate(s.lots, i, s.lots[i].(quantity := s.lots[i].quantity + line.quantity));
        case None => LotUnitsSnoc(s.lots, Lot(origin.number, origin.expiry, line.quantity));
      }
    }
    AddKeepsSolvent(s, perishable, out.lots, if line.lot.Some? then line.quantity else 0, out.rows[|s.rows|]);
  }

  lemma {:induction false} TakenKeepsSolvent(s: Shelf, perishable: bool, k: Key, kind: Kind, line: Line, stamp: int)
    requires ShelfSolvent(s, perishable) && LineFits(s, perishable, k, line)
    ensures ShelfSolvent(Taken(s, k, kind, line, stamp), perishable)
  {
    RemoveKeepsSolvent(s, perishable, k, line,
      Movement(k, -line.quantity, Balance(s.rows) - line.quantity, kind, line.lot, stamp));
  }

  lemma {:induction false} DoLineKeepsSolvent(v: View, catalog: Catalog, clock: Clock, job: Job, line: Line)
    requires AllSolvent(v.db, catalog) && !job.Credit? && Disciplined(catalog, job)
    requires LineFits(At(v.db, job.key), Perishable(catalog, job.key.product), job.key, line)
    requires line.lot.Some? ==> Perishable(catalog, job.key.product)
    ensures AllSolvent(DoLine(v, clock, job, line).db, catalog)
  {
    forall h ensures ShelfSolvent(At(DoLine(v, clock, job, line).db, h), Perishable(catalog, h.product)) {
      DoLineShelfSolvent(v, catalog, clock, job, line, h);
    }
  }

  lemma {:induction false} DoLineShelfSolvent(v: View, catalog: Catalog, clock: Clock, job: Job, line: Line, h: Key)
    requires AllSolvent(v.db, catalog) && !job.Credit? && Disciplined(catalog, job)
    requires LineFits(At(v.db, job.key), Perishable(catalog, job.key.product), job.key, line)
    requires line.lot.Some? ==> Perishable(catalog, job.key.product)
    ensures ShelfSolvent(At(DoLine(v, clock, job, line).db, h), Perishable(catalog, h.product))
  {
    var s, p := At(v.db, h), Perishable(catalog, h.product);
    assert ShelfSolvent(s, p);
    if job.Debit? {
      DebitLineAt(v, clock, job, line, h);
      if h == job.key { TakenKeepsSolvent(s, p, h, job.kind, line, clock(v.tick)); }
    } else {
      MoveLineAt(v, clock, job, line, h);
      if h == job.key {
        TakenKeepsSolvent(s, p, h, TransferOut, line, clock(v.tick));
      } else if h == job.to {
        GivenKeepsSolvent(s, p, h, OriginLot(At(v.db, job.key), line), line, clock(v.tick + 1));
      }
    }
  }

  /** A line leaves the lots that the other lines of the same exit take from as they were. */
  lemma {:induction false} TakenLeavesOthers(s: Shelf, perishable: bool, k: Key, kind: Kind, lines: seq<Line>,
      stamp: int)
    requires lines != [] && LinesFit(s, perishable, k, lines)
    ensures LinesFit(Taken(s, k, kind, lines[0], stamp), perishable, k, lines[1..])
  {
    var out := Taken(s, k, kind, lines[0], stamp);
    forall i | 0 <= i < |lines[1..]| ensures LineFits(out, perishable, k, lines[1..][i]) {
      assert LineFits(s, perishable, k, lines[i + 1]);
      assert lines[0].lot.Some? && lines[i + 1].lot.Some? && lines[0].lot != lines[i + 1].lot;
    }
    LaterDistinct(lines, lines[1..]);
  }

  lemma {:induction false} DoLinesKeepsSolvent(v: View, catalog: Catalog, clock: Clock, job: Job, lines: seq<Line>)
    requires AllSolvent(v.db, catalog) && !job.Credit? && Disciplined(catalog, job)
    requires LinesFit(At(v.db, job.key), Perishable(catalog, job.key.product), job.key, lines)
    requires forall i :: 0 <= i < |lines| && lines[i].lot.Some? ==> Perishable(catalog, job.key.product)
    ensures AllSolvent(DoLines(v, clock, job, lines).db, catalog)
    decreases |lines|
  {
    if lines != [] {
      var v1 := DoLine(v, clock, job, lines[0]);
      DoLineKeepsSolvent(v, catalog, clock, job, lines[0]);
      var kind := if job.Debit? then job.kind else TransferOut;
      if job.Debit? {
        DebitLineAt(v, clock, job, lines[0], job.key);
      } else {
        MoveLineAt(v, clock, job, lines[0], job.key);
      }
      TakenLeavesOthers(At(v.db, job.key), Perishable(catalog, job.key.product), job.key, kind, lines, clock(v.tick));
      DoLinesKeepsSolvent(v1, catalog, clock, job, lines[1..]);
    }
  }

  /** The shelf `k` after an entry. */
  function Credited(s: Shelf, job: Job, stamp: int): Shelf
    requires job.Credit?
  {
    var id := if job.lot.None? then None else Some(LotId(job.key, |s.lots|));
    Shelf(s.rows + [Movement(job.key, job.quantity, Balance(s.rows) + job.quantity, job.kind, id, stamp)],
          if job.lot.None? then s.lots else s.lots + [Lot(job.lot.value.0, job.lot.value.1, job.quantity)])
  }

  lemma {:induction false} CreditAt(v: View, clock: Clock, job: Job, h: Key)
    requires job.Credit?
    ensures At(CreditLot(v, clock, job).db, h) ==
      if h == job.key then Credited(At(v.db, h), job, clock(v.tick)) else At(v.db, h)
  {
  }

  lemma {:induction false} CreditedSolvent(s: Shelf, perishable: bool, job: Job, stamp: int)
    requires ShelfSolvent(s, perishable) && job.Credit? && job.quantity >= 0 && (job.lot.Some? ==> perishable)
    ensures ShelfSolvent(Credited(s, job, stamp), perishable)
  {
    var out := Credited(s, job, stamp);
    if job.lot.Some? {
      LotUnitsSnoc(s.lots, out.lots[|s.lots|]);
    }
    AddKeepsSolvent(s, perishable, out.lots, if job.lot.None? then 0 else job.quantity, out.rows[|s.rows|]);
  }

  lemma {:induction false} CreditKeepsSolvent(v: View, catalog: Catalog, clock: Clock, job: Job)
    requires AllSolvent(v.db, catalog) && job.Credit? && Disciplined(catalog, job)
    ensures AllSolvent(CreditLot(v, clock, job).db, catalog)
  {
    forall h ensures ShelfSolvent(At(CreditLot(v, clock, job).db, h), Perishable(catalog, h.product)) {
      assert ShelfSolvent(At(v.db, h), Perishable(catalog, h.product));
      CreditAt(v, clock, job, h);
      if h == job.key { CreditedSolvent(At(v.db, h), Perishable(catalog, h.product), job, clock(v.tick)); }
    }
  }

  lemma {:induction false} DoJobKeepsSolvent(v: View, catalog: Catalog, clock: Clock, job: Job)
    requires AllSolvent(v.db, catalog) && Disciplined(catalog, job)
    requires DoJob(v, catalog, clock, job).Ok?
    ensures AllSolvent(DoJob(v, catalog, clock, job).value.db, catalog)
  {
    if job.Credit? {
      CreditKeepsSolvent(v, catalog, clock, job);
    } else {
      var p := catalog[job.key.product];
      ResolvedLinesFit(v.db, p, job.key, job.quantity, job.pick);
      var lines := ResolveExitLines(v.db, p, job.key, job.quantity, job.pick).value;
      DoLinesKeepsSolvent(v, catalog, clock, job, lines);
    }
  }

  /** Solvency over any list of items that respects the discipline. */
  lemma {:induction false} DoJobsKeepsSolvent(v: View, catalog: Catalog, clock: Clock, jobs: seq<Job>)
    requires AllSolvent(v.db, catalog) && forall i :: 0 <= i < |jobs| ==> Disciplined(catalog, jobs[i])
    requires DoJobs(v, catalog, clock, jobs).Ok?
    ensures AllSolvent(DoJobs(v, catalog, clock, jobs).value.db, catalog)
    decreases |jobs|
  {
    if jobs != [] {
      DoJobKeepsSolvent(v, catalog, clock, jobs[0]);
      DoJobsKeepsSolvent(DoJob(v, catalog, clock, jobs[0]).value, catalog, clock, jobs[1..]);
    }
  }
}
