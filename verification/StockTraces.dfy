/**
 Lots and the movements that name them (services/app/src/modules/stock, services/app/src/modules/sales/sales.ts): no
 operation moves a unit in or out of a lot without a movement that says so, and a lot keeps the label it was given.
 */
module StockTraces {
  import opened Prelude
  import opened Ledger
  import opened Stock
  import opened StockInvariants
  import opened StockTransfers

  // ---- The movements account for every lot ----

  /** What the movements that name the lot add to it. */
  function Named(rows: seq<Movement>, id: LotId): int
  {
    if rows == [] then 0
    else Named(rows[..|rows| - 1], id) +
         if rows[|rows| - 1].lot == Some(id) then rows[|rows| - 1].quantity else 0
  }

  /** The same over the movements of several pairs: any pair's movement may name a lot. */
  function NamedOver(db: Db, ks: seq<Key>, id: LotId): int
  {
    if ks == [] then 0 else Named(At(db, ks[0]).rows, id) + NamedOver(db, ks[1..], id)
  }

  function LotQuantity(db: Db, id: LotId): int
  {
    if FindLot(db, id).Some? then FindLot(db, id).value.quantity else 0
  }

  /** The units of a lot that no movement of these pairs accounts for. */
  function Untraced(db: Db, ks: seq<Key>, id: LotId): int { LotQuantity(db, id) - NamedOver(db, ks, id) }

  ghost predicate DistinctPairs(ks: seq<Key>) { forall i, j :: 0 <= i < j < |ks| ==> ks[i] != ks[j] }

  /** What a write does to the units of the lot that are not accounted for. */
  function Effect(db: Db, w: Write, id: LotId): int
  {
    match w
    case InsertMovement(row) => if row.lot == Some(id) then -row.quantity else 0
    case CreateLot(home, lot) => if id == LotId(home, |At(db, home).lots|) then lot.quantity else 0
    case AddToLot(lot, delta) => if id == lot && FindLot(db, id).Some? then delta else 0
  }

  lemma {:induction false} NamedUnchanged(a: Db, b: Db, ks: seq<Key>, id: LotId)
    requires forall i :: 0 <= i < |ks| ==> At(a, ks[i]).rows == At(b, ks[i]).rows
    ensures NamedOver(a, ks, id) == NamedOver(b, ks, id)
  {
    hide At, Named;
    if ks != [] {
      assert At(a, ks[0]).rows == At(b, ks[0]).rows;
      forall i | 0 <= i < |ks[1..]| ensures At(a, ks[1..][i]).rows == At(b, ks[1..][i]).rows {
        assert At(a, ks[i + 1]).rows == At(b, ks[i + 1]).rows;
      }
      NamedUnchanged(a, b, ks[1..], id);
    }
  }

  lemma {:induction false} NamedRow(db: Db, row: Movement, ks: seq<Key>, id: LotId)
    requires DistinctPairs(ks) && row.key in ks
    ensures NamedOver(Put(db, InsertMovement(row)), ks, id) ==
            NamedOver(db, ks, id) + if row.lot == Some(id) then row.quantity else 0
  {
    var after := Put(db, InsertMovement(row));
    var rows := At(db, row.key).rows;
    assert At(after, row.key).rows == rows + [row] && (rows + [row])[..|rows|] == rows;
    if ks[0] == row.key {
      forall i | 0 <= i < |ks[1..]| ensures At(after, ks[1..][i]).rows == At(db, ks[1..][i]).rows {
        assert ks[0] != ks[i + 1];
      }
      NamedUnchanged(after, db, ks[1..], id);
    } else {
      forall i, j | 0 <= i < j < |ks[1..]| ensures ks[1..][i] != ks[1..][j] {
        assert ks[i + 1] != ks[j + 1];
      }
      NamedRow(db, row, ks[1..], id);
    }
  }

  lemma {:induction false} WriteTraced(db: Db, w: Write, ks: seq<Key>, id: LotId)
    requires DistinctPairs(ks) && (w.InsertMovement? ==> w.row.key in ks)
    ensures Untraced(Put(db, w), ks, id) == Untraced(db, ks, id) + Effect(db, w, id)
  {
    hide NamedOver;
    if w.InsertMovement? {
      NamedRow(db, w.row, ks, id);
    } else {
      NamedUnchanged(Put(db, w), db, ks, id);
    }
  }

  lemma {:induction false} PostTraced(v: View, clock: Clock, k: Key, quantity: int, kind: Kind, lot: Option<LotId>,
      ks: seq<Key>, id: LotId)
    requires DistinctPairs(ks) && k in ks
    ensures Untraced(Post(v, clock, k, quantity, kind, lot).db, ks, id) ==
            Untraced(v.db, ks, id) - if lot == Some(id) then quantity else 0
  {
    hide Untraced, Put, Balance;
    var row := Movement(k, quantity, CurrentStock(v.db, k) + quantity, kind, lot, clock(v.tick));
    WriteTraced(v.db, InsertMovement(row), ks, id);
  }

  lemma {:induction false} PostKeepsLots(v: View, clock: Clock, k: Key, quantity: int, kind: Kind, lot: Option<LotId>,
      h: Key)
    ensures At(Post(v, clock, k, quantity, kind, lot).db, h).lots == At(v.db, h).lots
  {
    hide Balance;
  }

  lemma {:induction false} CreditTraced(v: View, clock: Clock, job: Job, ks: seq<Key>, id: LotId)
    requires job.Credit? && DistinctPairs(ks) && job.key in ks
    ensures Untraced(CreditLot(v, clock, job).db, ks, id) == Untraced(v.db, ks, id)
  {
    hide Untraced, Put, At, Post;
    match job.lot
    case None => PostTraced(v, clock, job.key, job.quantity, job.kind, None, ks, id);
    case Some((number, expiry)) =>
      var w := CreateLot(job.key, Lot(number, expiry, job.quantity));
      WriteTraced(v.db, w, ks, id);
      PostTraced(Change(v, w), clock, job.key, job.quantity, job.kind,
                 Some(LotId(job.key, |At(v.db, job.key).lots|)), ks, id);
  }

  lemma {:induction false} DebitLineTraced(v: View, clock: Clock, job: Job, line: Line, ks: seq<Key>, id: LotId)
    requires job.Debit? && DistinctPairs(ks) && job.key in ks
    requires line.lot.Some? ==> FindLot(v.db, line.lot.value).Some?
    ensures Untraced(DebitLine(v, clock, job, line).db, ks, id) == Untraced(v.db, ks, id)
  {
    hide Untraced, Put, Post;
    var v1 := Post(v, clock, job.key, -line.quantity, job.kind, line.lot);
    DebitLineIs(v, clock, job, line);
    PostTraced(v, clock, job.key, -line.quantity, job.kind, line.lot, ks, id);
    if line.lot.Some? {
      PostKeepsLots(v, clock, job.key, -line.quantity, job.kind, line.lot, line.lot.value.home);
      WriteTraced(v1.db, AddToLot(line.lot.value, -line.quantity), ks, id);
    }
  }

  lemma {:induction false} DepositTraced(v: View, to: Key, origin: Lot, quantity: int, ks: seq<Key>, id: LotId)
    requires DistinctPairs(ks)
    ensures var (v1, twin) := Deposit(v, to, origin, quantity);
            Untraced(v1.db, ks, id) == Untraced(v.db, ks, id) + if twin == id then quantity else 0
  {
    hide Untraced, Put, FindTwin;
    var lots := At(v.db, to).lots;
    match FindTwin(lots, origin.number)
    case Some(i) => WriteTraced(v.db, AddToLot(LotId(to, i), quantity), ks, id);
    case None => WriteTraced(v.db, CreateLot(to, Lot(origin.number, origin.expiry, quantity)), ks, id);
  }

  lemma {:induction false} ReceiveLotTraced(v: View, clock: Clock, to: Key, lot: LotId, quantity: int, ks: seq<Key>,
      id: LotId)
    requires DistinctPairs(ks) && to in ks && FindLot(v.db, lot).Some?
    ensures Untraced(ReceiveLot(v, clock, to, lot, quantity).db, ks, id) ==
            Untraced(v.db, ks, id) - if id == lot then quantity else 0
  {
    hide Untraced, Put, Post, Deposit;
    var origin := FindLot(v.db, lot).GetOr(Lot("", 0, 0));
    var v1 := Change(v, AddToLot(lot, -quantity));
    WriteTraced(v.db, AddToLot(lot, -quantity), ks, id);
    DepositTraced(v1, to, origin, quantity, ks, id);
    var (v2, twin) := Deposit(v1, to, origin, quantity);
    PostTraced(v2, clock, to, quantity, TransferIn, Some(twin), ks, id);
  }

  lemma {:induction false} MoveLineTraced(v: View, clock: Clock, job: Job, line: Line, ks: seq<Key>, id: LotId)
    requires job.Move? && DistinctPairs(ks) && job.key in ks && job.to in ks
    requires line.lot.Some? ==> FindLot(v.db, line.lot.value).Some?
    ensures Untraced(MoveLine(v, clock, job, line).db, ks, id) == Untraced(v.db, ks, id)
  {
    hide Untraced, Put, Post, ReceiveLot;
    var v1 := Post(v, clock, job.key, -line.quantity, TransferOut, line.lot);
    MoveLineIs(v, clock, job, line);
    PostTraced(v, clock, job.key, -line.quantity, TransferOut, line.lot, ks, id);
    match line.lot
    case None => PostTraced(v1, clock, job.to, line.quantity, TransferIn, None, ks, id);
    case Some(lot) =>
      PostKeepsLots(v, clock, job.key, -line.quantity, TransferOut, line.lot, lot.home);
      ReceiveLotTraced(v1, clock, job.to, lot, line.quantity, ks, id);
  }

  // ---- Labels ----

  predicate SameLabel(a: Lot, b: Lot) { a.number == b.number && a.expiry == b.expiry }

  /** A lot with this number and expiry exists. */
  ghost predicate Labelled(db: Db, lot: Lot)
  {
    exists id :: FindLot(db, id).Some? && SameLabel(FindLot(db, id).value, lot)
  }

  /** Every lot of `b` either was there or has the number and expiry of one that was. */
  ghost predicate NoNewLabels(a: Db, b: Db)
  {
    forall id :: FindLot(b, id).Some? ==> Labelled(a, FindLot(b, id).value)
  }

  lemma {:induction false} NoNewLabelsTrans(a: Db, b: Db, c: Db)
    requires NoNewLabels(a, b) && NoNewLabels(b, c)
    ensures NoNewLabels(a, c)
  {
    hide FindLot;
    forall id | FindLot(c, id).Some? ensures Labelled(a, FindLot(c, id).value) {
      assert Labelled(b, FindLot(c, id).value);
      var mid :| FindLot(b, mid).Some? && SameLabel(FindLot(b, mid).value, FindLot(c, id).value);
      assert Labelled(a, FindLot(b, mid).value);
    }
  }

  lemma {:induction false} WriteLabels(db: Db, w: Write, from: LotId)
    requires w.CreateLot? ==> FindLot(db, from).Some? && SameLabel(FindLot(db, from).value, w.lot)
    ensures NoNewLabels(db, Put(db, w))
  {
    forall id | FindLot(Put(db, w), id).Some? ensures Labelled(db, FindLot(Put(db, w), id).value) {
      if FindLot(db, id).Some? {
        assert SameLabel(FindLot(db, id).value, FindLot(Put(db, w), id).value);
      } else {
        assert SameLabel(FindLot(db, from).value, FindLot(Put(db, w), id).value);
      }
    }
  }

  lemma {:induction false} PostLabels(v: View, clock: Clock, k: Key, quantity: int, kind: Kind, lot: Option<LotId>)
    ensures NoNewLabels(v.db, Post(v, clock, k, quantity, kind, lot).db)
    ensures LotsKept(v.db, Post(v, clock, k, quantity, kind, lot).db)
  {
    hide NoNewLabels, Put, Balance, LotsKept;
    var row := Movement(k, quantity, CurrentStock(v.db, k) + quantity, kind, lot, clock(v.tick));
    WriteLabels(v.db, InsertMovement(row), LotId(k, 0));
    PutKeepsLots(v.db, InsertMovement(row));
  }

  lemma {:induction false} DepositLabels(v: View, to: Key, origin: Lot, quantity: int, from: LotId)
    requires FindLot(v.db, from).Some? && SameLabel(FindLot(v.db, from).value, origin)
    ensures var v1 := Deposit(v, to, origin, quantity).0;
            NoNewLabels(v.db, v1.db) && LotsKept(v.db, v1.db)
  {
    hide NoNewLabels, Put, FindTwin, FindLot, LotsKept;
    match FindTwin(At(v.db, to).lots, origin.number)
    case Some(i) =>
      WriteLabels(v.db, AddToLot(LotId(to, i), quantity), from);
      PutKeepsLots(v.db, AddToLot(LotId(to, i), quantity));
    case None =>
      WriteLabels(v.db, CreateLot(to, Lot(origin.number, origin.expiry, quantity)), from);
      PutKeepsLots(v.db, CreateLot(to, Lot(origin.number, origin.expiry, quantity)));
  }

  lemma {:induction false} LineLabels(v: View, clock: Clock, job: Job, line: Line)
    requires !job.Credit? && (line.lot.Some? ==> FindLot(v.db, line.lot.value).Some?)
    ensures NoNewLabels(v.db, DoLine(v, clock, job, line).db) && LotsKept(v.db, DoLine(v, clock, job, line).db)
  {
    hide NoNewLabels, Put, Post, Deposit, LotsKept;
    var kind := if job.Debit? then job.kind else TransferOut;
    var v1 := Post(v, clock, job.key, -line.quantity, kind, line.lot);
    PostLabels(v, clock, job.key, -line.quantity, kind, line.lot);
    if line.lot.Some? {
      var w := AddToLot(line.lot.value, -line.quantity);
      var v2 := Change(v1, w);
      WriteLabels(v1.db, w, line.lot.value);
      PutKeepsLots(v1.db, w);
      Chain(v.db, v1.db, v2.db);
      if job.Move? {
        var origin := FindLot(v1.db, line.lot.value).GetOr(Lot("", 0, 0));
        assert FindLot(v1.db, line.lot.value).Some? by { KeptThere(v.db, v1.db, line.lot.value); }
        KeptThere(v1.db, v2.db, line.lot.value);
        var (v3, twin) := Deposit(v2, job.to, origin, line.quantity);
        DepositLabels(v2, job.to, origin, line.quantity, line.lot.value);
        Chain(v.db, v2.db, v3.db);
        PostLabels(v3, clock, job.to, line.quantity, TransferIn, Some(twin));
        Chain(v.db, v3.db, Post(v3, clock, job.to, line.quantity, TransferIn, Some(twin)).db);
      }
    } else if job.Move? {
      PostLabels(v1, clock, job.to, line.quantity, TransferIn, None);
      Chain(v.db, v1.db, Post(v1, clock, job.to, line.quantity, TransferIn, None).db);
    }
  }

  lemma {:induction false} KeptThere(a: Db, b: Db, id: LotId)
    requires LotsKept(a, b) && FindLot(a, id).Some?
    ensures FindLot(b, id).Some? && SameLabel(FindLot(b, id).value, FindLot(a, id).value)
  {
    hide FindLot;
  }

  lemma {:induction false} Chain(a: Db, b: Db, c: Db)
    requires NoNewLabels(a, b) && LotsKept(a, b) && NoNewLabels(b, c) && LotsKept(b, c)
    ensures NoNewLabels(a, c) && LotsKept(a, c)
  {
    hide NoNewLabels, LotsKept;
    NoNewLabelsTrans(a, b, c);
    LotsKeptTrans(a, b, c);
  }

  // ---- Over a whole operation ----

  lemma {:induction false} LinesTraced(v: View, clock: Clock, job: Job, lines: seq<Line>, ks: seq<Key>, id: LotId)
    requires !job.Credit? && DistinctPairs(ks) && job.key in ks && (job.Move? ==> job.to in ks)
    requires LotsThere(v.db, lines)
    ensures Untraced(DoLines(v, clock, job, lines).db, ks, id) == Untraced(v.db, ks, id)
    ensures NoNewLabels(v.db, DoLines(v, clock, job, lines).db) && LotsKept(v.db, DoLines(v, clock, job, lines).db)
    decreases |lines|
  {
    hide Untraced, NoNewLabels, LotsKept, FindLot, DebitLine, MoveLine, LotsThere;
    if lines == [] {
      SameTables(v.db);
    } else {
      var v1 := DoLine(v, clock, job, lines[0]);
      FirstThere(v.db, lines);
      LineLabels(v, clock, job, lines[0]);
      if job.Debit? {
        DebitLineTraced(v, clock, job, lines[0], ks, id);
      } else {
        MoveLineTraced(v, clock, job, lines[0], ks, id);
      }
      RestThere(v.db, v1.db, lines);
      LinesTraced(v1, clock, job, lines[1..], ks, id);
      Chain(v.db, v1.db, DoLines(v, clock, job, lines).db);
    }
  }

  lemma {:induction false} SameTables(db: Db)
    ensures NoNewLabels(db, db) && LotsKept(db, db)
  {
    hide FindLot;
    forall id | FindLot(db, id).Some? ensures Labelled(db, FindLot(db, id).value) {
      assert SameLabel(FindLot(db, id).value, FindLot(db, id).value);
    }
  }

  lemma {:induction false} FirstThere(db: Db, lines: seq<Line>)
    requires lines != [] && LotsThere(db, lines)
    ensures lines[0].lot.Some? ==> FindLot(db, lines[0].lot.value).Some?
  {
  }

  lemma {:induction false} RestThere(a: Db, b: Db, lines: seq<Line>)
    requires lines != [] && LotsThere(a, lines) && LotsKept(a, b)
    ensures LotsThere(b, lines[1..])
  {
    hide FindLot;
  }

  ghost predicate Uses(job: Job, ks: seq<Key>) { job.key in ks && (job.Move? ==> job.to in ks) }

  lemma {:induction false} JobTraced(v: View, catalog: Catalog, clock: Clock, job: Job, ks: seq<Key>, id: LotId)
    requires DistinctPairs(ks) && Uses(job, ks) && (!job.Credit? ==> job.quantity >= 1)
    requires DoJob(v, catalog, clock, job).Ok?
    ensures Untraced(DoJob(v, catalog, clock, job).value.db, ks, id) == Untraced(v.db, ks, id)
  {
    hide Untraced, DoLines, CreditLot, ResolveExitLines;
    if job.Credit? {
      CreditTraced(v, clock, job, ks, id);
    } else {
      var p := catalog[job.key.product];
      ResolvedLotsThere(v.db, p, job.key, job.quantity, job.pick);
      LinesTraced(v, clock, job, ResolveExitLines(v.db, p, job.key, job.quantity, job.pick).value, ks, id);
    }
  }

  /**
   * No accepted operation, whatever lots it chose, moves units in or out of any lot without movements that name the
   * lot and say how many: what no movement accounts for stays the same. From empty tables on nothing is left
   * unaccounted for, so each lot holds what the movements that name it add up to.
   */
  lemma {:induction false} LotsTraced(v: View, catalog: Catalog, clock: Clock, jobs: seq<Job>, ks: seq<Key>, id: LotId)
    requires DistinctPairs(ks) && DoJobs(v, catalog, clock, jobs).Ok?
    requires forall i :: 0 <= i < |jobs| ==> Uses(jobs[i], ks) && (!jobs[i].Credit? ==> jobs[i].quantity >= 1)
    ensures var after := DoJobs(v, catalog, clock, jobs).value.db;
            && LotQuantity(after, id) - NamedOver(after, ks, id) == LotQuantity(v.db, id) - NamedOver(v.db, ks, id)
            && (v.db == map[] ==> LotQuantity(after, id) == NamedOver(after, ks, id))
    decreases |jobs|
  {
    hide LotQuantity, NamedOver, DoJob;
    if jobs != [] {
      JobTraced(v, catalog, clock, jobs[0], ks, id);
      LotsTraced(DoJob(v, catalog, clock, jobs[0]).value, catalog, clock, jobs[1..], ks, id);
    }
    if v.db == map[] { NothingNamed(ks, id); }
  }

  lemma {:induction false} NothingNamed(ks: seq<Key>, id: LotId)
    ensures NamedOver(map[], ks, id) == 0 && LotQuantity(map[], id) == 0
  {
    if ks != [] { NothingNamed(ks[1..], id); }
  }

  /** Exits, sales and transfers keep every lot's number and expiry, and a transfer gives a lot that it opens those
      of a lot there was. */
  lemma {:induction false} LabelsStay(v: View, catalog: Catalog, clock: Clock, jobs: seq<Job>)
    requires DoJobs(v, catalog, clock, jobs).Ok?
    requires forall i :: 0 <= i < |jobs| ==> !jobs[i].Credit? && jobs[i].quantity >= 1
    ensures var after := DoJobs(v, catalog, clock, jobs).value.db;
            LotsKept(v.db, after) && NoNewLabels(v.db, after)
    decreases |jobs|
  {
    hide LotsKept, NoNewLabels, DoLines, ResolveExitLines;
    if jobs == [] {
      SameTables(v.db);
    } else {
      var job := jobs[0];
      var p := catalog[job.key.product];
      var lines := ResolveExitLines(v.db, p, job.key, job.quantity, job.pick).value;
      var v1 := DoJob(v, catalog, clock, job).value;
      ResolvedLotsThere(v.db, p, job.key, job.quantity, job.pick);
      LinesTraced(v, clock, job, lines, if job.Move? && job.to != job.key then [job.key, job.to] else [job.key],
                  LotId(job.key, 0));
      LabelsStay(v1, catalog, clock, jobs[1..]);
      Chain(v.db, v1.db, DoJobs(v, catalog, clock, jobs).value.db);
    }
  }

  // ---- Each movement tells its operation ----

  /** The movement is one that this item of an operation makes in the pair `h`. */
  ghost predicate Explains(job: Job, row: Movement, h: Key)
  {
    row.key == h &&
    match job
    case Credit(key, quantity, kind, lot) =>
      && h == key && row.kind == kind && row.quantity == quantity
      && (row.lot.Some? <==> lot.Some?) && (row.lot.Some? ==> row.lot.value.home == h)
    case Debit(key, quantity, kind, pick, _) =>
      h == key && row.kind == kind && Takes(row, quantity, pick, h)
    case Move(key, to, quantity, pick) =>
      || (h == key && row.kind == TransferOut && Takes(row, quantity, pick, h))
      || (h == to && row.kind == TransferIn && 1 <= row.quantity <= quantity &&
          (row.lot.Some? ==> row.lot.value.home == h) && (pick.Some? ==> row.lot.Some?))
  }

  /** It takes some of the quantity, out of the chosen lot if there is one and out of the pair's own otherwise. */
  ghost predicate Takes(row: Movement, quantity: int, pick: Option<LotId>, h: Key)
  {
    1 <= -row.quantity <= quantity &&
    if pick.Some? then row.lot == pick && row.quantity == -quantity else row.lot.Some? ==> row.lot.value.home == h
  }

  /** Rows are added behind those there were, each explained by one of the items. */
  ghost predicate Explained(a: seq<Movement>, b: seq<Movement>, jobs: seq<Job>, h: Key)
  {
    && |a| <= |b| && b[..|a|] == a
    && forall i :: |a| <= i < |b| ==> ExplainedBy(jobs, b[i], h)
  }

  ghost predicate ExplainedBy(jobs: seq<Job>, row: Movement, h: Key)
  {
    exists j :: 0 <= j < |jobs| && Explains(jobs[j], row, h)
  }

  lemma {:induction false} ExplainedThen(a: seq<Movement>, b: seq<Movement>, c: seq<Movement>, some: seq<Job>,
      rest: seq<Job>, jobs: seq<Job>, h: Key)
    requires Explained(a, b, some, h) && Explained(b, c, rest, h)
    requires forall job :: job in some || job in rest ==> job in jobs
    ensures Explained(a, c, jobs, h)
  {
    hide Explains;
    assert c[..|a|] == c[..|b|][..|a|];
    forall i | |a| <= i < |c| ensures ExplainedBy(jobs, c[i], h) {
      var from := if i < |b| then some else rest;
      assert i < |b| ==> c[i] == c[..|b|][i] == b[i];
      assert ExplainedBy(from, c[i], h);
      var j :| 0 <= j < |from| && Explains(from[j], c[i], h);
      assert from[j] in jobs;
    }
  }

  lemma {:induction false} OneExplained(rows: seq<Movement>, row: Movement, job: Job, h: Key)
    requires Explains(job, row, h)
    ensures Explained(rows, rows + [row], [job], h)
  {
    hide Explains;
    assert [job][0] == job && ExplainedBy([job], row, h);
  }

  /** A line that takes at most what the item asks, out of the chosen lot or the pair's own. */
  ghost predicate LineOf(job: Job, line: Line)
    requires !job.Credit?
  {
    1 <= line.quantity <= job.quantity &&
    if job.pick.Some? then line.lot == job.pick && line.quantity == job.quantity
    else line.lot.Some? ==> line.lot.value.home == job.key
  }

  lemma {:induction false} LineExplained(v: View, clock: Clock, job: Job, line: Line, h: Key)
    requires !job.Credit? && LineOf(job, line)
    ensures Explained(At(v.db, h).rows, At(DoLine(v, clock, job, line).db, h).rows, [job], h)
  {
    hide Explained, Explains, Balance, Post, Put, Deposit, DepositLots, FindLot;
    var kind := if job.Debit? then job.kind else TransferOut;
    var v1 := Post(v, clock, job.key, -line.quantity, kind, line.lot);
    var out := Movement(job.key, -line.quantity, CurrentStock(v.db, job.key) - line.quantity, kind, line.lot,
                        clock(v.tick));
    PostAt(v, clock, job.key, -line.quantity, kind, line.lot, h);
    if job.Debit? {
      DebitLineIs(v, clock, job, line);
      if line.lot.Some? { PutAt(v1.db, AddToLot(line.lot.value, -line.quantity), h); }
      assert At(DoLine(v, clock, job, line).db, h).rows == At(v1.db, h).rows;
    } else {
      MoveLineIs(v, clock, job, line);
      ReceiveRows(v1, clock, job.to, line, h);
    }
    var mid, last := At(v1.db, h).rows, At(DoLine(v, clock, job, line).db, h).rows;
    if h == job.key {
      assert Explains(job, out, h) by { OutExplained(job, line, out); }
      OneExplained(At(v.db, h).rows, out, job, h);
    } else {
      NoneExplained(mid, job, h);
    }
    if job.Move? && h == job.to {
      var row := last[|mid|];
      assert Explains(job, row, h) by { InExplained(job, line, row); }
      OneExplained(mid, row, job, h);
    } else {
      NoneExplained(mid, job, h);
    }
    ExplainedThen(At(v.db, h).rows, mid, last, [job], [job], [job], h);
  }

  lemma {:induction false} NoneExplained(rows: seq<Movement>, job: Job, h: Key)
    ensures Explained(rows, rows, [job], h)
  {
  }

  lemma {:induction false} OutExplained(job: Job, line: Line, row: Movement)
    requires !job.Credit? && LineOf(job, line)
    requires row.key == job.key && row.quantity == -line.quantity && row.lot == line.lot
    requires row.kind == if job.Debit? then job.kind else TransferOut
    ensures Explains(job, row, job.key)
  {
  }

  lemma {:induction false} InExplained(job: Job, line: Line, row: Movement)
    requires job.Move? && LineOf(job, line)
    requires row.key == job.to && row.quantity == line.quantity && row.kind == TransferIn
    requires (row.lot.Some? <==> line.lot.Some?) && (row.lot.Some? ==> row.lot.value.home == job.to)
    ensures Explains(job, row, job.to)
  {
  }

  lemma {:induction false} ReceiveRows(v: View, clock: Clock, to: Key, line: Line, h: Key)
    ensures var before, after := At(v.db, h).rows, At(Receive(v, clock, to, line).db, h).rows;
      if h != to then after == before
      else
        && |after| == |before| + 1 && after == before + [after[|before|]]
        && var row := after[|before|];
           && row.key == to && row.quantity == line.quantity && row.kind == TransferIn
           && (row.lot.Some? <==> line.lot.Some?) && (row.lot.Some? ==> row.lot.value.home == to)
  {
    hide Balance, Post, Put, Deposit, FindLot;
    match line.lot
    case None => PostAt(v, clock, to, line.quantity, TransferIn, None, h);
    case Some(id) =>
      var origin := FindLot(v.db, id).GetOr(Lot("", 0, 0));
      var v1 := Change(v, AddToLot(id, -line.quantity));
      var (v2, twin) := Deposit(v1, to, origin, line.quantity);
      PutAt(v.db, AddToLot(id, -line.quantity), h);
      DepositAt(v1, to, origin, line.quantity, h);
      PostAt(v2, clock, to, line.quantity, TransferIn, Some(twin), h);
  }

  ghost predicate AllLinesOf(job: Job, lines: seq<Line>)
    requires !job.Credit?
  {
    forall i :: 0 <= i < |lines| ==> LineOf(job, lines[i])
  }

  lemma {:induction false} LinesExplained(v: View, clock: Clock, job: Job, lines: seq<Line>, h: Key)
    requires !job.Credit? && AllLinesOf(job, lines)
    ensures Explained(At(v.db, h).rows, At(DoLines(v, clock, job, lines).db, h).rows, [job], h)
    decreases |lines|
  {
    hide Explained, LineOf, DoLine, At;
    if lines == [] {
      NoneExplained(At(v.db, h).rows, job, h);
    } else {
      var v1 := DoLine(v, clock, job, lines[0]);
      LineExplained(v, clock, job, lines[0], h);
      assert AllLinesOf(job, lines[1..]);
      LinesExplained(v1, clock, job, lines[1..], h);
      ExplainedThen(At(v.db, h).rows, At(v1.db, h).rows, At(DoLines(v, clock, job, lines).db, h).rows, [job], [job],
                    [job], h);
    }
  }

  lemma {:induction false} LinesWithin(lines: seq<Line>, i: nat)
    requires i < |lines| && forall j :: 0 <= j < |lines| ==> lines[j].quantity >= 1
    ensures lines[i].quantity <= LineUnits(lines)
  {
    if i > 0 {
      LinesWithin(lines[1..], i - 1);
    } else {
      LinesPositive(lines[1..]);
    }
  }

  lemma {:induction false} LinesPositive(lines: seq<Line>)
    requires forall j :: 0 <= j < |lines| ==> lines[j].quantity >= 1
    ensures LineUnits(lines) >= 0
  {
    if lines != [] { LinesPositive(lines[1..]); }
  }

  lemma {:induction false} ResolvedLinesOf(db: Db, perishable: bool, job: Job)
    requires !job.Credit? && job.quantity >= 1
    requires ResolveExitLines(db, perishable, job.key, job.quantity, job.pick).Ok?
    ensures AllLinesOf(job, ResolveExitLines(db, perishable, job.key, job.quantity, job.pick).value)
  {
    hide FindLot, Balance;
    var lines := ResolveExitLines(db, perishable, job.key, job.quantity, job.pick).value;
    ResolvedLinesBacked(db, perishable, job.key, job.quantity, job.pick);
    ResolvedLinesTotal(db, perishable, job.key, job.quantity, job.pick);
    forall i | 0 <= i < |lines| ensures LineOf(job, lines[i]) {
      assert forall j :: 0 <= j < |lines| ==> LineBacked(db, perishable, job.key, job.pick, lines[j]);
      LinesWithin(lines, i);
    }
  }

  /** Every accepted operation only adds movements, and each of them has the pair, the kind, the sign and the lot of
      one of its items. */
  lemma {:induction false} RowsExplained(v: View, catalog: Catalog, clock: Clock, jobs: seq<Job>, h: Key)
    requires DoJobs(v, catalog, clock, jobs).Ok?
    requires forall i :: 0 <= i < |jobs| ==> jobs[i].Credit? || jobs[i].quantity >= 1
    ensures Explained(At(v.db, h).rows, At(DoJobs(v, catalog, clock, jobs).value.db, h).rows, jobs, h)
    decreases |jobs|
  {
    hide Explained, DoJob, At;
    if jobs == [] {
      NothingAdded(At(v.db, h).rows, h);
    } else {
      var v1 := DoJob(v, catalog, clock, jobs[0]).value;
      JobExplained(v, catalog, clock, jobs[0], h);
      RowsExplained(v1, catalog, clock, jobs[1..], h);
      ExplainedThen(At(v.db, h).rows, At(v1.db, h).rows, At(DoJobs(v, catalog, clock, jobs).value.db, h).rows,
                    [jobs[0]], jobs[1..], jobs, h);
    }
  }

  lemma {:induction false} NothingAdded(rows: seq<Movement>, h: Key)
    ensures Explained(rows, rows, [], h)
  {
  }

  lemma {:induction false} JobExplained(v: View, catalog: Catalog, clock: Clock, job: Job, h: Key)
    requires DoJob(v, catalog, clock, job).Ok? && (job.Credit? || job.quantity >= 1)
    ensures Explained(At(v.db, h).rows, At(DoJob(v, catalog, clock, job).value.db, h).rows, [job], h)
  {
    hide Explained, ResolveExitLines, CreditLot, DoLines, Balance, AllLinesOf;
    if job.Credit? {
      CreditAt(v, clock, job, h);
      if h == job.key {
        OneExplained(At(v.db, h).rows, Credited(At(v.db, h), job, clock(v.tick)).rows[|At(v.db, h).rows|], job, h);
      } else {
        NoneExplained(At(v.db, h).rows, job, h);
      }
    } else {
      var p := catalog[job.key.product];
      ResolvedLinesOf(v.db, p, job);
      LinesExplained(v, clock, job, ResolveExitLines(v.db, p, job.key, job.quantity, job.pick).value, h);
    }
  }

  /** Every movement of a sale is a sale exit of its store that takes from one of the requested items. */
  lemma {:induction false} SaleMovements(v: View, catalog: Catalog, clock: Clock, tenant: int, store: int,
      items: seq<SaleLine>, h: Key, i: nat)
    requires DoJobs(v, catalog, clock, SaleJobs(tenant, store, items)).Ok?
    requires var after := DoJobs(v, catalog, clock, SaleJobs(tenant, store, items)).value.db;
      |At(v.db, h).rows| <= i < |At(after, h).rows|
    ensures var row := At(DoJobs(v, catalog, clock, SaleJobs(tenant, store, items)).value.db, h).rows[i];
      && row.key == h && row.kind == SaleExit && h.tenant == tenant && h.store == store
      && exists j :: (
           0 <= j < |items| && items[j].product == h.product && Takes(row, items[j].quantity, items[j].pick, h))
  {
    hide DoJobs, At, Takes;
    var jobs := SaleJobs(tenant, store, items);
    RowsExplained(v, catalog, clock, jobs, h);
    var row := At(DoJobs(v, catalog, clock, jobs).value.db, h).rows[i];
    assert ExplainedBy(jobs, row, h);
    var j :| 0 <= j < |jobs| && Explains(jobs[j], row, h);
    assert Takes(row, items[j].quantity, items[j].pick, h);
  }

  /** Every movement of a transfer leaves its origin as TransferOut or reaches its destination as TransferIn. */
  lemma {:induction false} TransferMovements(v: View, catalog: Catalog, clock: Clock, tenant: int, origin: int,
      destination: int, items: seq<TransferLine>, h: Key, i: nat)
    requires origin != destination && DoJobs(v, catalog, clock, TransferJobs(tenant, origin, destination, items)).Ok?
    requires var after := DoJobs(v, catalog, clock, TransferJobs(tenant, origin, destination, items)).value.db;
      |At(v.db, h).rows| <= i < |At(after, h).rows|
    ensures var after := DoJobs(v, catalog, clock, TransferJobs(tenant, origin, destination, items)).value.db;
      var row := At(after, h).rows[i];
      && row.key == h && h.tenant == tenant
      && ((h.store == origin && row.kind == TransferOut && row.quantity < 0) ||
          (h.store == destination && row.kind == TransferIn && row.quantity > 0))
  {
    hide DoJobs, At;
    var jobs := TransferJobs(tenant, origin, destination, items);
    RowsExplained(v, catalog, clock, jobs, h);
    var row := At(DoJobs(v, catalog, clock, jobs).value.db, h).rows[i];
    assert ExplainedBy(jobs, row, h);
  }
}
