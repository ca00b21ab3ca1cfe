/**
 Solvency of one pair in every interleaving: it depends only on the operations that use the pair or its lots,
 whatever the other operations of the run do to other pairs.
 */
module TransactionSolvency {
  import opened Prelude
  import opened Ledger
  import opened Stock
  import opened StockInvariants
  import opened Transactions
  import opened TransactionLocks
  import opened TransactionLedger
  import opened TransactionSerial

  // ---- What the statements of the current item are still to do to the pair ----

  /** What is added up over the statements: changes of the stock, its decreases, changes of the units in lots, and
      units drawn from the lot with an index. */
  datatype Gauge = OfStock | OfDecrease | OfLots | Drawing(index: nat)

  function StockChange(g: Gauge, quantity: int): int
  {
    match g
    case OfStock => quantity
    case OfDecrease => Min(0, quantity)
    case _ => 0
  }

  function LotIn(g: Gauge, quantity: int): int { if g.OfLots? then quantity else 0 }

  function LotOut(g: Gauge, k: Key, id: LotId, quantity: int): int
  {
    if id.home != k then 0
    else
      match g
      case OfLots => -quantity
      case Drawing(index) => if index == id.index then quantity else 0
      case _ => 0
  }

  function TaskGauge(g: Gauge, task: Task, k: Key): int
  {
    match task
    case ReadStock(key, quantity, _, _) => if key == k then StockChange(g, quantity) else 0
    case Insert(key, quantity, _, _, _) => if key == k then StockChange(g, quantity) else 0
    case OpenLot(key, _, _, quantity, _) => if key == k then StockChange(g, quantity) + LotIn(g, quantity) else 0
    case Draw(id, quantity) => LotOut(g, k, id, quantity)
    case ReadLot(id, to, quantity) =>
      LotOut(g, k, id, quantity) + if to == k then StockChange(g, quantity) + LotIn(g, quantity) else 0
    case FindDestination(to, _, quantity) => if to == k then StockChange(g, quantity) + LotIn(g, quantity) else 0
    case Store(to, _, quantity, _) => if to == k then StockChange(g, quantity) + LotIn(g, quantity) else 0
    case _ => 0
  }

  /** What executing the statement does at once. */
  function NowGauge(g: Gauge, task: Task, k: Key): int
  {
    match task
    case Insert(key, quantity, _, _, _) => if key == k then StockChange(g, quantity) else 0
    case OpenLot(key, _, _, quantity, _) => if key == k then LotIn(g, quantity) else 0
    case Draw(id, quantity) => LotOut(g, k, id, quantity)
    case Store(to, _, quantity, _) => if to == k then LotIn(g, quantity) else 0
    case _ => 0
  }

  function TodoGauge(g: Gauge, todo: seq<Task>, k: Key): int
  {
    if todo == [] then 0 else TaskGauge(g, todo[0], k) + TodoGauge(g, todo[1..], k)
  }

  lemma {:induction false} GaugeJoin(g: Gauge, a: seq<Task>, b: seq<Task>, k: Key)
    ensures TodoGauge(g, a + b, k) == TodoGauge(g, a, k) + TodoGauge(g, b, k)
  {
    hide TaskGauge;
    if a == [] {
      assert a + b == b;
    } else {
      assert (a + b)[1..] == a[1..] + b;
      GaugeJoin(g, a[1..], b, k);
    }
  }

  lemma {:induction false} GaugeOf(g: Gauge, a: Task, b: Task, c: Task, k: Key)
    ensures TodoGauge(g, [a], k) == TaskGauge(g, a, k)
    ensures TodoGauge(g, [a, b], k) == TaskGauge(g, a, k) + TaskGauge(g, b, k)
    ensures TodoGauge(g, [a, b, c], k) == TaskGauge(g, a, k) + TaskGauge(g, b, k) + TaskGauge(g, c, k)
  {
    hide TaskGauge;
    assert [a][1..] == [] && [a, b][1..] == [b] && [b][1..] == [] && [c][1..] == [];
    assert [a, b, c][1..] == [b, c] && [b, c][1..] == [c];
    assert TodoGauge(g, [c], k) == TaskGauge(g, c, k) + TodoGauge(g, [], k);
    assert TodoGauge(g, [b], k) == TaskGauge(g, b, k) + TodoGauge(g, [], k);
    assert TodoGauge(g, [b, c], k) == TaskGauge(g, b, k) + TodoGauge(g, [c], k);
  }

  lemma {:induction false} NothingFor(g: Gauge, todo: seq<Task>, k: Key)
    requires forall task :: task in todo ==> TaskGauge(g, task, k) == 0
    ensures TodoGauge(g, todo, k) == 0
  {
    hide TaskGauge;
    if todo != [] {
      assert todo[0] in todo;
      NothingFor(g, todo[1..], k);
    }
  }

  lemma {:induction false} DecreasesOnly(todo: seq<Task>, k: Key)
    ensures TodoGauge(OfDecrease, todo, k) <= 0
  {
    if todo != [] { DecreasesOnly(todo[1..], k); }
  }

  // ---- The discipline, for one pair ----

  predicate Touches(job: Job, k: Key)
  {
    job.key == k || (job.Move? && job.to == k) || (!job.Credit? && job.pick.Some? && job.pick.value.home == k)
  }

  /** Whatever uses the pair, or chooses one of its lots, respects the discipline. */
  ghost predicate CarefulWith(catalog: Catalog, k: Key, jobs: seq<Job>)
  {
    forall i :: 0 <= i < |jobs| && Touches(jobs[i], k) ==> Disciplined(catalog, jobs[i])
  }

  /** The statement belongs to such an item; `lots` is the number of lots of the pair. */
  ghost predicate Sound(catalog: Catalog, k: Key, held: set<Key>, lots: nat, task: Task)
  {
    match task
    case Resolve(job) => Touches(job, k) ==> Disciplined(catalog, job)
    case OpenLot(key, _, _, quantity, _) => key == k ==> quantity >= 0 && Perishable(catalog, k.product)
    case Draw(id, quantity) => id.home == k ==> quantity >= 0 && id.index < lots && k in held
    case ReadLot(id, to, quantity) =>
      && (id.home == k ==> quantity >= 0 && id.index < lots && k in held)
      && (to == k ==> quantity >= 0 && Perishable(catalog, k.product))
    case FindDestination(to, _, quantity) => to == k ==> quantity >= 0 && Perishable(catalog, k.product)
    case Store(to, _, quantity, twin) =>
      to == k ==> quantity >= 0 && Perishable(catalog, k.product) && (twin.Some? ==> twin.value < lots)
    case _ => true
  }

  ghost predicate AllSound(catalog: Catalog, k: Key, held: set<Key>, lots: nat, cur: seq<Task>)
  {
    && (forall task :: task in cur ==> Sound(catalog, k, held, lots, task))
    && (forall i :: 0 <= i < |cur| - 1 ==> !cur[i].Resolve?)
  }

  /** The shelf is solvent once the rest of the current item is done, and shows nothing negative on the way. */
  ghost predicate WillBeSolvent(s: Shelf, perishable: bool, cur: seq<Task>, k: Key)
  {
    Chronological(s.rows) ==>
      && RunningSums(s.rows)
      && (forall i :: 0 <= i < |s.rows| ==> s.rows[i].balanceAfter >= 0)
      && (forall i :: 0 <= i < |s.lots| ==> s.lots[i].quantity >= TodoGauge(Drawing(i), cur, k))
      && LotUnits(s.lots) + TodoGauge(OfLots, cur, k) <= Balance(s.rows) + TodoGauge(OfStock, cur, k)
      && Balance(s.rows) + TodoGauge(OfDecrease, cur, k) >= 0
      && (!perishable ==> s.lots == [])
  }

  /** The rest of the item takes nothing from the pair. */
  ghost predicate Harmless(cur: seq<Task>, k: Key)
  {
    && (forall i: nat :: TodoGauge(Drawing(i), cur, k) == 0)
    && TodoGauge(OfDecrease, cur, k) == 0
    && TodoGauge(OfLots, cur, k) <= TodoGauge(OfStock, cur, k)
  }

  lemma {:induction false} HarmlessSolvent(s: Shelf, perishable: bool, cur: seq<Task>, k: Key)
    requires ShelfSolvent(s, perishable) && Harmless(cur, k)
    ensures WillBeSolvent(s, perishable, cur, k)
  {
    hide LotUnits, Chronological, RunningSums, Units, TodoGauge, Balance;
    if Chronological(s.rows) {
      BalanceIsUnits(s.rows);
      BalanceNotNegative(s.rows);
      assert forall i: nat :: TodoGauge(Drawing(i), cur, k) == 0;
    }
  }

  lemma {:induction false} BalanceNotNegative(rows: seq<Movement>)
    requires forall i :: 0 <= i < |rows| ==> rows[i].balanceAfter >= 0
    ensures Balance(rows) >= 0
  {
    if rows != [] { assert 0 <= LatestIndex(rows) < |rows|; }
  }

  lemma {:induction false} DoneSolvent(s: Shelf, perishable: bool, k: Key)
    requires WillBeSolvent(s, perishable, [], k)
    ensures ShelfSolvent(s, perishable)
  {
    hide LotUnits, Chronological, RunningSums, Units, Balance;
    if Chronological(s.rows) { BalanceIsUnits(s.rows); }
  }

  // ---- The lines of an accepted exit ----

  function LineGauge(g: Gauge, job: Job, line: Line, k: Key): int
    requires !job.Credit?
  {
    (if job.key == k then StockChange(g, -line.quantity) else 0)
    + (if line.lot.Some? then LotOut(g, k, line.lot.value, line.quantity) else 0)
    + if job.Move? && job.to == k
      then StockChange(g, line.quantity) + (if line.lot.Some? then LotIn(g, line.quantity) else 0)
      else 0
  }

  function LinesGauge(g: Gauge, job: Job, lines: seq<Line>, k: Key): int
    requires !job.Credit?
  {
    if lines == [] then 0 else LineGauge(g, job, lines[0], k) + LinesGauge(g, job, lines[1..], k)
  }

  lemma {:induction false} DebitTasksGauge(g: Gauge, job: Job, line: Line, k: Key)
    requires job.Debit?
    ensures TodoGauge(g, DebitTasks(job, line), k) == LineGauge(g, job, line, k)
  {
    hide StockChange, LotIn, LotOut;
    var ts := DebitTasks(job, line);
    GaugeOf(g, ts[0], ts[|ts| - 1], ts[0], k);
    if |ts| == 1 {
      assert ts == [ts[0]];
    } else if |ts| == 2 {
      assert ts == [ts[0], ts[1]];
    } else {
      assert ts == [ts[0], ts[1], ts[2]];
      GaugeOf(g, ts[0], ts[1], ts[2], k);
    }
  }

  lemma {:induction false} MoveTasksGauge(g: Gauge, job: Job, line: Line, k: Key)
    requires job.Move?
    ensures TodoGauge(g, MoveTasks(job, line), k) == LineGauge(g, job, line, k)
  {
    hide StockChange, LotIn, LotOut;
    var ts := MoveTasks(job, line);
    assert ts == [ts[0], ts[1], ts[2]];
    GaugeOf(g, ts[0], ts[1], ts[2], k);
  }

  lemma {:induction false} LinesTasksGauge(g: Gauge, job: Job, lines: seq<Line>, k: Key)
    requires !job.Credit?
    ensures TodoGauge(g, LinesTasks(job, lines), k) == LinesGauge(g, job, lines, k)
  {
    hide DebitTasks, MoveTasks, LineGauge, TaskGauge;
    if lines != [] {
      if job.Debit? { DebitTasksGauge(g, job, lines[0], k); } else { MoveTasksGauge(g, job, lines[0], k); }
      LinesTasksGauge(g, job, lines[1..], k);
      GaugeJoin(g, LineTasks(job, lines[0]), LinesTasks(job, lines[1..]), k);
    }
  }

  lemma {:induction false} OtherLines(g: Gauge, job: Job, lines: seq<Line>, k: Key)
    requires !job.Credit? && job.key != k && (job.Move? ==> job.to != k)
    requires forall i :: 0 <= i < |lines| && lines[i].lot.Some? ==> lines[i].lot.value.home != k
    ensures LinesGauge(g, job, lines, k) == 0
  {
    if lines != [] { OtherLines(g, job, lines[1..], k); }
  }

  /** Lines that enter the pair bring as much stock as lot units. */
  lemma {:induction false} EnteringLines(job: Job, lines: seq<Line>, k: Key, i: nat)
    requires job.Move? && job.key != k && job.to == k && forall j :: 0 <= j < |lines| ==> lines[j].quantity >= 0
    requires forall j :: 0 <= j < |lines| && lines[j].lot.Some? ==> lines[j].lot.value.home != k
    ensures LinesGauge(Drawing(i), job, lines, k) == 0 && LinesGauge(OfDecrease, job, lines, k) == 0
    ensures LinesGauge(OfLots, job, lines, k) <= LinesGauge(OfStock, job, lines, k)
  {
    if lines != [] { EnteringLines(job, lines[1..], k, i); }
  }

  /** Lines that leave the pair take their units from its stock and, all or none of them, from its lots. */
  lemma {:induction false} LeavingLines(job: Job, lines: seq<Line>, k: Key, lotted: bool)
    requires !job.Credit? && job.key == k && (job.Move? ==> job.to != k)
    requires forall j :: 0 <= j < |lines| ==> lines[j].quantity >= 0 && (lines[j].lot.Some? <==> lotted)
    requires forall j :: 0 <= j < |lines| && lines[j].lot.Some? ==> lines[j].lot.value.home == k
    ensures LinesGauge(OfStock, job, lines, k) == -LineUnits(lines)
    ensures LinesGauge(OfDecrease, job, lines, k) == -LineUnits(lines)
    ensures LinesGauge(OfLots, job, lines, k) == if lotted then -LineUnits(lines) else 0
  {
    if lines != [] { LeavingLines(job, lines[1..], k, lotted); }
  }

  lemma {:induction false} NotDrawing(job: Job, lines: seq<Line>, k: Key, i: nat)
    requires !job.Credit? && forall j :: 0 <= j < |lines| ==> lines[j].lot != Some(LotId(k, i))
    ensures LinesGauge(Drawing(i), job, lines, k) == 0
  {
    if lines != [] { NotDrawing(job, lines[1..], k, i); }
  }

  /** Lines from different lots, each within its lot, take no more from any lot than it holds. */
  lemma {:induction false} DrawingFits(job: Job, lines: seq<Line>, k: Key, lots: seq<Lot>, i: nat)
    requires !job.Credit? && i < |lots| && lots[i].quantity >= 0 && DistinctLots(lines)
    requires forall j :: 0 <= j < |lines| && lines[j].lot == Some(LotId(k, i)) ==> lines[j].quantity <= lots[i].quantity
    ensures LinesGauge(Drawing(i), job, lines, k) <= lots[i].quantity
  {
    if lines != [] {
      if lines[0].lot == Some(LotId(k, i)) {
        forall j | 0 <= j < |lines[1..]| ensures lines[1..][j].lot != Some(LotId(k, i)) {
          assert lines[1..][j] == lines[j + 1];
        }
        NotDrawing(job, lines[1..], k, i);
      } else {
        assert DistinctLots(lines[1..]) by { LaterDistinct(lines, lines[1..]); }
        DrawingFits(job, lines[1..], k, lots, i);
      }
    }
  }

  /** ... and so no more in all than the lots hold. */
  lemma {:induction false} LottedUnitsFit(s: Shelf, perishable: bool, k: Key, lines: seq<Line>)
    requires NoNegativeLot(s.lots) && LinesFit(s, perishable, k, lines)
    requires forall j :: 0 <= j < |lines| ==> lines[j].lot.Some?
    ensures LineUnits(lines) <= LotUnits(s.lots)
    decreases |lines|
  {
    hide LotUnits, DistinctLots;
    if lines == [] {
      SumOfLots(s.lots);
    } else {
      var line := lines[0];
      assert LineFits(s, perishable, k, line);
      var i := line.lot.value.index;
      var rest := s.lots[i := s.lots[i].(quantity := s.lots[i].quantity - line.quantity)];
      LotUnitsUpdate(s.lots, i, rest[i]);
      LaterFit(s, perishable, k, lines, rest);
      LottedUnitsFit(Shelf(s.rows, rest), perishable, k, lines[1..]);
    }
  }

  lemma {:induction false} SumOfLots(lots: seq<Lot>)
    requires NoNegativeLot(lots)
    ensures LotUnits(lots) >= 0
  {
    SumNonNegative(LotQuantities(lots));
  }

  lemma {:induction false} LaterFit(s: Shelf, perishable: bool, k: Key, lines: seq<Line>, rest: seq<Lot>)
    requires lines != [] && LinesFit(s, perishable, k, lines) && lines[0].lot.Some?
    requires |rest| == |s.lots|
    requires forall i :: 0 <= i < |rest| && i != lines[0].lot.value.index ==> rest[i] == s.lots[i]
    ensures LinesFit(Shelf(s.rows, rest), perishable, k, lines[1..])
  {
    LaterDistinct(lines, lines[1..]);
    assert LineFits(s, perishable, k, lines[0]);
    forall j | 0 <= j < |lines[1..]| ensures LineFits(Shelf(s.rows, rest), perishable, k, lines[1..][j]) {
      assert LineFits(s, perishable, k, lines[j + 1]) && lines[0].lot != lines[j + 1].lot;
    }
  }

  // ---- Resolving an exit ----

  /** A line whose statements are sound for the pair. */
  ghost predicate SoundLine(catalog: Catalog, k: Key, held: set<Key>, lots: nat, job: Job, line: Line)
    requires !job.Credit?
  {
    && (line.lot.Some? && line.lot.value.home == k ==>
          line.quantity >= 0 && line.lot.value.index < lots && k in held)
    && (line.lot.Some? && job.Move? && job.to == k ==> line.quantity >= 0 && Perishable(catalog, k.product))
  }

  lemma {:induction false} LinesSound(catalog: Catalog, k: Key, held: set<Key>, lots: nat, job: Job, lines: seq<Line>)
    requires !job.Credit? && forall i :: 0 <= i < |lines| ==> SoundLine(catalog, k, held, lots, job, lines[i])
    ensures AllSound(catalog, k, held, lots, LinesTasks(job, lines))
  {
    hide SoundLine, Sound, LineTasks;
    if lines != [] {
      LinesSound(catalog, k, held, lots, job, lines[1..]);
      LineSound(catalog, k, held, lots, job, lines[0]);
      assert forall task :: task in LinesTasks(job, lines) ==>
        task in LineTasks(job, lines[0]) || task in LinesTasks(job, lines[1..]);
    }
    LinesResolveNothing(job, lines);
  }

  lemma {:induction false} LineSound(catalog: Catalog, k: Key, held: set<Key>, lots: nat, job: Job, line: Line)
    requires !job.Credit? && SoundLine(catalog, k, held, lots, job, line)
    ensures forall task :: task in LineTasks(job, line) ==> Sound(catalog, k, held, lots, task)
  {
  }

  lemma {:induction false} LinesResolveNothing(job: Job, lines: seq<Line>)
    requires !job.Credit?
    ensures forall task :: task in LinesTasks(job, lines) ==> !task.Resolve? && !task.Lock?
  {
    if lines != [] { LinesResolveNothing(job, lines[1..]); }
  }

  /** What resolveExitLines returns, as seen from the pair. */
  ghost predicate Resolved(catalog: Catalog, k: Key, s: Shelf, job: Job, lines: seq<Line>)
    requires !job.Credit?
  {
    && (forall i :: 0 <= i < |lines| ==> lines[i].quantity >= 0)
    && (forall i :: 0 <= i < |lines| && lines[i].lot.Some? ==>
          lines[i].lot.value.home == if job.pick.Some? then job.pick.value.home else job.key)
    && (job.key == k ==> LinesFit(s, Perishable(catalog, k.product), k, lines))
    && (Touches(job, k) ==> forall i :: 0 <= i < |lines| ==>
          (lines[i].lot.Some? <==> job.pick.Some? || Perishable(catalog, job.key.product)))
  }

  lemma {:induction false} ResolveIsResolved(catalog: Catalog, k: Key, seen: Db, job: Job)
    requires Left(Resolve(job), catalog, seen).Some?
    requires Touches(job, k) ==> Disciplined(catalog, job)
    ensures var lines := ResolveExitLines(seen, catalog[job.key.product], job.key, job.quantity, job.pick).value;
            Touches(job, k) ==> Resolved(catalog, k, At(seen, k), job, lines)
  {
    var p := catalog[job.key.product];
    var lines := ResolveExitLines(seen, p, job.key, job.quantity, job.pick).value;
    if Touches(job, k) {
      ResolvedLinesFit(seen, p, job.key, job.quantity, job.pick);
      ResolvedHomes(seen, p, job.key, job.quantity, job.pick);
      forall i | 0 <= i < |lines| ensures lines[i].quantity >= 0 {
        assert LineFits(At(seen, job.key), p, job.key, lines[i]);
      }
      forall i | 0 <= i < |lines| && lines[i].lot.Some?
        ensures lines[i].lot.value.home == if job.pick.Some? then job.pick.value.home else job.key
      {
        assert lines[i] in lines;
      }
    }
  }

  /** The lines of an item that uses the pair leave it solvent in the end. */
  lemma {:induction false} ResolvedSolvent(catalog: Catalog, k: Key, s: Shelf, job: Job, lines: seq<Line>)
    requires !job.Credit? && Touches(job, k) && Disciplined(catalog, job) && Resolved(catalog, k, s, job, lines)
    requires WillBeSolvent(s, Perishable(catalog, k.product), [], k)
    ensures WillBeSolvent(s, Perishable(catalog, k.product), LinesTasks(job, lines), k)
  {
    hide LotUnits, Chronological, RunningSums, Balance, LinesTasks, TaskGauge, LineGauge;
    forall g: Gauge ensures TodoGauge(g, LinesTasks(job, lines), k) == LinesGauge(g, job, lines, k) {
      LinesTasksGauge(g, job, lines, k);
    }
    if Chronological(s.rows) {
      if job.key == k {
        LeavingSolvent(catalog, k, s, job, lines);
      } else {
        forall i: nat ensures LinesGauge(Drawing(i), job, lines, k) == 0 { EnteringLines(job, lines, k, i); }
        EnteringLines(job, lines, k, 0);
      }
    }
  }

  lemma {:induction false} LeavingSolvent(catalog: Catalog, k: Key, s: Shelf, job: Job, lines: seq<Line>)
    requires !job.Credit? && job.key == k && Disciplined(catalog, job) && Resolved(catalog, k, s, job, lines)
    requires WillBeSolvent(s, Perishable(catalog, k.product), [], k) && Chronological(s.rows)
    ensures forall i :: 0 <= i < |s.lots| ==> s.lots[i].quantity >= LinesGauge(Drawing(i), job, lines, k)
    ensures LotUnits(s.lots) + LinesGauge(OfLots, job, lines, k) <= Balance(s.rows) + LinesGauge(OfStock, job, lines, k)
    ensures Balance(s.rows) + LinesGauge(OfDecrease, job, lines, k) >= 0
  {
    hide LotUnits, Chronological, RunningSums, Balance, LineGauge, DistinctLots;
    var p := Perishable(catalog, k.product);
    var lotted := job.pick.Some? || p;
    LeavingLines(job, lines, k, lotted);
    forall i | 0 <= i < |s.lots| ensures s.lots[i].quantity >= LinesGauge(Drawing(i), job, lines, k) {
      forall j | 0 <= j < |lines| && lines[j].lot == Some(LotId(k, i)) ensures lines[j].quantity <= s.lots[i].quantity {
        assert LineFits(s, p, k, lines[j]);
      }
      DrawingFits(job, lines, k, s.lots, i);
    }
    if lotted {
      LottedUnitsFit(s, p, k, lines);
    } else {
      UnlottedUnitsFit(s, k, lines);
      assert s.lots == [] && LotUnits([]) == 0 by { NoLotUnits(); }
    }
  }

  lemma {:induction false} NoLotUnits()
    ensures LotUnits([]) == 0
  {
  }

  lemma {:induction false} UnlottedUnitsFit(s: Shelf, k: Key, lines: seq<Line>)
    requires LinesFit(s, false, k, lines) && forall j :: 0 <= j < |lines| ==> lines[j].lot.None?
    requires Balance(s.rows) >= 0
    ensures LineUnits(lines) <= Balance(s.rows)
  {
    hide Balance;
    if lines != [] {
      assert LineFits(s, false, k, lines[0]);
      assert lines[0].lot.None? && |lines| == 1;
      assert lines[1..] == [] && LineUnits(lines[1..]) == 0;
    }
  }

  // ---- One statement ----

  /** A statement passes on what it does not do at once. */
  lemma {:induction false} LeftGauge(g: Gauge, task: Task, catalog: Catalog, seen: Db, k: Key)
    requires Left(task, catalog, seen).Some? && !task.Resolve?
    ensures NowGauge(g, task, k) + TodoGauge(g, Left(task, catalog, seen).value, k) == TaskGauge(g, task, k)
  {
    hide FindTwin, Balance, StockChange, LotIn, LotOut;
    var left := Left(task, catalog, seen).value;
    if |left| == 1 {
      assert left == [left[0]];
      GaugeOf(g, left[0], left[0], left[0], k);
    } else if |left| == 2 {
      assert left == [left[0], left[1]];
      GaugeOf(g, left[0], left[1], left[0], k);
    }
  }

  lemma {:induction false} LeftSound(catalog: Catalog, k: Key, held: set<Key>, task: Task, seen: Db)
    requires Left(task, catalog, seen).Some? && !task.Resolve?
    requires Sound(catalog, k, held, |At(seen, k).lots|, task)
    ensures AllSound(catalog, k, held, |At(seen, k).lots|, Left(task, catalog, seen).value)
  {
    hide Balance;
  }

  /** The shelf after a statement that is not a Resolve. */
  lemma {:induction false} WriteSolvent(catalog: Catalog, k: Key, held: set<Key>, task: Task, rest: seq<Task>, seen: Db,
      createdAt: int)
    requires Written(task, seen, createdAt).Some? && Left(task, catalog, seen).Some? && !task.Resolve?
    requires Sound(catalog, k, held, |At(seen, k).lots|, task)
    requires task.Insert? ==> task.current == CurrentStock(seen, task.key)
    requires forall t :: t in rest ==> Sound(catalog, k, held, |At(seen, k).lots|, t)
    requires WillBeSolvent(At(seen, k), Perishable(catalog, k.product), [task] + rest, k)
    ensures var after := Put(seen, Written(task, seen, createdAt).value);
            var left := Left(task, catalog, seen).value;
            WillBeSolvent(At(after, k), Perishable(catalog, k.product), left + rest, k)
  {
    hide LotUnits, Chronological, RunningSums, Balance, TodoGauge, TaskGauge, Left, Sound, FindTwin;
    var s, w, left := At(seen, k), Written(task, seen, createdAt).value, Left(task, catalog, seen).value;
    var p := Perishable(catalog, k.product);
    forall g: Gauge
      ensures TodoGauge(g, [task] + rest, k) == NowGauge(g, task, k) + TodoGauge(g, left + rest, k)
    {
      GaugeJoin(g, [task], rest, k);
      GaugeOf(g, task, task, task, k);
      GaugeJoin(g, left, rest, k);
      LeftGauge(g, task, catalog, seen, k);
    }
    PutAt(seen, w, k);
    if Target(w) == k {
      match task {
        case Insert(_, quantity, _, _, _) =>
          DecreasesOnly(left + rest, k);
          InsertSolvent(s, p, [task] + rest, left + rest, k, w.row);
        case OpenLot(_, _, _, quantity, _) =>
          SoundQuantity(catalog, k, held, |s.lots|, task);
          LeftSound(catalog, k, held, task, seen);
          NewLotUndrawn(catalog, k, held, |s.lots|, left, rest);
          CreateSolvent(s, p, [task] + rest, left + rest, k, w.lot);
        case Draw(id, quantity) =>
          SoundQuantity(catalog, k, held, |s.lots|, task);
          AddSolvent(s, p, [task] + rest, left + rest, k, id.index, -quantity);
        case Store(_, _, quantity, twin) =>
          SoundQuantity(catalog, k, held, |s.lots|, task);
          LeftSound(catalog, k, held, task, seen);
          if twin.Some? {
            AddSolvent(s, p, [task] + rest, left + rest, k, twin.value, quantity);
          } else {
            NewLotUndrawn(catalog, k, held, |s.lots|, left, rest);
            CreateSolvent(s, p, [task] + rest, left + rest, k, w.lot);
          }
      }
    } else {
      forall g: Gauge ensures NowGauge(g, task, k) == 0 { ElsewhereGauge(g, task, seen, createdAt, k); }
    }
  }

  lemma {:induction false} ElsewhereGauge(g: Gauge, task: Task, seen: Db, createdAt: int, k: Key)
    requires Written(task, seen, createdAt).Some? && Target(Written(task, seen, createdAt).value) != k
    ensures NowGauge(g, task, k) == 0
  {
  }

  lemma {:induction false} SoundQuantity(catalog: Catalog, k: Key, held: set<Key>, lots: nat, task: Task)
    requires Sound(catalog, k, held, lots, task)
    ensures task.OpenLot? && task.key == k ==> task.quantity >= 0 && Perishable(catalog, k.product)
    ensures task.Draw? && task.id.home == k ==> task.quantity >= 0 && task.id.index < lots
    ensures task.Store? && task.to == k ==>
      task.quantity >= 0 && Perishable(catalog, k.product) && (task.twin.Some? ==> task.twin.value < lots)
  {
  }

  lemma {:induction false} NewLotUndrawn(catalog: Catalog, k: Key, held: set<Key>, lots: nat, left: seq<Task>,
      rest: seq<Task>)
    requires AllSound(catalog, k, held, lots, left) && forall t :: t in rest ==> Sound(catalog, k, held, lots, t)
    ensures TodoGauge(Drawing(lots), left + rest, k) == 0
  {
    hide TodoGauge;
    NothingFor(Drawing(lots), left + rest, k);
  }

  lemma {:induction false} InsertSolvent(s: Shelf, perishable: bool, cur: seq<Task>, next: seq<Task>, k: Key,
      row: Movement)
    requires WillBeSolvent(s, perishable, cur, k) && row.balanceAfter == Balance(s.rows) + row.quantity
    requires TodoGauge(OfStock, cur, k) == row.quantity + TodoGauge(OfStock, next, k)
    requires TodoGauge(OfDecrease, cur, k) == Min(0, row.quantity) + TodoGauge(OfDecrease, next, k)
    requires TodoGauge(OfLots, cur, k) == TodoGauge(OfLots, next, k) && TodoGauge(OfDecrease, next, k) <= 0
    requires forall i: nat :: TodoGauge(Drawing(i), cur, k) == TodoGauge(Drawing(i), next, k)
    ensures WillBeSolvent(Shelf(s.rows + [row], s.lots), perishable, next, k)
  {
    hide LotUnits, TodoGauge, Balance, Units, RunningSums;
    if Chronological(s.rows + [row]) {
      EarlierRows(s.rows, row);
      hide Chronological;
      LastRow(s.rows, row);
      BalanceIsUnits(s.rows + [row]);
    }
  }

  lemma {:induction false} CreateSolvent(s: Shelf, perishable: bool, cur: seq<Task>, next: seq<Task>, k: Key, lot: Lot)
    requires WillBeSolvent(s, perishable, cur, k) && lot.quantity >= 0 && perishable
    requires TodoGauge(OfStock, cur, k) == TodoGauge(OfStock, next, k)
    requires TodoGauge(OfDecrease, cur, k) == TodoGauge(OfDecrease, next, k)
    requires TodoGauge(OfLots, cur, k) == lot.quantity + TodoGauge(OfLots, next, k)
    requires forall i: nat :: TodoGauge(Drawing(i), cur, k) == TodoGauge(Drawing(i), next, k)
    requires TodoGauge(Drawing(|s.lots|), next, k) == 0
    ensures WillBeSolvent(Shelf(s.rows, s.lots + [lot]), perishable, next, k)
  {
    hide LotUnits, TodoGauge, Balance, RunningSums, Chronological;
    LotUnitsSnoc(s.lots, lot);
  }

  lemma {:induction false} AddSolvent(s: Shelf, perishable: bool, cur: seq<Task>, next: seq<Task>, k: Key, i: nat,
      d: int)
    requires WillBeSolvent(s, perishable, cur, k) && i < |s.lots|
    requires TodoGauge(OfStock, cur, k) == TodoGauge(OfStock, next, k)
    requires TodoGauge(OfDecrease, cur, k) == TodoGauge(OfDecrease, next, k)
    requires TodoGauge(OfLots, cur, k) == d + TodoGauge(OfLots, next, k)
    requires forall j: nat :: (
      TodoGauge(Drawing(j), next, k) <= TodoGauge(Drawing(j), cur, k) + if j == i && d < 0 then d else 0)
    ensures var lots := s.lots[i := s.lots[i].(quantity := s.lots[i].quantity + d)];
      WillBeSolvent(Shelf(s.rows, lots), perishable, next, k)
  {
    hide LotUnits, TodoGauge, Balance, RunningSums, Chronological;
    LotUnitsUpdate(s.lots, i, s.lots[i].(quantity := s.lots[i].quantity + d));
  }

  // ---- One transaction ----

  /** The transaction has items j and later ahead of it and is at `cur` of the item before. A pair that it holds
      will be solvent; from one that it does not hold, `cur` takes nothing. */
  ghost predicate Working(catalog: Catalog, k: Key, th: Thread, db: Db, j: nat, cur: seq<Task>)
  {
    var s := At(Apply(db, th.writes), k);
    && j <= |th.jobs| && th.todo == cur + Script(th.jobs[j..])
    && AllSound(catalog, k, th.held, |s.lots|, cur)
    && (k in th.held ==> WillBeSolvent(s, Perishable(catalog, k.product), cur, k))
    && (k !in th.held ==> Harmless(cur, k))
  }

  /** Only the holder of the pair writes to it. */
  ghost predicate WritesHeldPair(th: Thread, k: Key) { forall w :: w in th.writes && Target(w) == k ==> k in th.held }

  lemma {:induction false} JobHarmless(catalog: Catalog, k: Key, held: set<Key>, lots: nat, job: Job)
    requires Touches(job, k) ==> Disciplined(catalog, job)
    ensures AllSound(catalog, k, held, lots, JobTasks(job)) && Harmless(JobTasks(job), k)
  {
    var ts := JobTasks(job);
    forall g: Gauge
      ensures TodoGauge(g, ts, k) ==
        if job.Credit? && job.key == k
        then StockChange(g, job.quantity) + (if job.lot.Some? then LotIn(g, job.quantity) else 0)
        else 0
    {
      if job.Credit? {
        assert ts == [ts[0], ts[1]];
        GaugeOf(g, ts[0], ts[1], ts[0], k);
      } else {
        NothingFor(g, ts, k);
      }
    }
  }

  lemma {:induction false} HarmlessMore(s: Shelf, perishable: bool, cur: seq<Task>, k: Key)
    requires WillBeSolvent(s, perishable, [], k) && Harmless(cur, k)
    ensures WillBeSolvent(s, perishable, cur, k)
  {
    hide LotUnits, Chronological, RunningSums, Balance;
  }

  /** At the end of an item the next one becomes the current one. */
  lemma {:induction false} NextItem(catalog: Catalog, k: Key, th: Thread, db: Db, j: nat)
    requires Working(catalog, k, th, db, j, []) && CarefulWith(catalog, k, th.jobs) && th.todo != []
    ensures j < |th.jobs| && Working(catalog, k, th, db, j + 1, JobTasks(th.jobs[j])) && JobTasks(th.jobs[j]) != []
  {
    hide WillBeSolvent, Harmless, AllSound, JobTasks;
    assert [] + Script(th.jobs[j..]) == Script(th.jobs[j..]);
    assert th.jobs[j..][1..] == th.jobs[j + 1..];
    var s := At(Apply(db, th.writes), k);
    JobHarmless(catalog, k, th.held, |s.lots|, th.jobs[j]);
    if k in th.held { HarmlessMore(s, Perishable(catalog, k.product), JobTasks(th.jobs[j]), k); }
    JobHasTasks(th.jobs[j]);
  }

  lemma {:induction false} JobHasTasks(job: Job)
    ensures JobTasks(job) != []
  {
  }

  lemma {:induction false} SameGauges(s: Shelf, perishable: bool, cur: seq<Task>, next: seq<Task>, k: Key)
    requires forall g: Gauge :: TodoGauge(g, next, k) == TodoGauge(g, cur, k)
    ensures WillBeSolvent(s, perishable, cur, k) ==> WillBeSolvent(s, perishable, next, k)
    ensures Harmless(cur, k) ==> Harmless(next, k)
  {
    hide LotUnits, Chronological, RunningSums, Balance;
    assert forall i: nat :: TodoGauge(Drawing(i), next, k) == TodoGauge(Drawing(i), cur, k);
  }

  lemma {:induction false} SoundMore(catalog: Catalog, k: Key, held: set<Key>, more: set<Key>, lots: nat, n: nat,
      cur: seq<Task>)
    requires AllSound(catalog, k, held, lots, cur) && held <= more && lots <= n
    ensures AllSound(catalog, k, more, n, cur)
  {
    forall task | task in cur ensures Sound(catalog, k, more, n, task) {
      assert Sound(catalog, k, held, lots, task);
    }
  }

  lemma {:induction false} SoundJoin(catalog: Catalog, k: Key, held: set<Key>, lots: nat, left: seq<Task>,
      rest: seq<Task>)
    requires AllSound(catalog, k, held, lots, left) && (forall task :: task in left ==> !task.Resolve?)
    requires AllSound(catalog, k, held, lots, rest)
    ensures AllSound(catalog, k, held, lots, left + rest)
  {
    hide Sound;
    var all := left + rest;
    forall i | 0 <= i < |all| - 1 ensures !all[i].Resolve? {
      if i < |left| { assert left[i] in left; } else { assert all[i] == rest[i - |left|]; }
    }
  }

  lemma {:induction false} SoundRest(catalog: Catalog, k: Key, held: set<Key>, lots: nat, cur: seq<Task>)
    requires cur != [] && AllSound(catalog, k, held, lots, cur)
    ensures AllSound(catalog, k, held, lots, cur[1..]) && Sound(catalog, k, held, lots, cur[0])
    ensures cur[0].Resolve? ==> cur[1..] == []
  {
    hide Sound;
    forall i | 0 <= i < |cur[1..]| - 1 ensures !cur[1..][i].Resolve? { assert cur[1..][i] == cur[i + 1]; }
    assert cur[0] in cur;
  }

  /** No Resolve is left over. */
  lemma {:induction false} LeftResolvesNothing(task: Task, catalog: Catalog, seen: Db)
    requires Left(task, catalog, seen).Some?
    ensures forall t :: t in Left(task, catalog, seen).value ==> !t.Resolve?
  {
    hide Balance, FindTwin, ResolveExitLines;
    if task.Resolve? {
      var job := task.job;
      LinesResolveNothing(job, ResolveExitLines(seen, catalog[job.key.product], job.key, job.quantity, job.pick).value);
    }
  }

  /** After a Resolve, whether or not its item uses the pair. */
  lemma {:induction false} ResolveWorks(catalog: Catalog, k: Key, held: set<Key>, job: Job, seen: Db)
    requires Left(Resolve(job), catalog, seen).Some? && Sound(catalog, k, held, |At(seen, k).lots|, Resolve(job))
    requires Needs(false, Resolve(job)) <= held
    requires k in held ==> WillBeSolvent(At(seen, k), Perishable(catalog, k.product), [], k)
    ensures var left, s := Left(Resolve(job), catalog, seen).value, At(seen, k);
      && AllSound(catalog, k, held, |s.lots|, left)
      && (k in held ==> WillBeSolvent(s, Perishable(catalog, k.product), left, k))
      && (k !in held ==> Harmless(left, k))
  {
    hide WillBeSolvent, AllSound, LinesTasks, ResolveExitLines, Balance;
    var lines := ResolveExitLines(seen, catalog[job.key.product], job.key, job.quantity, job.pick).value;
    if Touches(job, k) {
      ResolveIsResolved(catalog, k, seen, job);
      ResolvedSound(catalog, k, held, At(seen, k), job, lines);
      LinesSound(catalog, k, held, |At(seen, k).lots|, job, lines);
      ResolvedSolvent(catalog, k, At(seen, k), job, lines);
    } else {
      UntouchedLines(catalog, k, held, job, seen, lines);
      forall g: Gauge ensures TodoGauge(g, LinesTasks(job, lines), k) == TodoGauge(g, [], k) {
        LinesTasksGauge(g, job, lines, k);
        OtherLines(g, job, lines, k);
      }
      SameGauges(At(seen, k), Perishable(catalog, k.product), [], LinesTasks(job, lines), k);
    }
  }

  lemma {:induction false} ResolvedSound(catalog: Catalog, k: Key, held: set<Key>, s: Shelf, job: Job, lines: seq<Line>)
    requires !job.Credit? && Touches(job, k) && Disciplined(catalog, job) && Resolved(catalog, k, s, job, lines)
    requires job.key == k ==> k in held
    ensures forall i :: 0 <= i < |lines| ==> SoundLine(catalog, k, held, |s.lots|, job, lines[i])
  {
    forall i | 0 <= i < |lines| ensures SoundLine(catalog, k, held, |s.lots|, job, lines[i]) {
      if job.key == k { assert LineFits(s, Perishable(catalog, k.product), k, lines[i]); }
    }
  }

  lemma {:induction false} UntouchedLines(catalog: Catalog, k: Key, held: set<Key>, job: Job, seen: Db,
      lines: seq<Line>)
    requires Left(Resolve(job), catalog, seen).Some? && !Touches(job, k)
    requires lines == ResolveExitLines(seen, catalog[job.key.product], job.key, job.quantity, job.pick).value
    ensures forall i :: 0 <= i < |lines| && lines[i].lot.Some? ==> lines[i].lot.value.home != k
    ensures AllSound(catalog, k, held, |At(seen, k).lots|, LinesTasks(job, lines))
  {
    hide ResolveExitLines, AllSound;
    ResolvedHomes(seen, catalog[job.key.product], job.key, job.quantity, job.pick);
    forall i | 0 <= i < |lines| && lines[i].lot.Some? ensures lines[i].lot.value.home != k {
      assert lines[i] in lines;
    }
    LinesSound(catalog, k, held, |At(seen, k).lots|, job, lines);
  }

  /** A statement that writes nothing leaves the same to do. */
  lemma {:induction false} ReadGauges(task: Task, rest: seq<Task>, catalog: Catalog, seen: Db, createdAt: int, k: Key)
    requires Left(task, catalog, seen).Some? && !task.Resolve?
    requires var w := Written(task, seen, createdAt); w.Some? ==> Target(w.value) != k
    ensures forall g: Gauge ::
      TodoGauge(g, Left(task, catalog, seen).value + rest, k) == TodoGauge(g, [task] + rest, k)
  {
    hide TaskGauge, Left, TodoGauge;
    var left := Left(task, catalog, seen).value;
    forall g: Gauge ensures TodoGauge(g, left + rest, k) == TodoGauge(g, [task] + rest, k) {
      GaugeJoin(g, left, rest, k);
      GaugeJoin(g, [task], rest, k);
      GaugeOf(g, task, task, task, k);
      LeftGauge(g, task, catalog, seen, k);
    }
  }

  /** What a statement writes to the pair it writes as its holder. */
  lemma {:induction false} WritesAsHolder(catalog: Catalog, k: Key, held: set<Key>, lots: nat, task: Task, seen: Db,
      createdAt: int)
    requires Written(task, seen, createdAt).Some? && Target(Written(task, seen, createdAt).value) == k
    requires Sound(catalog, k, held, lots, task) && Needs(false, task) <= held
    ensures k in held
  {
  }

  lemma {:induction false} LotsGrow(seen: Db, w: Write, k: Key)
    ensures |At(seen, k).lots| <= |At(Put(seen, w), k).lots|
  {
  }

  /** What a step of a transaction has to start from. */
  ghost predicate Ready(catalog: Catalog, k: Key, th: Thread, db: Db, j: nat, cur: seq<Task>)
  {
    && CanStep(th) && cur != [] && Working(catalog, k, th, db, j, cur) && WritesHeldPair(th, k)
    && ThreadRight(th, db) && ShelfSolvent(At(db, k), Perishable(catalog, k.product))
  }

  lemma {:induction false} FirstTask(catalog: Catalog, k: Key, th: Thread, db: Db, j: nat, cur: seq<Task>)
    requires Ready(catalog, k, th, db, j, cur)
    ensures th.todo[0] == cur[0] && th.todo[1..] == cur[1..] + Script(th.jobs[j..]) && Needs(false, cur[0]) <= th.held
    ensures cur[0].Insert? ==> cur[0].current == CurrentStock(Apply(db, th.writes), cur[0].key)
    ensures k !in th.held ==> At(Apply(db, th.writes), k) == At(db, k)
  {
    hide Needs, WillBeSolvent, Harmless, AllSound, At;
    if k !in th.held { ApplyElsewhere(db, th.writes, k); }
  }

  /** The shelf and the rest of the item after a statement other than a Resolve. */
  lemma {:induction false} PlainWorks(catalog: Catalog, k: Key, held: set<Key>, task: Task, rest: seq<Task>, seen: Db,
      createdAt: int, after: Db)
    requires Left(task, catalog, seen).Some? && !task.Resolve? && Needs(false, task) <= held
    requires after == (var w := Written(task, seen, createdAt); if w.Some? then Put(seen, w.value) else seen)
    requires AllSound(catalog, k, held, |At(seen, k).lots|, [task] + rest)
    requires task.Insert? ==> task.current == CurrentStock(seen, task.key)
    ensures var left := Left(task, catalog, seen).value;
      && AllSound(catalog, k, held, |At(after, k).lots|, left + rest)
      && (WillBeSolvent(At(seen, k), Perishable(catalog, k.product), [task] + rest, k) && k in held ==>
            WillBeSolvent(At(after, k), Perishable(catalog, k.product), left + rest, k))
      && (k !in held ==> At(after, k) == At(seen, k))
      && (k !in held && Harmless([task] + rest, k) ==> Harmless(left + rest, k))
  {
    hide Left, Written, WillBeSolvent, Harmless, Sound, TodoGauge, Put, At, Needs, Perishable;
    var left, w, p := Left(task, catalog, seen).value, Written(task, seen, createdAt), Perishable(catalog, k.product);
    var n := |At(seen, k).lots|;
    assert ([task] + rest)[1..] == rest;
    SoundRest(catalog, k, held, n, [task] + rest);
    LeftSound(catalog, k, held, task, seen);
    LeftResolvesNothing(task, catalog, seen);
    SoundJoin(catalog, k, held, n, left, rest);
    if w.Some? { LotsGrow(seen, w.value, k); }
    SoundMore(catalog, k, held, held, n, |At(after, k).lots|, left + rest);
    if w.Some? && Target(w.value) == k {
      WritesAsHolder(catalog, k, held, n, task, seen, createdAt);
      if WillBeSolvent(At(seen, k), p, [task] + rest, k) {
        WriteSolvent(catalog, k, held, task, rest, seen, createdAt);
      }
    } else {
      if w.Some? { PutAt(seen, w.value, k); }
      ReadGauges(task, rest, catalog, seen, createdAt, k);
      SameGauges(At(seen, k), p, [task] + rest, left + rest, k);
    }
  }

  lemma {:induction false} StepResolves(catalog: Catalog, k: Key, th: Thread, db: Db, j: nat, cur: seq<Task>)
    requires Ready(catalog, k, th, db, j, cur) && cur[0].Resolve? && !Step(th, catalog, db).failed
    ensures Working(catalog, k, Step(th, catalog, db), db, j, Left(cur[0], catalog, Apply(db, th.writes)).value)
  {
    hide Left, WillBeSolvent, Harmless, Sound, At, Needs, Apply;
    var seen, s := Apply(db, th.writes), At(Apply(db, th.writes), k);
    FirstTask(catalog, k, th, db, j, cur);
    SoundRest(catalog, k, th.held, |s.lots|, cur);
    assert cur == [cur[0]];
    if k in th.held {
      OnlyResolve(s, Perishable(catalog, k.product), cur[0], k);
    }
    ResolveWorks(catalog, k, th.held, cur[0].job, seen);
    assert th.held + {} == th.held && [] + Script(th.jobs[j..]) == Script(th.jobs[j..]);
  }

  lemma {:induction false} OnlyResolve(s: Shelf, perishable: bool, task: Task, k: Key)
    requires task.Resolve? && WillBeSolvent(s, perishable, [task], k)
    ensures WillBeSolvent(s, perishable, [], k)
  {
    hide WillBeSolvent;
    forall g: Gauge ensures TodoGauge(g, [], k) == TodoGauge(g, [task], k) { GaugeOf(g, task, task, task, k); }
    SameGauges(s, perishable, [task], [], k);
  }

  lemma {:induction false} StepPlain(catalog: Catalog, k: Key, th: Thread, db: Db, j: nat, cur: seq<Task>)
    requires Ready(catalog, k, th, db, j, cur) && !cur[0].Resolve? && !Step(th, catalog, db).failed
    ensures Working(catalog, k, Step(th, catalog, db), db, j,
              Left(cur[0], catalog, Apply(db, th.writes)).value + cur[1..])
  {
    hide Left, Written, WillBeSolvent, Harmless, At, Needs, AllSound, Put, Apply, ShelfSolvent, Covered, ThreadRight;
    hide WritesHeldPair, Perishable, Script;
    var seen, next, task := Apply(db, th.writes), Step(th, catalog, db), cur[0];
    var left, w := Left(task, catalog, seen).value, Written(task, seen, th.clock(th.tick));
    FirstTask(catalog, k, th, db, j, cur);
    var after := Apply(db, next.writes);
    if w.Some? { ApplyOne(db, th.writes, w.value); }
    assert [task] + cur[1..] == cur;
    PlainWorks(catalog, k, th.held, task, cur[1..], seen, th.clock(th.tick), after);
    SoundMore(catalog, k, th.held, next.held, |At(after, k).lots|, |At(after, k).lots|, left + cur[1..]);
    JoinedTodo(left, cur[1..], Script(th.jobs[j..]));
    if k in next.held && k !in th.held {
      HarmlessSolvent(At(after, k), Perishable(catalog, k.product), left + cur[1..], k);
    }
  }

  lemma {:induction false} JoinedTodo(a: seq<Task>, b: seq<Task>, c: seq<Task>)
    ensures a + (b + c) == a + b + c
  {
  }

  lemma {:induction false} LeftThere(catalog: Catalog, k: Key, th: Thread, db: Db, j: nat, cur: seq<Task>)
    requires Working(catalog, k, th, db, j, cur) && cur != [] && CanStep(th) && !Step(th, catalog, db).failed
    ensures Left(cur[0], catalog, Apply(db, th.writes)).Some?
  {
    hide Left, Written, Apply, WillBeSolvent, Harmless, AllSound;
    assert th.todo[0] == cur[0];
  }

  /** A step keeps a transaction on course. */
  lemma {:induction false} StepWorks(catalog: Catalog, k: Key, th: Thread, db: Db, j: nat, cur: seq<Task>)
    returns (i: nat, now: seq<Task>)
    requires CanStep(th) && Working(catalog, k, th, db, j, cur) && WritesHeldPair(th, k) && ThreadRight(th, db)
    requires ShelfSolvent(At(db, k), Perishable(catalog, k.product)) && CarefulWith(catalog, k, th.jobs)
    requires !Step(th, catalog, db).failed
    ensures Working(catalog, k, Step(th, catalog, db), db, i, now)
  {
    hide Working, Left, ThreadRight, Step, CarefulWith, WritesHeldPair, ShelfSolvent, Apply;
    i, now := j, cur;
    if cur == [] {
      NextItem(catalog, k, th, db, j);
      i, now := j + 1, JobTasks(th.jobs[j]);
    }
    LeftThere(catalog, k, th, db, i, now);
    if now[0].Resolve? {
      StepResolves(catalog, k, th, db, i, now);
      now := Left(now[0], catalog, Apply(db, th.writes)).value;
    } else {
      StepPlain(catalog, k, th, db, i, now);
      now := Left(now[0], catalog, Apply(db, th.writes)).value + now[1..];
    }
  }

  lemma {:induction false} StepWritesHeld(catalog: Catalog, k: Key, th: Thread, db: Db, j: nat, cur: seq<Task>)
    requires CanStep(th) && Working(catalog, k, th, db, j, cur) && WritesHeldPair(th, k) && ThreadRight(th, db)
    requires ShelfSolvent(At(db, k), Perishable(catalog, k.product)) && CarefulWith(catalog, k, th.jobs)
    ensures WritesHeldPair(Step(th, catalog, db), k)
  {
    hide Left, Written, WillBeSolvent, Harmless, At, Needs, Sound, Put, ShelfSolvent, Covered, CarefulWith, Apply;
    var i, now := j, cur;
    if cur == [] {
      NextItem(catalog, k, th, db, j);
      i, now := j + 1, JobTasks(th.jobs[j]);
    }
    var seen := Apply(db, th.writes);
    var w := Written(now[0], seen, th.clock(th.tick));
    FirstTask(catalog, k, th, db, i, now);
    SoundRest(catalog, k, th.held, |At(seen, k).lots|, now);
    if w.Some? && Target(w.value) == k {
      WritesAsHolder(catalog, k, th.held, |At(seen, k).lots|, now[0], seen, th.clock(th.tick));
    }
  }

  // ---- Every run ----

  ghost predicate OnCourse(catalog: Catalog, k: Key, th: Thread, db: Db)
  {
    exists j, cur :: Working(catalog, k, th, db, j, cur)
  }

  ghost predicate ThreadCareful(catalog: Catalog, k: Key, th: Thread, db: Db)
  {
    CarefulWith(catalog, k, th.jobs) && WritesHeldPair(th, k) && (!th.failed ==> OnCourse(catalog, k, th, db))
  }

  ghost predicate SystemCareful(hash: Hash, catalog: Catalog, k: Key, s: System)
  {
    && SystemRight(hash, s) && ShelfSolvent(At(s.db, k), Perishable(catalog, k.product))
    && forall id :: id in s.live ==> ThreadCareful(catalog, k, s.live[id], s.db)
  }

  lemma {:induction false} FreshCareful(catalog: Catalog, k: Key, jobs: seq<Job>, clock: Clock, db: Db)
    requires CarefulWith(catalog, k, jobs)
    ensures ThreadCareful(catalog, k, Fresh(jobs, clock), db)
  {
    var th := Fresh(jobs, clock);
    assert jobs[0..] == jobs && [] + Script(jobs) == Script(jobs);
    assert Working(catalog, k, th, db, 0, []);
  }

  lemma {:induction false} StepCareful(catalog: Catalog, k: Key, th: Thread, db: Db)
    requires CanStep(th) && ThreadCareful(catalog, k, th, db) && ThreadRight(th, db)
    requires ShelfSolvent(At(db, k), Perishable(catalog, k.product))
    ensures ThreadCareful(catalog, k, Step(th, catalog, db), db)
  {
    hide Working, Step, ThreadRight, CarefulWith, WritesHeldPair, ShelfSolvent, At;
    var j, cur :| Working(catalog, k, th, db, j, cur);
    StepKeepsRequest(th, catalog, db);
    StepWritesHeld(catalog, k, th, db, j, cur);
    if !Step(th, catalog, db).failed {
      var i, now := StepWorks(catalog, k, th, db, j, cur);
    }
  }

  lemma {:induction false} ApplyLotsGrow(db: Db, writes: seq<Write>, k: Key)
    ensures |At(db, k).lots| <= |At(Apply(db, writes), k).lots|
  {
    hide At, Put;
    if writes != [] {
      var n := |writes| - 1;
      ApplyLotsGrow(db, writes[..n], k);
      LotsGrow(Apply(db, writes[..n]), writes[n], k);
    }
  }

  /** The commit of another transaction does not disturb: it holds other pairs, or this one does. */
  lemma {:induction false} OthersCommit(catalog: Catalog, k: Key, th: Thread, other: Thread, db: Db)
    requires ThreadCareful(catalog, k, th, db) && WritesHeldPair(other, k) && th.held !! other.held
    ensures ThreadCareful(catalog, k, th, Apply(db, other.writes))
  {
    hide WillBeSolvent, Harmless, AllSound, Apply, At, CarefulWith, Script;
    var after := Apply(db, other.writes);
    if !th.failed {
      var j, cur :| Working(catalog, k, th, db, j, cur);
      if k in th.held {
        ApplyElsewhere(db, other.writes, k);
        ApplyAgree(db, after, th.writes, {k});
        assert At(Apply(after, th.writes), k) == At(Apply(db, th.writes), k);
      } else {
        ApplyElsewhere(db, th.writes, k);
        ApplyElsewhere(after, th.writes, k);
        ApplyLotsGrow(db, other.writes, k);
        SoundMore(catalog, k, th.held, th.held, |At(db, k).lots|, |At(after, k).lots|, cur);
      }
      assert Working(catalog, k, th, after, j, cur);
    }
  }

  /** A transaction that has finished leaves the pair solvent. */
  lemma {:induction false} FinishedSolvent(catalog: Catalog, k: Key, th: Thread, db: Db)
    requires ThreadCareful(catalog, k, th, db) && Finished(th)
    requires ShelfSolvent(At(db, k), Perishable(catalog, k.product))
    ensures ShelfSolvent(At(Apply(db, th.writes), k), Perishable(catalog, k.product))
  {
    hide WillBeSolvent, Harmless, AllSound, At, CarefulWith, Script, ShelfSolvent, Apply;
    var j, cur :| Working(catalog, k, th, db, j, cur);
    assert cur == [];
    if k in th.held {
      DoneSolvent(At(Apply(db, th.writes), k), Perishable(catalog, k.product), k);
    } else {
      ApplyElsewhere(db, th.writes, k);
    }
  }

  lemma {:induction false} CommitCareful(hash: Hash, catalog: Catalog, k: Key, s: System, id: nat)
    requires SystemCareful(hash, catalog, k, s) && Enabled(hash, s, Commit(id))
    ensures SystemCareful(hash, catalog, k, Next(hash, catalog, s, Commit(id)))
  {
    hide ThreadCareful, ShelfSolvent, Apply, At, Perishable, ThreadRight, LedgerRight, Separate, Unblocked;
    var next := Next(hash, catalog, s, Commit(id));
    NextRight(hash, catalog, s, Commit(id));
    FinishedSolvent(catalog, k, s.live[id], s.db);
    forall t | t in next.live ensures ThreadCareful(catalog, k, next.live[t], next.db) {
      CarefulBeside(hash, catalog, k, s, t, id);
    }
  }

  lemma {:induction false} CarefulBeside(hash: Hash, catalog: Catalog, k: Key, s: System, t: nat, id: nat)
    requires Separate(hash, s) && t in s.live && id in s.live && t != id
    requires ThreadCareful(catalog, k, s.live[t], s.db) && ThreadCareful(catalog, k, s.live[id], s.db)
    ensures ThreadCareful(catalog, k, s.live[t], Apply(s.db, s.live[id].writes))
  {
    hide OnCourse, Apply, Separate, CarefulWith, WritesHeldPair;
    forall h | h in s.live[t].held ensures h !in s.live[id].held { SeparateHeldOnce(hash, s, t, id, h); }
    OthersCommit(catalog, k, s.live[t], s.live[id], s.db);
  }

  lemma {:induction false} NextCareful(hash: Hash, catalog: Catalog, k: Key, s: System, e: Event)
    requires SystemCareful(hash, catalog, k, s) && Enabled(hash, s, e)
    requires e.Begin? ==> CarefulWith(catalog, k, e.jobs)
    ensures SystemCareful(hash, catalog, k, Next(hash, catalog, s, e))
  {
    hide ThreadCareful, ShelfSolvent, Apply, At, Perishable, ThreadRight, LedgerRight, Separate, Unblocked, Step;
    hide CarefulWith;
    NextRight(hash, catalog, s, e);
    match e {
      case Begin(_, jobs, clock) => FreshCareful(catalog, k, jobs, clock, s.db);
      case Execute(id) => StepCareful(catalog, k, s.live[id], s.db);
      case Commit(id) => CommitCareful(hash, catalog, k, s, id);
      case Rollback(_) =>
    }
  }

  ghost predicate RunCareful(catalog: Catalog, k: Key, es: seq<Event>)
  {
    forall i :: 0 <= i < |es| && es[i].Begin? ==> CarefulWith(catalog, k, es[i].jobs)
  }

  lemma {:induction false} RunKeepsCareful(hash: Hash, catalog: Catalog, k: Key, db: Db, es: seq<Event>)
    requires LedgerRight(db) && ShelfSolvent(At(db, k), Perishable(catalog, k.product))
    requires RunCareful(catalog, k, es) && Run(hash, catalog, Start(db), es).Some?
    ensures SystemCareful(hash, catalog, k, Run(hash, catalog, Start(db), es).value)
  {
    hide SystemCareful, Next, Enabled, CarefulWith, LedgerRight, ShelfSolvent, At;
    if es == [] {
      StartCareful(hash, catalog, k, db);
    } else {
      var n := |es| - 1;
      RunKeepsCareful(hash, catalog, k, db, es[..n]);
      NextCareful(hash, catalog, k, Run(hash, catalog, Start(db), es[..n]).value, es[n]);
    }
  }

  lemma {:induction false} StartCareful(hash: Hash, catalog: Catalog, k: Key, db: Db)
    requires LedgerRight(db) && ShelfSolvent(At(db, k), Perishable(catalog, k.product))
    ensures SystemCareful(hash, catalog, k, Start(db))
  {
    hide ShelfSolvent, LedgerRight;
  }

  /** Over all runs from tables on which the pair is solvent: if every item that uses the pair or chooses one of
      its lots respects the discipline, then as long as its timestamps follow its rows the pair never shows a
      negative balance or lot, and its lots hold at most its stock. What other items do does not matter. */
  lemma {:induction false} AlwaysSolvent(hash: Hash, catalog: Catalog, db: Db, es: seq<Event>, k: Key)
    requires LedgerRight(db) && ShelfSolvent(At(db, k), Perishable(catalog, k.product))
    requires RunCareful(catalog, k, es) && Run(hash, catalog, Start(db), es).Some?
    ensures var shelf := At(Run(hash, catalog, Start(db), es).value.db, k);
            Chronological(shelf.rows) ==>
              && RunningSums(shelf.rows)
              && (forall i :: 0 <= i < |shelf.rows| ==> shelf.rows[i].balanceAfter >= 0)
              && (forall i :: 0 <= i < |shelf.lots| ==> shelf.lots[i].quantity >= 0)
              && LotUnits(shelf.lots) <= Balance(shelf.rows)
  {
    hide Run, Chronological, RunningSums, LotUnits, Balance, Units, LedgerRight, RunCareful;
    RunKeepsCareful(hash, catalog, k, db, es);
    var shelf := At(Run(hash, catalog, Start(db), es).value.db, k);
    if Chronological(shelf.rows) { BalanceIsUnits(shelf.rows); }
  }

  /** In particular from empty tables. */
  lemma {:induction false} AlwaysSolventFromEmpty(hash: Hash, catalog: Catalog, es: seq<Event>, k: Key)
    requires RunCareful(catalog, k, es) && Run(hash, catalog, Start(map[]), es).Some?
    ensures var shelf := At(Run(hash, catalog, Start(map[]), es).value.db, k);
            Chronological(shelf.rows) ==> 0 <= LotUnits(shelf.lots) <= Balance(shelf.rows)
  {
    hide Run, Chronological, LotUnits, Balance, RunCareful;
    EmptyTables(catalog);
    AlwaysSolvent(hash, catalog, map[], es, k);
    var shelf := At(Run(hash, catalog, Start(map[]), es).value.db, k);
    if Chronological(shelf.rows) { SumOfLots(shelf.lots); }
  }
}
