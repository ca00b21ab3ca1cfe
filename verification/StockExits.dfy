/**
 Exits, sales and transfers item by item (services/app/src/modules/stock/resolve-batches.ts, exits.ts,
 services/app/src/modules/sales/sales.ts): when an item is accepted, which lots it draws from and what it
 leaves in the sale or the transfer.
 */
module StockExits {
  import opened Prelude
  import opened Ledger
  import opened Fefo
  import opened Stock
  import opened StockInvariants

  // ---- When an item is accepted ----

  /** Units in the lots that hold any and expire on or before the cutoff. */
  function UnitsBy(lots: seq<Lot>, cutoff: int): int
  {
    if lots == [] then 0
    else (if lots[0].quantity > 0 && lots[0].expiry <= cutoff then lots[0].quantity else 0) + UnitsBy(lots[1..], cutoff)
  }

  function UnitsLeft(lots: seq<Lot>): int
  {
    if lots == [] then 0 else (if lots[0].quantity > 0 then lots[0].quantity else 0) + UnitsLeft(lots[1..])
  }

  ghost predicate Offers(bs: seq<Batch>, lots: seq<Lot>)
  {
    |bs| == |lots| &&
    forall i :: 0 <= i < |lots| ==> bs[i].expiry == lots[i].expiry && bs[i].quantity == lots[i].quantity
  }

  lemma {:induction false} OfferedUnits(bs: seq<Batch>, lots: seq<Lot>, cutoff: int)
    requires Offers(bs, lots)
    ensures UpTo(Positive(bs), cutoff) == UnitsBy(lots, cutoff) && Fefo.Total(Positive(bs)) == UnitsLeft(lots)
  {
    if lots != [] {
      OfferedUnits(bs[1..], lots[1..], cutoff);
      assert bs[0].quantity > 0 ==> Positive(bs)[1..] == Positive(bs[1..]);
    }
  }

  /**
   * An item of an exit, a sale or a transfer is refused for an unknown product, and otherwise exactly if there is
   * not enough: in the chosen lot, whosever it is, in the stock of a product that is not perishable, or in all the
   * lots of the pair together.
   */
  lemma {:induction false} ItemAcceptedIff(v: View, catalog: Catalog, clock: Clock, job: Job)
    requires !job.Credit? && job.quantity >= 1
    ensures var r := DoJob(v, catalog, clock, job);
      && (r == Err(UnknownProduct) <==> job.key.product !in catalog)
      && (r == Err(Insufficient) <==>
            && job.key.product in catalog
            && if job.pick.Some? then
                 FindLot(v.db, job.pick.value).None? || FindLot(v.db, job.pick.value).value.quantity < job.quantity
               else if !catalog[job.key.product] then CurrentStock(v.db, job.key) < job.quantity
               else UnitsLeft(At(v.db, job.key).lots) < job.quantity)
      && (r.Err? ==> r.error.UnknownProduct? || r.error.Insufficient?)
  {
    hide DoLines, Balance, FindLot, Suggest;
    var lots := At(v.db, job.key).lots;
    OfferedUnits(Batches(lots), lots, 0);
    SuggestionExact(Batches(lots), job.quantity, 0);
  }

  /** What the movements record about the choice of lots. */
  lemma {:induction false} FlagsTell(db: Db, perishable: bool, k: Key, quantity: int, pick: Option<LotId>, i: nat)
    requires ResolveExitLines(db, perishable, k, quantity, pick).Ok?
    requires i < |ResolveExitLines(db, perishable, k, quantity, pick).value|
    ensures var line := ResolveExitLines(db, perishable, k, quantity, pick).value[i];
      && (line.fefoOverridden <==> pick.Some?)
      && (line.fefoApplied <==> pick.None? && perishable)
  {
    hide Suggest, Balance;
  }

  // ---- Which lots it draws from ----

  lemma {:induction false} UnitsByUpdate(lots: seq<Lot>, i: nat, q: int, cutoff: int)
    requires i < |lots| && 0 <= q <= lots[i].quantity
    ensures UnitsBy(lots[i := lots[i].(quantity := lots[i].quantity - q)], cutoff) ==
            UnitsBy(lots, cutoff) - if lots[i].expiry <= cutoff then q else 0
  {
    var after := lots[i := lots[i].(quantity := lots[i].quantity - q)];
    if i > 0 {
      UnitsByUpdate(lots[1..], i - 1, q, cutoff);
      assert after[1..] == lots[1..][i - 1 := after[i]];
    } else {
      assert after[1..] == lots[1..];
    }
  }

  /** What the lines take from lots that expire by the cutoff. */
  function LinesBy(lots: seq<Lot>, lines: seq<Line>, cutoff: int): int
  {
    if lines == [] then 0
    else (if lines[0].lot.Some? && lines[0].lot.value.index < |lots| &&
             lots[lines[0].lot.value.index].expiry <= cutoff then lines[0].quantity else 0) +
         LinesBy(lots, lines[1..], cutoff)
  }

  lemma {:induction false} LinesByKept(a: seq<Lot>, b: seq<Lot>, lines: seq<Line>, cutoff: int)
    requires |a| == |b| && forall i :: 0 <= i < |a| ==> a[i].expiry == b[i].expiry
    ensures LinesBy(a, lines, cutoff) == LinesBy(b, lines, cutoff)
  {
    if lines != [] { LinesByKept(a, b, lines[1..], cutoff); }
  }

  lemma {:induction false} LinesReduce(v: View, clock: Clock, job: Job, lines: seq<Line>, cutoff: int)
    requires !job.Credit? && (job.Move? ==> job.to != job.key)
    requires LinesFit(At(v.db, job.key), true, job.key, lines)
    ensures UnitsBy(At(DoLines(v, clock, job, lines).db, job.key).lots, cutoff) ==
            UnitsBy(At(v.db, job.key).lots, cutoff) - LinesBy(At(v.db, job.key).lots, lines, cutoff)
    decreases |lines|
  {
    hide Balance, UnitsBy, DebitLine, MoveLine, At, LinesFit;
    if lines != [] {
      assert LineFits(At(v.db, job.key), true, job.key, lines[0]) by { FirstFits(At(v.db, job.key), job.key, lines); }
      var kind := if job.Debit? then job.kind else TransferOut;
      var s, v1 := At(v.db, job.key), DoLine(v, clock, job, lines[0]);
      if job.Debit? {
        DebitLineAt(v, clock, job, lines[0], job.key);
      } else {
        MoveLineAt(v, clock, job, lines[0], job.key);
      }
      TakenLeavesOthers(s, true, job.key, kind, lines, clock(v.tick));
      LinesReduce(v1, clock, job, lines[1..], cutoff);
      UnitsByUpdate(s.lots, lines[0].lot.value.index, lines[0].quantity, cutoff);
      LinesByKept(s.lots, At(v1.db, job.key).lots, lines[1..], cutoff);
    }
  }

  lemma {:induction false} FirstFits(s: Shelf, k: Key, lines: seq<Line>)
    requires lines != [] && LinesFit(s, true, k, lines)
    ensures LineFits(s, true, k, lines[0])
  {
  }

  lemma {:induction false} FefoLinesBy(lots: seq<Lot>, k: Key, items: seq<Batch>, cutoff: int)
    requires forall s :: s in items ==> s.id < |lots| && lots[s.id].expiry == s.expiry
    ensures LinesBy(lots, FefoLines(k, items), cutoff) == UpTo(items, cutoff)
  {
    if items != [] {
      assert items[0] in items && FefoLines(k, items)[1..] == FefoLines(k, items[1..]);
      FefoLinesBy(lots, k, items[1..], cutoff);
    }
  }

  lemma {:induction false} SuggestedLots(lots: seq<Lot>, quantity: int, s: Batch)
    requires quantity >= 1 && s in Suggest(Batches(lots), quantity).value.items
    ensures s.id < |lots| && lots[s.id].expiry == s.expiry
  {
    hide Suggest;
    SuggestionExecutable(Batches(lots), quantity);
    var b :| b in Batches(lots) && DrawnFrom(s, b);
  }

  /**
   * First expired, first out, in the tables: an accepted exit, sale or transfer of a perishable product without a
   * chosen lot takes from the pair's own lots, and by every date it has taken as much as it could from those that
   * expire until then.
   */
  lemma {:induction false} EarliestFirst(v: View, catalog: Catalog, clock: Clock, job: Job, cutoff: int)
    requires !job.Credit? && job.quantity >= 1 && job.pick.None? && (job.Move? ==> job.to != job.key)
    requires job.key.product in catalog && catalog[job.key.product] && DoJob(v, catalog, clock, job).Ok?
    ensures var before := At(v.db, job.key).lots;
      var after := At(DoJob(v, catalog, clock, job).value.db, job.key).lots;
      UnitsBy(after, cutoff) == UnitsBy(before, cutoff) - Min(job.quantity, UnitsBy(before, cutoff))
  {
    hide DoLines, UnitsBy, Suggest, LinesFit;
    var lots := At(v.db, job.key).lots;
    var items := Suggest(Batches(lots), job.quantity).value.items;
    SuggestionExact(Batches(lots), job.quantity, cutoff);
    OfferedUnits(Batches(lots), lots, cutoff);
    ResolvedLinesFit(v.db, true, job.key, job.quantity, None);
    LinesReduce(v, clock, job, FefoLines(job.key, items), cutoff);
    forall s | s in items ensures s.id < |lots| && lots[s.id].expiry == s.expiry {
      SuggestedLots(lots, job.quantity, s);
    }
    FefoLinesBy(lots, job.key, items, cutoff);
  }

  // ---- What it leaves in the sale or the transfer ----

  function PriceOf(job: Job): int
  {
    if job.Debit? && job.price.Some? then job.price.value else 0
  }

  function ItemOf(job: Job, line: Line): Item
    requires !job.Credit?
  {
    Item(job.key.product, line.lot, line.quantity, PriceOf(job))
  }

  function ItemsFrom(job: Job, lines: seq<Line>): seq<Item>
    requires !job.Credit?
  {
    seq(|lines|, i requires 0 <= i < |lines| => ItemOf(job, lines[i]))
  }

  lemma {:induction false} LinesLeave(v: View, clock: Clock, job: Job, lines: seq<Line>)
    requires !job.Credit? && (job.Debit? ==> job.price.Some?)
    ensures DoLines(v, clock, job, lines).items == v.items + ItemsFrom(job, lines)
    decreases |lines|
  {
    hide Balance, Put, Deposit;
    if lines == [] {
      assert v.items + [] == v.items;
    } else {
      var v1 := DoLine(v, clock, job, lines[0]);
      LineLeaves(v, clock, job, lines[0]);
      LinesLeave(v1, clock, job, lines[1..]);
      assert ItemsFrom(job, lines) == [ItemOf(job, lines[0])] + ItemsFrom(job, lines[1..]);
    }
  }

  lemma {:induction false} LineLeaves(v: View, clock: Clock, job: Job, line: Line)
    requires !job.Credit? && (job.Debit? ==> job.price.Some?)
    ensures DoLine(v, clock, job, line).items == v.items + [ItemOf(job, line)]
  {
    hide Balance, Put, FindLot, FindTwin;
  }

  function UnitsIn(group: seq<Item>): int
  {
    if group == [] then 0 else group[0].quantity + UnitsIn(group[1..])
  }

  /** The items that one requested item becomes: one with the chosen lot, one without a lot, or one for each of the
      pair's lots that it draws from. */
  ghost predicate Group(perishable: bool, k: Key, quantity: int, pick: Option<LotId>, price: int, group: seq<Item>)
  {
    && UnitsIn(group) == quantity
    && (forall i :: 0 <= i < |group| ==>
          group[i].product == k.product && group[i].unitPriceCents == price && group[i].quantity >= 1)
    && (pick.Some? || !perishable ==> group == [Item(k.product, pick, quantity, price)])
    && (pick.None? && perishable ==>
          && (forall i :: 0 <= i < |group| ==> group[i].lot.Some? && group[i].lot.value.home == k)
          && (forall i, j :: 0 <= i < j < |group| ==> group[i].lot != group[j].lot))
  }

  lemma {:induction false} UnitsOfLines(job: Job, lines: seq<Line>)
    requires !job.Credit?
    ensures UnitsIn(ItemsFrom(job, lines)) == LineUnits(lines)
  {
    if lines != [] {
      UnitsOfLines(job, lines[1..]);
      assert ItemsFrom(job, lines)[1..] == ItemsFrom(job, lines[1..]);
    }
  }

  lemma {:induction false} JobLeaves(v: View, catalog: Catalog, clock: Clock, job: Job) returns (group: seq<Item>)
    requires !job.Credit? && (job.Debit? ==> job.price.Some?) && job.quantity >= 1
    requires DoJob(v, catalog, clock, job).Ok?
    ensures DoJob(v, catalog, clock, job).value.items == v.items + group
    ensures Group(catalog[job.key.product], job.key, job.quantity, job.pick, PriceOf(job), group)
  {
    hide DoLines, Balance, DistinctLots;
    var p := catalog[job.key.product];
    var lines := ResolveExitLines(v.db, p, job.key, job.quantity, job.pick).value;
    group := ItemsFrom(job, lines);
    LinesLeave(v, clock, job, lines);
    UnitsOfLines(job, lines);
    ResolvedLinesTotal(v.db, p, job.key, job.quantity, job.pick);
    ResolvedLinesBacked(v.db, p, job.key, job.quantity, job.pick);
    if job.pick.Some? || !p {
      assert group == [Item(job.key.product, job.pick, job.quantity, PriceOf(job))];
    } else {
      BackedGroup(v.db, job, lines);
    }
  }

  lemma {:induction false} BackedGroup(db: Db, job: Job, lines: seq<Line>)
    requires !job.Credit? && job.pick.None? && LinesBacked(db, true, job.key, None, lines)
    ensures var group := ItemsFrom(job, lines);
      && (forall i :: 0 <= i < |group| ==> group[i].quantity >= 1)
      && (forall i :: 0 <= i < |group| ==> group[i].lot.Some? && group[i].lot.value.home == job.key)
      && (forall i, j :: 0 <= i < j < |group| ==> group[i].lot != group[j].lot)
  {
    forall i | 0 <= i < |lines|
      ensures lines[i].quantity >= 1 && lines[i].lot.Some? && lines[i].lot.value.home == job.key
    {
      assert LineBacked(db, true, job.key, None, lines[i]);
    }
  }

  function Flat(groups: seq<seq<Item>>): seq<Item>
  {
    if groups == [] then [] else groups[0] + Flat(groups[1..])
  }

  /** What an accepted sale stores: for each requested item, in order, one group with its product and price. */
  lemma {:induction false} SaleItemsGrouped(v: View, catalog: Catalog, clock: Clock, tenant: int, store: int,
      items: seq<SaleLine>) returns (groups: seq<seq<Item>>)
    requires DoJobs(v, catalog, clock, SaleJobs(tenant, store, items)).Ok?
    ensures DoJobs(v, catalog, clock, SaleJobs(tenant, store, items)).value.items == v.items + Flat(groups)
    ensures |groups| == |items| && forall i :: 0 <= i < |items| ==>
      && items[i].product in catalog
      && Group(catalog[items[i].product], Key(tenant, items[i].product, store), items[i].quantity, items[i].pick,
               items[i].unitPriceCents, groups[i])
    decreases |items|
  {
    hide DoJob, Group;
    groups := [];
    if items == [] {
      assert v.items + [] == v.items;
    } else {
      var jobs := SaleJobs(tenant, store, items);
      assert jobs[1..] == SaleJobs(tenant, store, items[1..]);
      KnownProduct(v, catalog, clock, jobs[0]);
      var group := JobLeaves(v, catalog, clock, jobs[0]);
      var rest := SaleItemsGrouped(DoJob(v, catalog, clock, jobs[0]).value, catalog, clock, tenant, store, items[1..]);
      groups := [group] + rest;
      assert groups[1..] == rest && v.items + group + Flat(rest) == v.items + (group + Flat(rest));
    }
  }

  lemma {:induction false} KnownProduct(v: View, catalog: Catalog, clock: Clock, job: Job)
    requires !job.Credit? && DoJob(v, catalog, clock, job).Ok?
    ensures job.key.product in catalog
  {
  }

  /** The same of a transfer, whose items carry no price. */
  lemma {:induction false} TransferItemsGrouped(v: View, catalog: Catalog, clock: Clock, tenant: int, origin: int,
      destination: int, items: seq<TransferLine>) returns (groups: seq<seq<Item>>)
    requires DoJobs(v, catalog, clock, TransferJobs(tenant, origin, destination, items)).Ok?
    ensures DoJobs(v, catalog, clock, TransferJobs(tenant, origin, destination, items)).value.items ==
            v.items + Flat(groups)
    ensures |groups| == |items| && forall i :: 0 <= i < |items| ==>
      && items[i].product in catalog
      && Group(catalog[items[i].product], Key(tenant, items[i].product, origin), items[i].quantity, items[i].pick, 0,
               groups[i])
    decreases |items|
  {
    hide DoJob, Group;
    groups := [];
    if items == [] {
      assert v.items + [] == v.items;
    } else {
      var jobs := TransferJobs(tenant, origin, destination, items);
      assert jobs[1..] == TransferJobs(tenant, origin, destination, items[1..]);
      KnownProduct(v, catalog, clock, jobs[0]);
      var group := JobLeaves(v, catalog, clock, jobs[0]);
      var v1 := DoJob(v, catalog, clock, jobs[0]).value;
      var rest := TransferItemsGrouped(v1, catalog, clock, tenant, origin, destination, items[1..]);
      groups := [group] + rest;
      assert groups[1..] == rest && v.items + group + Flat(rest) == v.items + (group + Flat(rest));
    }
  }
}
