/**
 What an entry leaves in the tables: the confirmation of an NF-e (services/app/src/modules/stock/nfe-import.ts:257-310)
 and the manual entry (entries.ts:21-72), stated on the items that came in.
 */
module StockEntries {
  import opened Prelude
  import opened Ledger
  import opened Stock
  import opened StockInvariants
  import opened StockBooks

  /** The items of the NF-e for this product, in order; none if its row is missing. */
  function ItemsOf(catalog: Catalog, items: seq<NfeLine>, product: int): seq<NfeLine>
  {
    if items == [] then []
    else (if items[0].product == product && product in catalog then [items[0]] else []) +
         ItemsOf(catalog, items[1..], product)
  }

  function ReceivedUnits(items: seq<NfeLine>): int
  {
    if items == [] then 0 else items[0].quantity + ReceivedUnits(items[1..])
  }

  /** An item brings a lot if the product is perishable and the operator has named one. */
  predicate BringsLot(perishable: bool, item: NfeLine) { perishable && item.override.Some? }

  /** The lots that these items bring, in order. */
  function LotsOf(perishable: bool, items: seq<NfeLine>): seq<Lot>
  {
    if items == [] then []
    else (if BringsLot(perishable, items[0])
          then [Lot(items[0].override.value.0, items[0].override.value.1, items[0].quantity)] else []) +
         LotsOf(perishable, items[1..])
  }

  /** The row of an item: its units, and the lot that came with it, which did not exist before. */
  ghost predicate EntryRow(row: Movement, k: Key, kind: Kind, perishable: bool, item: NfeLine, before: Shelf,
      after: Shelf)
  {
    && row.key == k && row.kind == kind && row.quantity == item.quantity
    && (row.lot.Some? <==> BringsLot(perishable, item))
    && (row.lot.Some? ==>
          && row.lot.value.home == k && |before.lots| <= row.lot.value.index < |after.lots|
          && after.lots[row.lot.value.index] ==
             Lot(item.override.value.0, item.override.value.1, item.quantity))
  }

  /** The items have come in, and nothing else: one row each after those there were, and their lots after those
      there were. */
  ghost predicate Entered(before: Shelf, after: Shelf, k: Key, kind: Kind, perishable: bool, items: seq<NfeLine>)
  {
    && |after.rows| == |before.rows| + |items| && after.rows[..|before.rows|] == before.rows
    && Units(after.rows) == Units(before.rows) + ReceivedUnits(items)
    && after.lots == before.lots + LotsOf(perishable, items)
    && forall i :: 0 <= i < |items| ==>
         EntryRow(after.rows[|before.rows| + i], k, kind, perishable, items[i], before, after)
  }

  lemma {:induction false} NothingEntered(s: Shelf, k: Key, kind: Kind, perishable: bool)
    ensures Entered(s, s, k, kind, perishable, [])
  {
    assert s.lots + [] == s.lots;
  }

  lemma {:induction false} CreditEnters(v: View, clock: Clock, k: Key, kind: Kind, perishable: bool, item: NfeLine)
    ensures var job := Credit(k, item.quantity, kind, if perishable then item.override else None);
            Entered(At(v.db, k), At(CreditLot(v, clock, job).db, k), k, kind, perishable, [item])
  {
    hide Units, Balance, CreditLot;
    var job := Credit(k, item.quantity, kind, if perishable then item.override else None);
    var s := At(v.db, k);
    CreditAt(v, clock, job, k);
    CreditedEnters(s, job, clock(v.tick), perishable, item);
  }

  lemma {:induction false} OneItem(perishable: bool, item: NfeLine)
    ensures ReceivedUnits([item]) == item.quantity
    ensures LotsOf(perishable, [item]) ==
      if BringsLot(perishable, item) then [Lot(item.override.value.0, item.override.value.1, item.quantity)] else []
  {
    assert [item][1..] == [];
  }

  lemma {:induction false} CreditedEnters(s: Shelf, job: Job, stamp: int, perishable: bool, item: NfeLine)
    requires job.Credit? && job.quantity == item.quantity
    requires job.lot == if perishable then item.override else None
    ensures Entered(s, Credited(s, job, stamp), job.key, job.kind, perishable, [item])
  {
    hide Units, Balance, LotsOf, ReceivedUnits;
    var after := Credited(s, job, stamp);
    UnitsSnoc(s.rows, after.rows[|s.rows|]);
    OneItem(perishable, item);
    assert s.lots + [] == s.lots;
  }

  lemma {:induction false} EnteredThen(a: Shelf, b: Shelf, c: Shelf, k: Key, kind: Kind, perishable: bool,
      item: NfeLine, rest: seq<NfeLine>)
    requires Entered(a, b, k, kind, perishable, [item]) && Entered(b, c, k, kind, perishable, rest)
    ensures Entered(a, c, k, kind, perishable, [item] + rest)
  {
    hide Units;
    var items := [item] + rest;
    assert items[1..] == rest && [item][1..] == [];
    assert LotsOf(perishable, [item]) + LotsOf(perishable, rest) == LotsOf(perishable, items);
    assert a.lots + LotsOf(perishable, items) == a.lots + LotsOf(perishable, [item]) + LotsOf(perishable, rest);
    assert ReceivedUnits([item]) == item.quantity + ReceivedUnits([]);
    assert c.rows[..|a.rows|] == c.rows[..|b.rows|][..|a.rows|];
    forall i | 0 <= i < |items|
      ensures EntryRow(c.rows[|a.rows| + i], k, kind, perishable, items[i], a, c)
    {
      if i == 0 {
        assert c.rows[|a.rows|] == c.rows[..|b.rows|][|a.rows|];
        assert EntryRow(b.rows[|a.rows|], k, kind, perishable, item, a, b);
      } else {
        assert EntryRow(c.rows[|b.rows| + (i - 1)], k, kind, perishable, rest[i - 1], b, c);
      }
    }
  }

  /** The pair `h` before and after a confirmation for the store. */
  ghost predicate Confirmed(before: Db, after: Db, catalog: Catalog, tenant: int, store: int, items: seq<NfeLine>,
      h: Key)
  {
    if h.tenant == tenant && h.store == store then
      Entered(At(before, h), At(after, h), h, NfeEntry, Perishable(catalog, h.product),
              ItemsOf(catalog, items, h.product))
    else At(after, h) == At(before, h)
  }

  lemma {:induction false} OneConfirmed(v: View, catalog: Catalog, clock: Clock, tenant: int, store: int, item: NfeLine,
      h: Key)
    requires item.product in catalog
    ensures var job := Credit(Key(tenant, item.product, store), item.quantity, NfeEntry,
                              if catalog[item.product] then item.override else None);
            Confirmed(v.db, CreditLot(v, clock, job).db, catalog, tenant, store, [item], h)
  {
    hide CreditLot, Entered;
    var k := Key(tenant, item.product, store);
    var job := Credit(k, item.quantity, NfeEntry, if catalog[item.product] then item.override else None);
    assert [item][1..] == [] && ItemsOf(catalog, [item], h.product) == if h.product == item.product then [item] else [];
    CreditAt(v, clock, job, h);
    CreditEnters(v, clock, k, NfeEntry, catalog[item.product], item);
    if h.product != item.product { NothingEntered(At(v.db, h), h, NfeEntry, Perishable(catalog, h.product)); }
  }

  /**
   * A confirmation succeeds and enters, in each pair of its store, exactly the items whose product exists: the stock
   * grows by the sum of their quantities, each perishable item with an override brings one lot with that number,
   * expiry and quantity, no other lot is added or changed, and every other pair stays as it was.
   */
  lemma {:induction false} ConfirmationExact(v: View, catalog: Catalog, clock: Clock, tenant: int, store: int,
      items: seq<NfeLine>, h: Key)
    ensures var r := DoJobs(v, catalog, clock, NfeJobs(catalog, tenant, store, items));
            r.Ok? && Confirmed(v.db, r.value.db, catalog, tenant, store, items, h)
    decreases |items|
  {
    hide CreditLot, Entered;
    if items == [] {
      NothingEntered(At(v.db, h), h, NfeEntry, Perishable(catalog, h.product));
    } else if items[0].product !in catalog {
      var rest := ItemsOf(catalog, items[1..], h.product);
      assert ItemsOf(catalog, items, h.product) == [] + rest == rest;
      ConfirmationExact(v, catalog, clock, tenant, store, items[1..], h);
    } else {
      var item := items[0];
      var jobs := NfeJobs(catalog, tenant, store, items);
      var v1 := CreditLot(v, clock, jobs[0]);
      assert jobs[1..] == NfeJobs(catalog, tenant, store, items[1..]);
      OneConfirmed(v, catalog, clock, tenant, store, item, h);
      ConfirmationExact(v1, catalog, clock, tenant, store, items[1..], h);
      ConfirmedThen(v.db, v1.db, DoJobs(v, catalog, clock, jobs).value.db, catalog, tenant, store, items, h);
    }
  }

  lemma {:induction false} ConfirmedThen(a: Db, b: Db, c: Db, catalog: Catalog, tenant: int, store: int,
      items: seq<NfeLine>, h: Key)
    requires items != [] && items[0].product in catalog
    requires Confirmed(a, b, catalog, tenant, store, [items[0]], h)
    requires Confirmed(b, c, catalog, tenant, store, items[1..], h)
    ensures Confirmed(a, c, catalog, tenant, store, items, h)
  {
    hide Entered;
    var item, p, rest := items[0], Perishable(catalog, h.product), ItemsOf(catalog, items[1..], h.product);
    assert [item][1..] == [] && ItemsOf(catalog, [], h.product) == [];
    if h.tenant == tenant && h.store == store {
      if h.product == item.product {
        assert ItemsOf(catalog, [item], h.product) == [item];
        EnteredThen(At(a, h), At(b, h), At(c, h), h, NfeEntry, p, item, rest);
      } else {
        assert ItemsOf(catalog, [item], h.product) == [] && ItemsOf(catalog, items, h.product) == rest;
        NothingThen(At(a, h), At(b, h), At(c, h), h, NfeEntry, p, rest);
      }
    }
  }

  lemma {:induction false} NothingThen(a: Shelf, b: Shelf, c: Shelf, k: Key, kind: Kind, perishable: bool,
      rest: seq<NfeLine>)
    requires Entered(a, b, k, kind, perishable, []) && Entered(b, c, k, kind, perishable, rest)
    ensures Entered(a, c, k, kind, perishable, rest)
  {
    assert b.rows == a.rows && b.lots == a.lots;
  }
}
