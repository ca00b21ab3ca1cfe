/**
 Where bulk creation leaves each item of an NF-e, and what it creates, read off the rows before and after it
 (services/app/src/modules/stock/nfe-import.ts:74-141).
 */
module NfeBulkOutcomes {
  import opened Prelude
  import opened Text
  import opened NfeBulk
  import opened NfeBulkLaws

  /** The supplier's code of an item. */
  function Code(item: Item): string { Trim(item.cProd) }

  /** Two items name the same goods: by barcode, or, if neither has one, by the supplier's code; an item with
      neither is like no other. */
  predicate SameGoods(items: seq<Item>, i: nat, j: nat)
    requires i < |items| && j < |items|
  {
    i == j ||
    if items[i].cEAN.Some? || items[j].cEAN.Some? then items[i].cEAN == items[j].cEAN
    else Code(items[i]) != "" && Code(items[i]) == Code(items[j])
  }

  /** A live product with the item's barcode, or for an item without one, with its code as SKU and no barcode. */
  predicate Knows(p: Product, item: Item) {
    p.live &&
    if item.cEAN.Some? then p.barcode == item.cEAN
    else Code(item) != "" && p.sku == Some(Code(item)) && p.barcode.None?
  }

  predicate Unknown(products: seq<Product>, item: Item) {
    forall p :: 0 <= p < |products| ==> !Knows(products[p], item)
  }

  /** The first open item with the same goods as item i. */
  predicate FirstOf(items: seq<Item>, i: nat, f: nat)
    requires i < |items|
  {
    IsOpen(items, f) && SameGoods(items, f, i) && forall j :: 0 <= j < f && IsOpen(items, j) ==> !SameGoods(items, j, i)
  }

  function NameOf(item: Item): string {
    if Trim(item.xProd) != "" then Trim(item.xProd)
    else if Code(item) != "" then Code(item) else "Produto sem nome"
  }

  /** A product made from the item: its barcode, name and cost, the supplier of the import, and its code or no SKU. */
  predicate MadeFrom(p: Product, item: Item, supplierId: Option<nat>) {
    p.live && p.barcode == item.cEAN && p.name == NameOf(item) && p.costPriceCents == item.vUnComCents &&
    p.supplierId == supplierId && (p.sku.Some? ==> p.sku.value == Code(item) && Code(item) != "")
  }

  lemma {:induction false} SameKeyIff(items: seq<Item>, i: nat, j: nat)
    requires Parsed(items) && i < |items| && j < |items|
    ensures KeyOf(items[i], i) == KeyOf(items[j], j) <==> SameGoods(items, i, j)
  {
    hide Trim;
  }

  lemma {:induction false} KnowsIff(p: Product, items: seq<Item>, i: nat)
    requires Parsed(items) && i < |items|
    ensures Answers(p, KeyOf(items[i], i)) <==> Knows(p, items[i])
  {
    hide Trim;
  }

  lemma {:induction false} UnknownIff(products: seq<Product>, items: seq<Item>, i: nat)
    requires Parsed(items) && i < |items|
    ensures Existing(products, KeyOf(items[i], i)).None? <==> Unknown(products, items[i])
    ensures var e := Existing(products, KeyOf(items[i], i));
      e.Some? ==> Knows(products[e.value], items[i]) && forall p :: 0 <= p < e.value ==> !Knows(products[p], items[i])
  {
    hide Knows, Answers, KeyOf;
    forall p | 0 <= p < |products| ensures Answers(products[p], KeyOf(items[i], i)) <==> Knows(products[p], items[i]) {
      KnowsIff(products[p], items, i);
    }
  }

  // ---------------------------------------------------------------- first come

  ghost predicate Ascending(xs: seq<nat>) { forall i, j :: 0 <= i < j < |xs| ==> xs[i] < xs[j] }

  lemma {:induction false} OpenAscends(items: seq<Item>, n: nat)
    requires n <= |items|
    ensures Ascending(Open(items, n))
  {
    if n > 0 {
      OpenAscends(items, n - 1);
      OpenInside(items, n - 1);
    }
  }

  /** No open item of the same key comes before the planned one. */
  ghost predicate Earliest(items: seq<Item>, open: seq<nat>, p: Pending) {
    forall i :: i in open && i < |items| && KeyOf(items[i], i) == p.key ==> p.item <= i
  }

  lemma {:induction false} ShorterAscends(open: seq<nat>)
    requires open != [] && Ascending(open)
    ensures Ascending(open[..|open| - 1])
  {
  }

  lemma {:induction false} StaysEarliest(items: seq<Item>, open: seq<nat>, p: Pending)
    requires open != [] && Ascending(open) && p.item in open[..|open| - 1]
    requires Earliest(items, open[..|open| - 1], p)
    ensures Earliest(items, open, p)
  {
    hide KeyOf;
    var shorter, last := open[..|open| - 1], open[|open| - 1];
    assert forall i :: i in open ==> i in shorter || i == last;
  }

  lemma {:induction false} PlannedFirst(products: seq<Product>, items: seq<Item>, open: seq<nat>)
    requires Ascending(open) && forall k :: 0 <= k < |open| ==> open[k] < |items|
    ensures forall k :: 0 <= k < |ToCreate(products, items, open)| ==>
      Earliest(items, open, ToCreate(products, items, open)[k])
  {
    hide KeyOf, Existing, Earliest, Ascending;
    if open != [] {
      var n := |open| - 1;
      var shorter, last := open[..n], open[n];
      assert Ascending(shorter) by { ShorterAscends(open); }
      var before, pending := ToCreate(products, items, shorter), ToCreate(products, items, open);
      PlannedFirst(products, items, shorter);
      ToCreateFits(products, items, shorter);
      forall k | 0 <= k < |before| ensures Earliest(items, open, before[k]) {
        assert Fits(products, items, shorter, before[k]) && Earliest(items, shorter, before[k]);
        StaysEarliest(items, open, before[k]);
      }
      if pending != before {
        NewIsEarliest(products, items, open);
      }
    }
  }

  lemma {:induction false} NewIsEarliest(products: seq<Product>, items: seq<Item>, open: seq<nat>)
    requires open != [] && forall k :: 0 <= k < |open| ==> open[k] < |items|
    requires ToCreate(products, items, open) != ToCreate(products, items, open[..|open| - 1])
    ensures var last := open[|open| - 1]; Earliest(items, open, Pending(KeyOf(items[last], last), last))
  {
    hide KeyOf, Existing, ToCreate, HasKey, KeysApart;
    var shorter, last := open[..|open| - 1], open[|open| - 1];
    NewIsNeeded(products, items, open);
    ToCreateCovers(products, items, shorter);
    assert forall i :: i in open ==> i in shorter || i == last;
  }

  lemma {:induction false} NewIsNeeded(products: seq<Product>, items: seq<Item>, open: seq<nat>)
    requires open != [] && forall k :: 0 <= k < |open| ==> open[k] < |items|
    requires ToCreate(products, items, open) != ToCreate(products, items, open[..|open| - 1])
    ensures var last := open[|open| - 1];
      Existing(products, KeyOf(items[last], last)).None? &&
      !HasKey(ToCreate(products, items, open[..|open| - 1]), KeyOf(items[last], last))
  {
    hide KeyOf, Existing, HasKey;
  }

  lemma {:induction false} PlanIsFirst(products: seq<Product>, items: seq<Item>, k: nat, i: nat)
    requires Parsed(items) && k < |PendingOf(products, items)| && IsOpen(items, i)
    requires PendingOf(products, items)[k].key == KeyOf(items[i], i)
    ensures FirstOf(items, i, PendingOf(products, items)[k].item)
  {
    hide KeyOf, Existing, ToCreate, SameGoods, Parsed;
    var open, p := OpenOf(items), PendingOf(products, items)[k];
    assert Fits(products, items, open, p);
    OpenAscends(items, |items|);
    OpenInside(items, |items|);
    PlannedFirst(products, items, open);
    SameKeyIff(items, p.item, i);
    forall j | 0 <= j < p.item && IsOpen(items, j) ensures !SameGoods(items, j, i) {
      SameKeyIff(items, j, i);
      assert j in open && Earliest(items, open, p);
    }
  }

  lemma {:induction false} CreatedMadeFrom(products: seq<Product>, imp: Import, k: nat)
    requires k < |PendingOf(products, imp.items)|
    ensures var pending := PendingOf(products, imp.items);
      MadeFrom(CreateAll(products, imp.items, imp.supplierId, pending)[|products| + k], imp.items[pending[k].item],
               imp.supplierId)
  {
    hide PendingOf, CreateAll, Trim, SkuTaken;
    CreatedIs(products, imp.items, imp.supplierId, PendingOf(products, imp.items), k);
  }

  /**
   * Each open item ends on the first product that knows its goods, unchanged, or, if none does, on a new product made
   * from the first open item with the same goods.
   */
  lemma {:induction false} ItemOutcome(products: seq<Product>, imp: Import, maxProducts: int, i: nat)
    returns (first: nat)
    requires Parsed(imp.items) && Bulk(products, imp, maxProducts).Ok? && IsOpen(imp.items, i)
    ensures var o := Bulk(products, imp, maxProducts).value;
      && |o.items| == |imp.items| && o.items[i].product.Some? && o.items[i].product.value < |o.products|
      && o.items[i] == imp.items[i].(product := o.items[i].product, status := o.items[i].status)
      && var p := o.items[i].product.value;
         if Unknown(products, imp.items[i]) then
           && o.items[i].status == Created && p >= |products|
           && FirstOf(imp.items, i, first) && MadeFrom(o.products[p], imp.items[first], imp.supplierId)
         else
           && o.items[i].status == Matched && p < |products| && o.products[p] == products[p]
           && Knows(products[p], imp.items[i]) && forall q :: 0 <= q < p ==> !Knows(products[q], imp.items[i])
  {
    hide KeyOf, PendingOf, CreateAll, LinkAll, CreatedIds, Existing, Knows, Parsed, FirstOf, MadeFrom;
    first := i;
    var o, pending := Bulk(products, imp, maxProducts).value, PendingOf(products, imp.items);
    LinkOf(products, imp, maxProducts, i);
    UnknownIff(products, imp.items, i);
    CreateAllKeeps(products, imp.items, imp.supplierId, pending);
    var key := KeyOf(imp.items[i], i);
    if Existing(products, key).None? {
      var k :| 0 <= k < |pending| && pending[k].key == key && o.items[i].product.value == |products| + k;
      first := pending[k].item;
      PlanIsFirst(products, imp.items, k, i);
      CreatedMadeFrom(products, imp, k);
    } else {
      assert o.products[Existing(products, key).value] == o.products[..|products|][Existing(products, key).value];
    }
  }

  /** Two open items end on the same product exactly if they name the same goods. */
  lemma {:induction false} SameProductIff(products: seq<Product>, imp: Import, maxProducts: int, i: nat, j: nat)
    requires Parsed(imp.items) && Bulk(products, imp, maxProducts).Ok?
    requires IsOpen(imp.items, i) && IsOpen(imp.items, j)
    ensures var items := Bulk(products, imp, maxProducts).value.items;
      |items| == |imp.items| && (items[i].product == items[j].product <==> SameGoods(imp.items, i, j))
  {
    hide Bulk, KeyOf, SameGoods;
    EqualKeysShareProduct(products, imp, maxProducts, i, j);
    SameKeyIff(imp.items, i, j);
  }

  // ---------------------------------------------------------------- how many

  /** The open items whose goods no product knows and no earlier open item names. */
  function NewGoods(products: seq<Product>, items: seq<Item>): set<nat> {
    set i | 0 <= i < |items| && IsOpen(items, i) && FirstOf(items, i, i) && Unknown(products, items[i])
  }

  function PlannedItems(pending: seq<Pending>): set<nat> { set k | 0 <= k < |pending| :: pending[k].item }

  lemma {:induction false} PlannedCount(pending: seq<Pending>)
    requires forall j, k :: 0 <= j < k < |pending| ==> pending[j].item != pending[k].item
    ensures |PlannedItems(pending)| == |pending|
  {
    if pending != [] {
      var n := |pending| - 1;
      PlannedCount(pending[..n]);
      assert PlannedItems(pending) == PlannedItems(pending[..n]) + {pending[n].item};
      assert pending[n].item !in PlannedItems(pending[..n]);
    }
  }

  lemma {:induction false} NewGoodsPlanned(products: seq<Product>, items: seq<Item>)
    requires Parsed(items)
    ensures NewGoods(products, items) == PlannedItems(PendingOf(products, items))
    ensures |NewGoods(products, items)| == |PendingOf(products, items)|
  {
    hide KeyOf, Existing, ToCreate, SameGoods, Knows, Parsed, Unknown, FirstOf;
    var open, pending := OpenOf(items), PendingOf(products, items);
    OpenInside(items, |items|);
    ToCreateCovers(products, items, open);
    forall i ensures i in NewGoods(products, items) <==> i in PlannedItems(pending) {
      if i in NewGoods(products, items) {
        UnknownIff(products, items, i);
        assert i in open && HasKey(pending, KeyOf(items[i], i));
        var k :| 0 <= k < |pending| && pending[k].key == KeyOf(items[i], i);
        PlanIsFirst(products, items, k, i);
        OneFirst(items, i, i, pending[k].item);
      }
      if i in PlannedItems(pending) {
        var k :| 0 <= k < |pending| && pending[k].item == i;
        assert Fits(products, items, open, pending[k]);
        UnknownIff(products, items, i);
        PlanIsFirst(products, items, k, i);
      }
    }
    forall j, k | 0 <= j < k < |pending| ensures pending[j].item != pending[k].item {
      assert Fits(products, items, open, pending[j]) && Fits(products, items, open, pending[k]);
      PendingKeysDiffer(products, items, j, k);
    }
    PlannedCount(pending);
  }

  lemma {:induction false} OneFirst(items: seq<Item>, i: nat, a: nat, b: nat)
    requires i < |items| && FirstOf(items, i, a) && FirstOf(items, i, b)
    ensures a == b
  {
  }

  function LiveProducts(products: seq<Product>): set<nat> { set p | 0 <= p < |products| && products[p].live }

  lemma {:induction false} LiveCounted(products: seq<Product>)
    ensures LiveCount(products) == |LiveProducts(products)|
  {
    if products != [] {
      var n := |products| - 1;
      LiveCounted(products[..n]);
      assert LiveProducts(products) == LiveProducts(products[..n]) + if products[n].live then {n} else {};
    }
  }

  /** The whole batch is refused exactly if the import is not in review or its new goods do not fit the plan beside
      the live products; otherwise exactly one product is created for each. */
  lemma {:induction false} CreatedPerGoods(products: seq<Product>, imp: Import, maxProducts: int)
    requires Parsed(imp.items)
    ensures var fresh_ := NewGoods(products, imp.items);
      && (Bulk(products, imp, maxProducts).Ok? <==>
            imp.status.PendingReview? &&
            (fresh_ == {} || |LiveProducts(products)| + |fresh_| <= maxProducts))
      && (Bulk(products, imp, maxProducts).Ok? ==>
            var o := Bulk(products, imp, maxProducts).value;
            && o.created == |fresh_| && o.linked == |OpenItems(imp.items)|
            && |o.products| == |products| + |fresh_| && o.products[..|products|] == products)
  {
    hide CreateAll, LinkAll, CreatedIds, PendingOf, NewGoods, LiveCount, LiveProducts, Parsed;
    NewGoodsPlanned(products, imp.items);
    LiveCounted(products);
    OpenCounted(imp.items, |imp.items|);
    CreateAllKeeps(products, imp.items, imp.supplierId, PendingOf(products, imp.items));
    assert NewGoods(products, imp.items) == {} <==> |NewGoods(products, imp.items)| == 0;
  }

  function OpenItems(items: seq<Item>): set<nat> { set i | 0 <= i < |items| && items[i].status.Unmatched? }

  lemma {:induction false} OpenCounted(items: seq<Item>, n: nat)
    requires n <= |items|
    ensures |Open(items, n)| == |set i | 0 <= i < n && items[i].status.Unmatched?|
  {
    if n > 0 {
      OpenCounted(items, n - 1);
      assert (set i | 0 <= i < n && items[i].status.Unmatched?) ==
             (set i | 0 <= i < n - 1 && items[i].status.Unmatched?) +
             if items[n - 1].status.Unmatched? then {n - 1} else {};
    }
  }
}
