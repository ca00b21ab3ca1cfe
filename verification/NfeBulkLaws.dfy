/** What bulk creation from an NF-e guarantees, for every catalog, import and plan limit. */
module NfeBulkLaws {
  import opened Prelude
  import opened Text
  import opened NfeBulk

  /** No two live products share a barcode (the application's own rule; the table has no such constraint). */
  predicate LiveBarcodesUnique(products: seq<Product>) {
    forall p, q :: 0 <= p < q < |products| && products[p].live && products[q].live && products[p].barcode.Some? ==>
      products[p].barcode != products[q].barcode
  }

  /** UNIQUE (tenant_id, sku), deleted products included. */
  predicate SkusUnique(products: seq<Product>) {
    forall p, q :: 0 <= p < q < |products| && products[p].sku.Some? ==> products[p].sku != products[q].sku
  }

  /** What the parser guarantees: a barcode is absent or non-empty. */
  predicate Parsed(items: seq<Item>) {
    forall i :: 0 <= i < |items| ==> (items[i].cEAN.Some? <==> HasEan(items[i]))
  }

  /** The keys of open items that no product answers. */
  function UnseenKeys(products: seq<Product>, items: seq<Item>): set<Key> {
    set i | 0 <= i < |items| && items[i].status.Unmatched? && Existing(products, KeyOf(items[i], i)).None?
      :: KeyOf(items[i], i)
  }

  predicate IsOpen(items: seq<Item>, i: nat) { i < |items| && items[i].status.Unmatched? }

  // ---------------------------------------------------------------- the created products

  lemma {:induction false} CreateAllKeeps(products: seq<Product>, items: seq<Item>, supplierId: Option<nat>,
                                          pending: seq<Pending>)
    requires forall j :: 0 <= j < |pending| ==> pending[j].item < |items|
    ensures CreateAll(products, items, supplierId, pending)[..|products|] == products
    decreases |pending|
  {
    if pending != [] {
      CreateAllKeeps(products, items, supplierId, pending[..|pending| - 1]);
    }
  }

  lemma {:induction false} CreateAllAt(products: seq<Product>, items: seq<Item>, supplierId: Option<nat>,
                                       pending: seq<Pending>, k: nat)
    requires forall j :: 0 <= j < |pending| ==> pending[j].item < |items|
    requires k < |pending|
    ensures var p := CreateAll(products, items, supplierId, pending)[|products| + k];
      p.live && p.barcode == items[pending[k].item].cEAN
    decreases |pending|
  {
    if k < |pending| - 1 {
      CreateAllAt(products, items, supplierId, pending[..|pending| - 1], k);
    }
  }

  lemma {:induction false} CreateAllSkus(products: seq<Product>, items: seq<Item>, supplierId: Option<nat>,
                                         pending: seq<Pending>)
    requires forall j :: 0 <= j < |pending| ==> pending[j].item < |items|
    requires SkusUnique(products)
    ensures SkusUnique(CreateAll(products, items, supplierId, pending))
    decreases |pending|
  {
    if pending != [] {
      CreateAllSkus(products, items, supplierId, pending[..|pending| - 1]);
    }
  }

  lemma {:induction false} CreateAllLive(products: seq<Product>, items: seq<Item>, supplierId: Option<nat>,
                                         pending: seq<Pending>)
    requires forall j :: 0 <= j < |pending| ==> pending[j].item < |items|
    ensures LiveCount(CreateAll(products, items, supplierId, pending)) == LiveCount(products) + |pending|
    decreases |pending|
  {
    if pending != [] {
      var before := CreateAll(products, items, supplierId, pending[..|pending| - 1]);
      var r := CreateAll(products, items, supplierId, pending);
      CreateAllLive(products, items, supplierId, pending[..|pending| - 1]);
      assert r[..|r| - 1] == before;
    }
  }

  /** A barcode among the created products names their key. */
  lemma {:induction false} PendingEan(products: seq<Product>, items: seq<Item>, k: nat)
    requires Parsed(items) && k < |PendingOf(products, items)|
    requires items[PendingOf(products, items)[k].item].cEAN.Some?
    ensures PendingOf(products, items)[k].key == Ean(items[PendingOf(products, items)[k].item].cEAN.value)
  {
    assert Fits(products, items, OpenOf(items), PendingOf(products, items)[k]);
  }

  lemma {:induction false} PendingKeysDiffer(products: seq<Product>, items: seq<Item>, j: nat, k: nat)
    requires j < |PendingOf(products, items)| && k < |PendingOf(products, items)| && j != k
    ensures PendingOf(products, items)[j].key != PendingOf(products, items)[k].key
  {
    ToCreateCovers(products, items, OpenOf(items));
  }

  lemma {:induction false} CreatedBarcodeFresh(products: seq<Product>, items: seq<Item>, supplierId: Option<nat>,
      p: nat, k: nat)
    requires Parsed(items) && k < |PendingOf(products, items)| && p < |products| + k
    ensures var after := CreateAll(products, items, supplierId, PendingOf(products, items));
      after[p].live && after[p].barcode.Some? ==> after[p].barcode != after[|products| + k].barcode
  {
    hide PendingOf, CreateAll, KeyOf, Existing;
    var pending := PendingOf(products, items);
    var after := CreateAll(products, items, supplierId, pending);
    CreateAllKeeps(products, items, supplierId, pending);
    CreateAllAt(products, items, supplierId, pending, k);
    if after[|products| + k].barcode.Some? {
      PendingEan(products, items, k);
      if p < |products| {
        assert after[p] == products[p];
        assert Existing(products, pending[k].key).None? && !Answers(products[p], pending[k].key);
      } else {
        CreateAllAt(products, items, supplierId, pending, p - |products|);
        PendingKeysDiffer(products, items, p - |products|, k);
        if after[p].barcode.Some? {
          PendingEan(products, items, p - |products|);
        }
      }
    }
  }

  /** Live barcodes and SKUs that were unique stay unique. */
  lemma {:induction false} BulkKeepsUnique(products: seq<Product>, imp: Import, maxProducts: int)
    requires Parsed(imp.items) && Bulk(products, imp, maxProducts).Ok?
    requires LiveBarcodesUnique(products) && SkusUnique(products)
    ensures LiveBarcodesUnique(Bulk(products, imp, maxProducts).value.products)
    ensures SkusUnique(Bulk(products, imp, maxProducts).value.products)
  {
    var pending := PendingOf(products, imp.items);
    var after := CreateAll(products, imp.items, imp.supplierId, pending);
    CreateAllKeeps(products, imp.items, imp.supplierId, pending);
    CreateAllSkus(products, imp.items, imp.supplierId, pending);
    forall p, q | 0 <= p < q < |after| && after[p].live && after[q].live && after[p].barcode.Some?
      ensures after[p].barcode != after[q].barcode
    {
      if q < |products| {
        assert after[p] == products[p] && after[q] == products[q];
      } else {
        CreatedBarcodeFresh(products, imp.items, imp.supplierId, p, q - |products|);
      }
    }
  }

  // ---------------------------------------------------------------- the links

  /** The product an open item is linked to: the one that answers its key, or the one created for it. */
  lemma {:induction false} LinkOf(products: seq<Product>, imp: Import, maxProducts: int, i: nat)
    requires Bulk(products, imp, maxProducts).Ok? && IsOpen(imp.items, i)
    ensures var o := Bulk(products, imp, maxProducts).value;
      var key := KeyOf(imp.items[i], i);
      && |o.items| == |imp.items| && o.items[i].product.Some?
      && o.items[i] == imp.items[i].(product := o.items[i].product, status := o.items[i].status)
      && (Existing(products, key).Some? ==>
            o.items[i].product == Existing(products, key) && o.items[i].status == Matched)
      && (Existing(products, key).None? ==> o.items[i].status == Created && exists k ::
            0 <= k < |PendingOf(products, imp.items)| && PendingOf(products, imp.items)[k].key == key &&
            o.items[i].product.value == |products| + k)
  {
    var pending := PendingOf(products, imp.items);
    OpenInside(imp.items, |imp.items|);
    assert i in OpenOf(imp.items);
    EveryOpenAnswered(products, imp.items, i);
    ToCreateCovers(products, imp.items, OpenOf(imp.items));
    CreatedIdsAre(pending, |products|);
    var key := KeyOf(imp.items[i], i);
    if Existing(products, key).None? {
      var k :| 0 <= k < |pending| && pending[k].key == key;
      assert CreatedIds(pending, |products|)[key] == |products| + k;
    }
  }

  /** On success nothing stays unmatched, so confirmation cannot be refused for that; items already linked
      keep their link. */
  lemma {:induction false} BulkLeavesNoneUnmatched(products: seq<Product>, imp: Import, maxProducts: int)
    requires Bulk(products, imp, maxProducts).Ok?
    ensures var items := Bulk(products, imp, maxProducts).value.items;
      && |items| == |imp.items|
      && (forall i :: 0 <= i < |items| ==> !items[i].status.Unmatched?)
      && (forall i :: 0 <= i < |items| && !IsOpen(imp.items, i) ==> items[i] == imp.items[i])
      && CheckConfirm(imp.(items := items)) == Ok(())
  {
    var items := Bulk(products, imp, maxProducts).value.items;
    forall i | 0 <= i < |items| ensures !items[i].status.Unmatched? {
      if IsOpen(imp.items, i) {
        LinkOf(products, imp, maxProducts, i);
      }
    }
  }

  /** One product answers at most one key. */
  lemma {:induction false} OneKeyAnswered(p: Product, key: Key, other: Key)
    requires Answers(p, key) && Answers(p, other)
    ensures key == other
  {
  }

  /** Two open items end up on the same product exactly when their keys are equal. */
  lemma {:induction false} EqualKeysShareProduct(products: seq<Product>, imp: Import, maxProducts: int, i: nat, j: nat)
    requires Bulk(products, imp, maxProducts).Ok? && IsOpen(imp.items, i) && IsOpen(imp.items, j)
    ensures var items := Bulk(products, imp, maxProducts).value.items;
      && |items| == |imp.items|
      && (items[i].product == items[j].product <==> KeyOf(imp.items[i], i) == KeyOf(imp.items[j], j))
  {
    hide Bulk, KeyOf, ToCreate;
    LinkOf(products, imp, maxProducts, i);
    LinkOf(products, imp, maxProducts, j);
    var ki, kj := KeyOf(imp.items[i], i), KeyOf(imp.items[j], j);
    var ei, ej := Existing(products, ki), Existing(products, kj);
    if ei.Some? && ej.Some? && ei == ej {
      OneKeyAnswered(products[ei.value], ki, kj);
    }
    ToCreateCovers(products, imp.items, OpenOf(imp.items));
  }

  lemma {:induction false} CreatedAnswers(products: seq<Product>, items: seq<Item>, supplierId: Option<nat>, k: nat)
    requires k < |PendingOf(products, items)| && PendingOf(products, items)[k].key.Ean?
    ensures Answers(CreateAll(products, items, supplierId, PendingOf(products, items))[|products| + k],
                    PendingOf(products, items)[k].key)
  {
    var pending := PendingOf(products, items);
    assert Fits(products, items, OpenOf(items), pending[k]);
    CreateAllAt(products, items, supplierId, pending, k);
  }

  /** An item with a barcode is linked to a live product with that barcode, whether found or created. */
  lemma {:induction false} LinkedByBarcode(products: seq<Product>, imp: Import, maxProducts: int, i: nat)
    requires Parsed(imp.items) && Bulk(products, imp, maxProducts).Ok?
    requires IsOpen(imp.items, i) && imp.items[i].cEAN.Some?
    ensures var o := Bulk(products, imp, maxProducts).value;
      && |o.items| == |imp.items| && o.items[i].product.Some? && o.items[i].product.value < |o.products|
      && Answers(o.products[o.items[i].product.value], Ean(imp.items[i].cEAN.value))
  {
    hide CreateAll, PendingOf, LinkAll, Existing, Trim;
    LinkOf(products, imp, maxProducts, i);
    var o := Bulk(products, imp, maxProducts).value;
    var key := KeyOf(imp.items[i], i);
    var pending := PendingOf(products, imp.items);
    CreateAllKeeps(products, imp.items, imp.supplierId, pending);
    if Existing(products, key).Some? {
      assert o.products[Existing(products, key).value] == products[Existing(products, key).value];
    } else {
      var k :| 0 <= k < |pending| && pending[k].key == key && o.items[i].product.value == |products| + k;
      CreatedAnswers(products, imp.items, imp.supplierId, k);
    }
  }

  /**
   * So a later import with the same barcode reuses that very product, as long as live barcodes were
   * unique to begin with.
   */
  lemma {:induction false} LaterImportReuses(products: seq<Product>, imp: Import, maxProducts: int, i: nat)
    requires Parsed(imp.items) && Bulk(products, imp, maxProducts).Ok?
    requires LiveBarcodesUnique(products) && SkusUnique(products)
    requires IsOpen(imp.items, i) && imp.items[i].cEAN.Some?
    ensures var o := Bulk(products, imp, maxProducts).value;
      && |o.items| == |imp.items|
      && Existing(o.products, Ean(imp.items[i].cEAN.value)) == o.items[i].product
  {
    var o := Bulk(products, imp, maxProducts).value;
    var key := Ean(imp.items[i].cEAN.value);
    BulkKeepsUnique(products, imp, maxProducts);
    LinkedByBarcode(products, imp, maxProducts, i);
    var p, q := o.items[i].product.value, Existing(o.products, key);
    assert Answers(o.products[p], key) && q.Some? && Answers(o.products[q.value], key);
  }

  /** An earlier item that also needs a new product has the same code, and so takes the SKU first. */
  ghost predicate ClaimedEarlier(products: seq<Product>, items: seq<Item>, sku: string) {
    exists j, k :: 0 <= j < k < |PendingOf(products, items)| && PendingOf(products, items)[k].key == Sku(sku) &&
      Trim(items[PendingOf(products, items)[j].item].cProd) == sku
  }

  ghost predicate ClaimsBefore(items: seq<Item>, pending: seq<Pending>, k: nat, sku: string)
    requires k <= |pending| && forall j :: 0 <= j < |pending| ==> pending[j].item < |items|
  {
    exists j :: 0 <= j < k && Trim(items[pending[j].item].cProd) == sku
  }

  lemma {:induction false} SkuTakenBy(products: seq<Product>, items: seq<Item>, supplierId: Option<nat>,
      pending: seq<Pending>, k: nat, sku: string)
    requires k <= |pending| && sku != "" && forall j :: 0 <= j < |pending| ==> pending[j].item < |items|
    ensures SkuTaken(CreateAll(products, items, supplierId, pending[..k]), sku) <==>
            SkuTaken(products, sku) || ClaimsBefore(items, pending, k, sku)
    decreases k
  {
    hide CreateAll, Trim;
    if k == 0 {
      CreateNothing(products, items, supplierId);
    } else {
      var before := CreateAll(products, items, supplierId, pending[..k - 1]);
      var item := items[pending[k - 1].item];
      SkuTakenBy(products, items, supplierId, pending, k - 1, sku);
      CreateAllStep(products, items, supplierId, pending, k - 1);
      SkuTakenSnoc(before, NewProduct(before, item, supplierId), sku);
      assert ClaimsBefore(items, pending, k, sku) <==>
             ClaimsBefore(items, pending, k - 1, sku) || Trim(item.cProd) == sku;
    }
  }

  lemma {:induction false} SkuTakenSnoc(products: seq<Product>, p: Product, sku: string)
    ensures SkuTaken(products + [p], sku) <==> SkuTaken(products, sku) || p.sku == Some(sku)
  {
    assert (products + [p])[|products|] == p;
    if SkuTaken(products, sku) {
      var i :| 0 <= i < |products| && products[i].sku == Some(sku);
      assert (products + [p])[i].sku == Some(sku);
    }
  }

  lemma {:induction false} CreatedIs(products: seq<Product>, items: seq<Item>, supplierId: Option<nat>,
      pending: seq<Pending>, k: nat)
    requires k < |pending| && forall j :: 0 <= j < |pending| ==> pending[j].item < |items|
    ensures CreateAll(products, items, supplierId, pending)[|products| + k] ==
            NewProduct(CreateAll(products, items, supplierId, pending[..k]), items[pending[k].item], supplierId)
    decreases |pending|
  {
    hide NewProduct;
    var n := |pending| - 1;
    if k < n {
      CreatedIs(products, items, supplierId, pending[..n], k);
      assert pending[..n][..k] == pending[..k];
    } else {
      assert pending[..n] == pending[..k];
    }
  }

  /** At most one product holds a SKU, so one that answers the key is the one found. */
  lemma {:induction false} OneSkuFound(products: seq<Product>, sku: string, p: nat)
    requires SkusUnique(products) && p < |products|
    ensures Existing(products, Sku(sku)) == Some(p) <==> Answers(products[p], Sku(sku))
  {
  }

  /**
   * An item without a barcode is reused by a later import exactly when a product already answered its code or
   * the SKU was free for the one created: held by no product, deleted ones included, and by no earlier item.
   * Otherwise the product is created without SKU, and created again at every import.
   */
  lemma {:induction false} LaterImportReusesSkuIff(products: seq<Product>, imp: Import, maxProducts: int, i: nat)
    requires Parsed(imp.items) && Bulk(products, imp, maxProducts).Ok? && SkusUnique(products)
    requires IsOpen(imp.items, i) && KeyOf(imp.items[i], i).Sku?
    ensures var o := Bulk(products, imp, maxProducts).value;
      var key := KeyOf(imp.items[i], i);
      && |o.items| == |imp.items|
      && (Existing(o.products, key) == o.items[i].product <==>
            Existing(products, key).Some? ||
            (!SkuTaken(products, key.text) && !ClaimedEarlier(products, imp.items, key.text)))
  {
    hide CreateAll, PendingOf, LinkAll, Existing, Trim, SkuTaken, ClaimsBefore, ClaimedEarlier, NewProduct;
    var o, key, pending := Bulk(products, imp, maxProducts).value, KeyOf(imp.items[i], i),
        PendingOf(products, imp.items);
    LinkOf(products, imp, maxProducts, i);
    CreateAllKeeps(products, imp.items, imp.supplierId, pending);
    CreateAllSkus(products, imp.items, imp.supplierId, pending);
    var p := o.items[i].product.value;
    if Existing(products, key).Some? {
      assert o.products[p] == products[p];
      OneSkuFound(o.products, key.text, p);
    } else {
      var k :| 0 <= k < |pending| && pending[k].key == key && p == |products| + k;
      OneSkuFound(o.products, key.text, p);
      CreatedSkuAnswersIff(products, imp.items, imp.supplierId, k, key.text);
    }
  }

  lemma {:induction false} CreatedSkuAnswersIff(products: seq<Product>, items: seq<Item>, supplierId: Option<nat>,
      k: nat, sku: string)
    requires Parsed(items) && k < |PendingOf(products, items)| && PendingOf(products, items)[k].key == Sku(sku)
    ensures Answers(CreateAll(products, items, supplierId, PendingOf(products, items))[|products| + k], Sku(sku)) <==>
            !SkuTaken(products, sku) && !ClaimedEarlier(products, items, sku)
  {
    hide CreateAll, PendingOf, Trim, SkuTaken, Existing;
    var pending := PendingOf(products, items);
    assert Fits(products, items, OpenOf(items), pending[k]);
    CreatedIs(products, items, supplierId, pending, k);
    SkuTakenBy(products, items, supplierId, pending, k, sku);
    ClaimsAgree(products, items, k, sku);
  }

  lemma {:induction false} ClaimsAgree(products: seq<Product>, items: seq<Item>, k: nat, sku: string)
    requires k < |PendingOf(products, items)| && PendingOf(products, items)[k].key == Sku(sku)
    ensures ClaimedEarlier(products, items, sku) <==> ClaimsBefore(items, PendingOf(products, items), k, sku)
  {
    hide Trim;
    var pending := PendingOf(products, items);
    if ClaimedEarlier(products, items, sku) {
      var j, l :| 0 <= j < l < |pending| && pending[l].key == Sku(sku) && Trim(items[pending[j].item].cProd) == sku;
      if l != k { PendingKeysDiffer(products, items, l, k); }
    }
  }

  // ---------------------------------------------------------------- growth and the plan limit

  function KeysIn(pending: seq<Pending>): set<Key> { set k | 0 <= k < |pending| :: pending[k].key }

  lemma {:induction false} KeysInAppend(pending: seq<Pending>, p: Pending)
    ensures KeysIn(pending + [p]) == KeysIn(pending) + {p.key}
  {
    var all := pending + [p];
    forall key ensures key in KeysIn(all) <==> key in KeysIn(pending) + {p.key} {
      if key in KeysIn(pending) {
        var k :| 0 <= k < |pending| && pending[k].key == key;
        assert all[k].key == key;
      }
      assert all[|pending|].key == p.key;
    }
  }

  lemma {:induction false} DistinctKeys(pending: seq<Pending>)
    requires KeysApart(pending)
    ensures |KeysIn(pending)| == |pending|
    decreases |pending|
  {
    if pending != [] {
      var before, last := pending[..|pending| - 1], pending[|pending| - 1];
      DistinctKeys(before);
      assert last.key !in KeysIn(before);
      KeysInAppend(before, last);
      assert pending == before + [last];
    }
  }

  lemma {:induction false} UnseenKeysCount(products: seq<Product>, items: seq<Item>)
    ensures |PendingOf(products, items)| == |UnseenKeys(products, items)|
  {
    var pending := PendingOf(products, items);
    var keys := KeysIn(pending);
    ToCreateCovers(products, items, OpenOf(items));
    DistinctKeys(pending);
    OpenInside(items, |items|);
    forall key ensures key in keys <==> key in UnseenKeys(products, items) {
      if key in keys {
        var k :| 0 <= k < |pending| && pending[k].key == key;
        assert Fits(products, items, OpenOf(items), pending[k]);
        assert key == KeyOf(items[pending[k].item], pending[k].item);
      }
      if key in UnseenKeys(products, items) {
        var i :| 0 <= i < |items| && items[i].status.Unmatched? && Existing(products, KeyOf(items[i], i)).None? &&
                 KeyOf(items[i], i) == key;
        assert i in OpenOf(items) && HasKey(pending, key);
      }
    }
    assert keys == UnseenKeys(products, items);
  }

  /**
   * The batch is refused exactly when the import is not in review or its distinct unseen keys would
   * push the live products over the plan; otherwise the catalog grows by exactly those keys, old
   * products untouched.
   */
  lemma {:induction false} BulkGrowth(products: seq<Product>, imp: Import, maxProducts: int)
    ensures var unseen := UnseenKeys(products, imp.items);
      && (Bulk(products, imp, maxProducts).Ok? <==>
            imp.status.PendingReview? && (unseen == {} || LiveCount(products) + |unseen| <= maxProducts))
      && (Bulk(products, imp, maxProducts).Ok? ==>
            var o := Bulk(products, imp, maxProducts).value;
            && o.created == |unseen| && |o.products| == |products| + |unseen|
            && LiveCount(o.products) == LiveCount(products) + |unseen|
            && o.products[..|products|] == products)
  {
    var pending := PendingOf(products, imp.items);
    UnseenKeysCount(products, imp.items);
    assert UnseenKeys(products, imp.items) == {} <==> |UnseenKeys(products, imp.items)| == 0;
    CreateAllKeeps(products, imp.items, imp.supplierId, pending);
    CreateAllLive(products, imp.items, imp.supplierId, pending);
  }

  lemma {:induction false} NoneOpen(items: seq<Item>, n: nat)
    requires n <= |items| && forall i :: 0 <= i < n ==> !items[i].status.Unmatched?
    ensures Open(items, n) == []
  {
    if n > 0 {
      NoneOpen(items, n - 1);
    }
  }

  /** A second call on the same import finds nothing to do. */
  lemma {:induction false} BulkAgain(products: seq<Product>, imp: Import, maxProducts: int, laterMax: int)
    requires Bulk(products, imp, maxProducts).Ok?
    ensures var o := Bulk(products, imp, maxProducts).value;
      Bulk(o.products, imp.(items := o.items), laterMax) == Ok(Outcome(o.products, o.items, 0, 0))
  {
    var o := Bulk(products, imp, maxProducts).value;
    BulkLeavesNoneUnmatched(products, imp, maxProducts);
    NoneOpen(o.items, |o.items|);
    NothingOpen(o.products, imp.(items := o.items));
  }

  /** Linking an item by hand never gets in the way of a bulk creation, and the bulk respects the link. */
  lemma {:induction false} LinkThenBulk(products: seq<Product>, imp: Import, maxProducts: int, itemId: nat,
      productId: nat)
    requires Link(products, imp, itemId, productId).Ok?
    requires Bulk(products, imp, maxProducts).Ok?
    ensures var linked := Link(products, imp, itemId, productId).value;
      && Bulk(products, linked, maxProducts).Ok?
      && var items := Bulk(products, linked, maxProducts).value.items;
         itemId < |items| && items[itemId].product == Some(productId)
  {
    var linked := Link(products, imp, itemId, productId).value;
    LinkSeesNothingNew(products, imp, itemId, productId);
    BulkGrowth(products, imp, maxProducts);
    BulkGrowth(products, linked, maxProducts);
    hide UnseenKeys, KeyOf, Existing;
    SubsetSize(UnseenKeys(products, linked.items), UnseenKeys(products, imp.items));
    BulkLeavesNoneUnmatched(products, linked, maxProducts);
  }

  lemma {:induction false} LinkSeesNothingNew(products: seq<Product>, imp: Import, itemId: nat, productId: nat)
    requires Link(products, imp, itemId, productId).Ok?
    ensures UnseenKeys(products, Link(products, imp, itemId, productId).value.items) <= UnseenKeys(products, imp.items)
  {
    hide KeyOf, Existing;
    var linked := Link(products, imp, itemId, productId).value;
    forall key | key in UnseenKeys(products, linked.items) ensures key in UnseenKeys(products, imp.items) {
      var i :| 0 <= i < |linked.items| && linked.items[i].status.Unmatched? &&
               Existing(products, KeyOf(linked.items[i], i)).None? && KeyOf(linked.items[i], i) == key;
      assert imp.items[i] == linked.items[i];
    }
  }
}
