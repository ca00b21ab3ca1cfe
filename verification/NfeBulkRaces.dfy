/**
 Two bulk creations of one tenant at the same time. Neither takes a lock that the other one asks for, so both can
 look products up and count them before either commits (services/app/src/modules/stock/nfe-import.ts:58-144).
 */
module NfeBulkRaces {
  import opened Prelude
  import opened NfeBulk
  import opened NfeBulkLaws

  /**
   * Both have planned on `products`; `a` commits, and then `b` creates what it planned. It asks for each SKU when it
   * creates, so it sees those of `a`; had it asked earlier, UNIQUE (tenant_id, sku) would have rolled it back.
   */
  function BothCreated(products: seq<Product>, a: Import, b: Import): seq<Product>
  {
    var first := CreateAll(products, a.items, a.supplierId, PendingOf(products, a.items));
    CreateAll(first, b.items, b.supplierId, PendingOf(products, b.items))
  }

  /** Both imports bring a barcode that no product had. */
  predicate ShareBarcode(products: seq<Product>, a: Import, b: Import)
  {
    exists key :: key in UnseenKeys(products, a.items) && key in UnseenKeys(products, b.items) && key.Ean?
  }

  lemma {:induction false} PlannedUnseen(products: seq<Product>, items: seq<Item>, k: nat)
    requires k < |PendingOf(products, items)|
    ensures PendingOf(products, items)[k].key in UnseenKeys(products, items)
  {
    hide Existing, KeyOf;
    var p := PendingOf(products, items)[k];
    assert Fits(products, items, OpenOf(items), p);
    OpenInside(items, |items|);
  }

  lemma {:induction false} UnseenPlanned(products: seq<Product>, items: seq<Item>, key: Key) returns (k: nat)
    requires key in UnseenKeys(products, items)
    ensures k < |PendingOf(products, items)| && PendingOf(products, items)[k].key == key
  {
    hide Existing, KeyOf;
    ToCreateCovers(products, items, OpenOf(items));
    OpenInside(items, |items|);
    var i :| 0 <= i < |items| && items[i].status.Unmatched? && Existing(products, KeyOf(items[i], i)).None? &&
             KeyOf(items[i], i) == key;
    assert i in OpenOf(items) && HasKey(PendingOf(products, items), key);
    k :| 0 <= k < |PendingOf(products, items)| && PendingOf(products, items)[k].key == key;
  }

  /** What was planned on `products` and created on `base`: the key names the barcode. */
  lemma {:induction false} CreatedEan(products: seq<Product>, base: seq<Product>, imp: Import, k: nat)
    requires Parsed(imp.items) && k < |PendingOf(products, imp.items)|
    ensures var p := CreateAll(base, imp.items, imp.supplierId, PendingOf(products, imp.items))[|base| + k];
      && p.live
      && forall code :: p.barcode == Some(code) <==> PendingOf(products, imp.items)[k].key == Ean(code)
  {
    hide CreateAll, Existing;
    var pending := PendingOf(products, imp.items);
    CreateAllAt(base, imp.items, imp.supplierId, pending, k);
    assert Fits(products, imp.items, OpenOf(imp.items), pending[k]);
  }

  lemma {:induction false} LaterBarcodeDiffers(products: seq<Product>, a: Import, b: Import, p: nat, k: nat)
    requires Parsed(a.items) && Parsed(b.items) && !ShareBarcode(products, a, b)
    requires k < |PendingOf(products, b.items)| && p < |products| + |PendingOf(products, a.items)| + k
    ensures var after := BothCreated(products, a, b);
            var q := |products| + |PendingOf(products, a.items)| + k;
            after[p].live && after[p].barcode.Some? ==> after[p].barcode != after[q].barcode
  {
    hide PendingOf, CreateAll, Existing, UnseenKeys;
    var planA, planB := PendingOf(products, a.items), PendingOf(products, b.items);
    var first := CreateAll(products, a.items, a.supplierId, planA);
    var after := CreateAll(first, b.items, b.supplierId, planB);
    CreateAllKeeps(products, a.items, a.supplierId, planA);
    CreateAllKeeps(first, b.items, b.supplierId, planB);
    CreatedEan(products, first, b, k);
    PlannedUnseen(products, b.items, k);
    if p < |products| {
      assert after[p] == after[..|first|][p] && first[p] == first[..|products|][p];
      assert Existing(products, planB[k].key).None? && !Answers(products[p], planB[k].key) by {
        assert Fits(products, b.items, OpenOf(b.items), planB[k]);
      }
    } else if p < |first| {
      assert after[p] == after[..|first|][p];
      CreatedEan(products, products, a, p - |products|);
      PlannedUnseen(products, a.items, p - |products|);
    } else {
      CreatedEan(products, first, b, p - |first|);
      PendingKeysDiffer(products, b.items, p - |first|, k);
    }
  }

  lemma {:induction false} SharedBarcodeTwice(products: seq<Product>, a: Import, b: Import)
    requires Parsed(a.items) && Parsed(b.items) && ShareBarcode(products, a, b)
    ensures !LiveBarcodesUnique(BothCreated(products, a, b))
  {
    hide PendingOf, CreateAll, UnseenKeys;
    var key :| key in UnseenKeys(products, a.items) && key in UnseenKeys(products, b.items) && key.Ean?;
    var j := UnseenPlanned(products, a.items, key);
    var k := UnseenPlanned(products, b.items, key);
    var first := CreateAll(products, a.items, a.supplierId, PendingOf(products, a.items));
    var after := BothCreated(products, a, b);
    CreatedEan(products, products, a, j);
    CreatedEan(products, first, b, k);
    CreateAllKeeps(first, b.items, b.supplierId, PendingOf(products, b.items));
    assert after[|products| + j] == after[..|first|][|products| + j];
    assert after[|products| + j].barcode == after[|first| + k].barcode == Some(key.code);
  }

  /**
   * Two creations that each fit the plan alone, on their own or of the same import twice: SKUs stay unique, live
   * barcodes exactly if no barcode is new in both, and the plan is exceeded exactly if the new keys of both,
   * counted twice where they are the same, do not fit it.
   */
  lemma {:induction false} BulkRaceIff(products: seq<Product>, a: Import, b: Import, maxProducts: int)
    requires Parsed(a.items) && Parsed(b.items) && LiveBarcodesUnique(products) && SkusUnique(products)
    requires Bulk(products, a, maxProducts).Ok? && Bulk(products, b, maxProducts).Ok?
    ensures var after := BothCreated(products, a, b);
      && SkusUnique(after)
      && (LiveBarcodesUnique(after) <==> !ShareBarcode(products, a, b))
      && LiveCount(after) ==
         LiveCount(products) + |UnseenKeys(products, a.items)| + |UnseenKeys(products, b.items)|
  {
    hide PendingOf, CreateAll, ShareBarcode, SkusUnique, UnseenKeys, LiveCount;
    var planA, planB := PendingOf(products, a.items), PendingOf(products, b.items);
    var first, after := CreateAll(products, a.items, a.supplierId, planA), BothCreated(products, a, b);
    CreateAllSkus(products, a.items, a.supplierId, planA);
    CreateAllSkus(first, b.items, b.supplierId, planB);
    CreateAllLive(products, a.items, a.supplierId, planA);
    CreateAllLive(first, b.items, b.supplierId, planB);
    UnseenKeysCount(products, a.items);
    UnseenKeysCount(products, b.items);
    CreateAllKeeps(first, b.items, b.supplierId, planB);
    BulkKeepsUnique(products, a, maxProducts);
    if ShareBarcode(products, a, b) {
      SharedBarcodeTwice(products, a, b);
    } else {
      forall p, q | 0 <= p < q < |after| && after[p].live && after[q].live && after[p].barcode.Some?
        ensures after[p].barcode != after[q].barcode
      {
        if q < |first| {
          assert after[p] == after[..|first|][p] && after[q] == after[..|first|][q];
        } else {
          LaterBarcodeDiffers(products, a, b, p, q - |first|);
        }
      }
    }
  }
}
