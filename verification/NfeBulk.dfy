/**
 * Bulk product creation from an NF-e (services/app/src/modules/stock/nfe-import.ts,
 * libs/shared/src/plan-limits/index.ts), for one tenant.
 */
module NfeBulk {
  import opened Prelude
  import opened Text

  /** A product's id is its index in the table; live means deletedAt is null. */
  datatype Product = Product(sku: Option<string>, barcode: Option<string>, name: string, supplierId: Option<nat>,
                             costPriceCents: int, live: bool)

  datatype ItemStatus = Unmatched | Matched | Created

  /** An item's id is its index in its import. */
  datatype Item = Item(cProd: string, cEAN: Option<string>, xProd: string, vUnComCents: int,
                       product: Option<nat>, status: ItemStatus)

  datatype ImportStatus = PendingParse | PendingReview | Confirmed | Failed

  datatype Import = Import(status: ImportStatus, supplierId: Option<nat>, items: seq<Item>)

  datatype Key = Ean(code: string) | Sku(text: string) | ById(item: nat)

  datatype NfeError = NotFound | AlreadyLinked | AlreadyConfirmed | NotInReview | StillUnmatched | PlanLimitReached

  datatype Entry = Entry(item: nat, product: Option<nat>, key: Key)

  datatype Pending = Pending(key: Key, item: nat)

  datatype Outcome = Outcome(products: seq<Product>, items: seq<Item>, created: nat, linked: nat)

  // ---------------------------------------------------------------- specification

  predicate HasEan(item: Item) { item.cEAN.Some? && item.cEAN.value != "" }

  function KeyOf(item: Item, id: nat): Key {
    if HasEan(item) then Ean(item.cEAN.value)
    else if Trim(item.cProd) != "" then Sku(Trim(item.cProd))
    else ById(id)
  }

  /** A live product that an item with this key is linked to instead of creating one. */
  predicate Answers(p: Product, key: Key) {
    p.live &&
    match key
    case Ean(code) => p.barcode == Some(code)
    case Sku(text) => p.sku == Some(text) && p.barcode.None?
    case ById(_) => false
  }

  /** findFirst over the first n products. */
  function FindAmong(products: seq<Product>, key: Key, n: nat): (r: Option<nat>)
    requires n <= |products|
    ensures r.Some? ==> r.value < n && Answers(products[r.value], key)
    ensures r.Some? ==> forall p :: 0 <= p < r.value ==> !Answers(products[p], key)
    ensures r.None? ==> forall p :: 0 <= p < n ==> !Answers(products[p], key)
  {
    if n == 0 then None
    else
      var earlier := FindAmong(products, key, n - 1);
      if earlier.Some? then earlier
      else if Answers(products[n - 1], key) then Some(n - 1)
      else None
  }

  function Existing(products: seq<Product>, key: Key): (r: Option<nat>)
    ensures r.Some? ==> r.value < |products| && Answers(products[r.value], key)
    ensures r.Some? ==> forall p :: 0 <= p < r.value ==> !Answers(products[p], key)
    ensures r.None? ==> forall p :: 0 <= p < |products| ==> !Answers(products[p], key)
  {
    FindAmong(products, key, |products|)
  }

  /** The ids of the unmatched items among the first n, ascending. */
  function Open(items: seq<Item>, n: nat): seq<nat>
    requires n <= |items|
  {
    if n == 0 then []
    else Open(items, n - 1) + (if items[n - 1].status.Unmatched? then [n - 1] else [])
  }

  predicate HasKey(pending: seq<Pending>, key: Key) { exists k :: 0 <= k < |pending| && pending[k].key == key }

  /** One pending creation for each key no product answers, in order of first appearance. */
  function ToCreate(products: seq<Product>, items: seq<Item>, open: seq<nat>): seq<Pending>
    requires forall k :: 0 <= k < |open| ==> open[k] < |items|
  {
    if open == [] then []
    else
      var before := ToCreate(products, items, open[..|open| - 1]);
      var i := open[|open| - 1];
      var key := KeyOf(items[i], i);
      if Existing(products, key).None? && !HasKey(before, key) then before + [Pending(key, i)] else before
  }

  function LiveCount(products: seq<Product>): nat {
    if products == [] then 0
    else LiveCount(products[..|products| - 1]) + (if products[|products| - 1].live then 1 else 0)
  }

  /** Any product of the tenant, deleted ones included, holds this SKU. */
  predicate SkuTaken(products: seq<Product>, sku: string) {
    exists p :: 0 <= p < |products| && products[p].sku == Some(sku)
  }

  function NewProduct(products: seq<Product>, item: Item, supplierId: Option<nat>): Product {
    var sku := Trim(item.cProd);
    Product(
      if sku == "" || SkuTaken(products, sku) then None else Some(sku),
      item.cEAN,
      if Trim(item.xProd) != "" then Trim(item.xProd) else if sku != "" then sku else "Produto sem nome",
      supplierId, item.vUnComCents, true)
  }

  function CreateAll(products: seq<Product>, items: seq<Item>, supplierId: Option<nat>, pending: seq<Pending>)
    : (r: seq<Product>)
    requires forall k :: 0 <= k < |pending| ==> pending[k].item < |items|
    ensures |r| == |products| + |pending|
  {
    if pending == [] then products
    else
      var before := CreateAll(products, items, supplierId, pending[..|pending| - 1]);
      before + [NewProduct(before, items[pending[|pending| - 1].item], supplierId)]
  }

  /** createdByKey: the k-th creation takes id |products| + k. */
  function CreatedIds(pending: seq<Pending>, base: nat): map<Key, nat> {
    if pending == [] then map[]
    else CreatedIds(pending[..|pending| - 1], base)[pending[|pending| - 1].key := base + |pending| - 1]
  }

  function LinkItem(products: seq<Product>, created: map<Key, nat>, item: Item, id: nat): Item {
    var key := KeyOf(item, id);
    var existing := Existing(products, key);
    if !item.status.Unmatched? then item
    else if existing.Some? then item.(product := existing, status := Matched)
    else if key in created then item.(product := Some(created[key]), status := Created)
    else item
  }

  function LinkAll(products: seq<Product>, created: map<Key, nat>, items: seq<Item>): seq<Item> {
    seq(|items|, i requires 0 <= i < |items| => LinkItem(products, created, items[i], i))
  }

  lemma {:induction false} OpenInside(items: seq<Item>, n: nat)
    requires n <= |items|
    ensures forall k :: 0 <= k < |Open(items, n)| ==> Open(items, n)[k] < n
    ensures forall k :: 0 <= k < |Open(items, n)| ==> items[Open(items, n)[k]].status.Unmatched?
    ensures forall i :: 0 <= i < n && items[i].status.Unmatched? ==> i in Open(items, n)
  {
    if n > 0 {
      OpenInside(items, n - 1);
    }
  }

  function OpenOf(items: seq<Item>): (r: seq<nat>)
    ensures forall k :: 0 <= k < |r| ==> r[k] < |items|
  {
    OpenInside(items, |items|);
    Open(items, |items|)
  }

  /** A pending creation stands for an open item whose key no product answers. */
  predicate Fits(products: seq<Product>, items: seq<Item>, open: seq<nat>, p: Pending) {
    p.item < |items| && p.item in open && p.key == KeyOf(items[p.item], p.item) && Existing(products, p.key).None?
  }

  lemma {:induction false} ToCreateFits(products: seq<Product>, items: seq<Item>, open: seq<nat>)
    requires forall k :: 0 <= k < |open| ==> open[k] < |items|
    ensures forall k :: 0 <= k < |ToCreate(products, items, open)| ==>
      Fits(products, items, open, ToCreate(products, items, open)[k])
    decreases |open|
  {
    if open != [] {
      var shorter := open[..|open| - 1];
      var before := ToCreate(products, items, shorter);
      var pending := ToCreate(products, items, open);
      ToCreateFits(products, items, shorter);
      forall k | 0 <= k < |pending| ensures Fits(products, items, open, pending[k]) {
        if k < |before| {
          assert pending[k] == before[k] && Fits(products, items, shorter, before[k]);
          assert before[k].item in shorter;
        } else {
          assert pending[k].item == open[|open| - 1];
        }
      }
    }
  }

  function PendingOf(products: seq<Product>, items: seq<Item>): (r: seq<Pending>)
    ensures forall k :: 0 <= k < |r| ==> Fits(products, items, OpenOf(items), r[k])
  {
    ToCreateFits(products, items, OpenOf(items));
    ToCreate(products, items, OpenOf(items))
  }

  /** The whole transaction on an import in review: all of it, or an error and nothing. */
  function Bulk(products: seq<Product>, imp: Import, maxProducts: int): Result<Outcome, NfeError> {
    var pending := PendingOf(products, imp.items);
    if !imp.status.PendingReview? then Err(NotInReview)
    else if pending != [] && LiveCount(products) + |pending| > maxProducts then Err(PlanLimitReached)
    else Ok(Outcome(CreateAll(products, imp.items, imp.supplierId, pending),
                    LinkAll(products, CreatedIds(pending, |products|), imp.items),
                    |pending|, |OpenOf(imp.items)|))
  }

  /** The operator links one open item to a live product chosen by hand. */
  function Link(products: seq<Product>, imp: Import, itemId: nat, productId: nat): Result<Import, NfeError> {
    if !imp.status.PendingReview? then Err(NotInReview)
    else if itemId >= |imp.items| then Err(NotFound)
    else if !imp.items[itemId].status.Unmatched? then Err(AlreadyLinked)
    else if productId >= |products| || !products[productId].live then Err(NotFound)
    else Ok(imp.(items := imp.items[itemId := imp.items[itemId].(product := Some(productId), status := Created)]))
  }

  /** The checks that confirmation makes before it writes anything. */
  function CheckConfirm(imp: Import): (r: Result<(), NfeError>)
    ensures r.Ok? <==> imp.status.PendingReview? && forall i :: 0 <= i < |imp.items| ==> !imp.items[i].status.Unmatched?
    ensures r == Err(AlreadyConfirmed) <==> imp.status.Confirmed?
    ensures r == Err(NotInReview) <==> imp.status.PendingParse? || imp.status.Failed?
  {
    if imp.status.Confirmed? then Err(AlreadyConfirmed)
    else if !imp.status.PendingReview? then Err(NotInReview)
    else if exists i :: 0 <= i < |imp.items| && imp.items[i].status.Unmatched? then Err(StillUnmatched)
    else Ok(())
  }

  // ---------------------------------------------------------------- pending creations

  predicate KeysApart(pending: seq<Pending>) {
    forall j, k :: 0 <= j < k < |pending| ==> pending[j].key != pending[k].key
  }

  lemma {:induction false} ToCreateApart(products: seq<Product>, items: seq<Item>, open: seq<nat>)
    requires forall k :: 0 <= k < |open| ==> open[k] < |items|
    ensures KeysApart(ToCreate(products, items, open))
  {
    hide KeyOf, Existing;
    if open != [] {
      var before := ToCreate(products, items, open[..|open| - 1]);
      var pending := ToCreate(products, items, open);
      ToCreateApart(products, items, open[..|open| - 1]);
      forall j, k | 0 <= j < k < |pending| ensures pending[j].key != pending[k].key {
        assert pending[j] == before[j];
        assert k < |before| ==> pending[k] == before[k];
        assert HasKey(before, before[j].key);
      }
    }
  }

  lemma {:induction false} ToCreateCovers(products: seq<Product>, items: seq<Item>, open: seq<nat>)
    requires forall k :: 0 <= k < |open| ==> open[k] < |items|
    ensures var pending := ToCreate(products, items, open);
      && KeysApart(pending)
      && (forall i :: i in open && Existing(products, KeyOf(items[i], i)).None? ==> HasKey(pending, KeyOf(items[i], i)))
  {
    hide KeyOf, Existing;
    ToCreateApart(products, items, open);
    if open != [] {
      var before := ToCreate(products, items, open[..|open| - 1]);
      var pending := ToCreate(products, items, open);
      ToCreateCovers(products, items, open[..|open| - 1]);
      var last := open[|open| - 1];
      assert forall key :: HasKey(before, key) ==> HasKey(pending, key) by {
        forall key | HasKey(before, key) ensures HasKey(pending, key) {
          var k :| 0 <= k < |before| && before[k].key == key;
          assert pending[k] == before[k];
        }
      }
      if pending != before {
        assert pending[|before|].key == KeyOf(items[last], last);
      }
      forall i | i in open && Existing(products, KeyOf(items[i], i)).None? ensures HasKey(pending, KeyOf(items[i], i)) {
        if i != last {
          assert i in open[..|open| - 1];
        }
      }
    }
  }

  lemma {:induction false} CreatedIdsAre(pending: seq<Pending>, base: nat)
    requires KeysApart(pending)
    ensures forall k :: 0 <= k < |pending| ==>
      pending[k].key in CreatedIds(pending, base) && CreatedIds(pending, base)[pending[k].key] == base + k
    ensures forall key :: key in CreatedIds(pending, base) ==> HasKey(pending, key)
    decreases |pending|
  {
    if pending != [] {
      var before := pending[..|pending| - 1];
      CreatedIdsAre(before, base);
      forall key | key in CreatedIds(pending, base) ensures HasKey(pending, key) {
        if key in CreatedIds(before, base) {
          var k :| 0 <= k < |before| && before[k].key == key;
          assert pending[k].key == key;
        } else {
          assert pending[|pending| - 1].key == key;
        }
      }
    }
  }

  function PlanEntry(products: seq<Product>, items: seq<Item>, i: nat): Entry
    requires i < |items|
  {
    Entry(i, Existing(products, KeyOf(items[i], i)), KeyOf(items[i], i))
  }

  function LinkedSoFar(products: seq<Product>, created: map<Key, nat>, items: seq<Item>, done: seq<nat>, i: nat): Item
    requires i < |items|
  {
    if i in done then LinkItem(products, created, items[i], i) else items[i]
  }

  /** Item i is open and its planned product exists. */
  predicate PlanAnswers(products: seq<Product>, created: map<Key, nat>, items: seq<Item>, i: nat) {
    i < |items| && items[i].status.Unmatched? &&
    (Existing(products, KeyOf(items[i], i)).Some? || KeyOf(items[i], i) in created)
  }

  lemma {:induction false} EveryOpenAnswered(products: seq<Product>, items: seq<Item>, i: nat)
    requires i in OpenOf(items)
    ensures PlanAnswers(products, CreatedIds(PendingOf(products, items), |products|), items, i)
  {
    var pending := PendingOf(products, items);
    OpenInside(items, |items|);
    ToCreateCovers(products, items, OpenOf(items));
    CreatedIdsAre(pending, |products|);
    var key := KeyOf(items[i], i);
    if Existing(products, key).None? {
      var k :| 0 <= k < |pending| && pending[k].key == key;
    }
  }

  lemma {:induction false} CreateNothing(products: seq<Product>, items: seq<Item>, supplierId: Option<nat>)
    ensures CreateAll(products, items, supplierId, []) == products
    ensures CreatedIds([], |products|) == map[]
  {
  }

  lemma {:induction false} CreateAllStep(products: seq<Product>, items: seq<Item>, supplierId: Option<nat>,
      pending: seq<Pending>, k: nat)
    requires k < |pending|
    requires forall j :: 0 <= j < |pending| ==> pending[j].item < |items|
    ensures CreateAll(products, items, supplierId, pending[..k + 1]) ==
            CreateAll(products, items, supplierId, pending[..k]) +
              [NewProduct(CreateAll(products, items, supplierId, pending[..k]), items[pending[k].item], supplierId)]
    ensures CreatedIds(pending[..k + 1], |products|) ==
            CreatedIds(pending[..k], |products|)[pending[k].key := |products| + k]
  {
    assert pending[..k + 1][..k] == pending[..k];
  }

  // ---------------------------------------------------------------- the transaction in its own form

  class TenantCatalog {
    var products: seq<Product>
    var imports: map<nat, Import>
    const maxProducts: int

    constructor (products: seq<Product>, imports: map<nat, Import>, maxProducts: int)
      ensures this.products == products && this.imports == imports && this.maxProducts == maxProducts
    {
      this.products := products;
      this.imports := imports;
      this.maxProducts := maxProducts;
    }

    method LinkNfeImportItemToProduct(importId: nat, itemId: nat, productId: nat) returns (r: Result<(), NfeError>)
      modifies this`imports
      ensures importId !in old(imports) ==> r == Err(NotFound) && imports == old(imports)
      ensures importId in old(imports) ==>
        match Link(products, old(imports)[importId], itemId, productId)
        case Err(e) => r == Err(e) && imports == old(imports)
        case Ok(imp) => r == Ok(()) && imports == old(imports)[importId := imp]
      ensures r.Ok? <==> (
        importId in old(imports) && var imp := old(imports)[importId];
        imp.status.PendingReview? && itemId < |imp.items| && imp.items[itemId].status.Unmatched? &&
        productId < |products| && products[productId].live)
      ensures r.Ok? ==> importId in imports && var was, imp := old(imports)[importId], imports[importId];
        && imp.status == was.status && imp.supplierId == was.supplierId && |imp.items| == |was.items|
        && forall i :: 0 <= i < |was.items| ==>
             imp.items[i] ==
             if i == itemId then was.items[i].(product := Some(productId), status := Created) else was.items[i]
    {
      if importId !in imports {
        return Err(NotFound);
      }
      var imp := imports[importId];
      if imp.status != PendingReview {
        return Err(NotInReview);
      }
      if itemId >= |imp.items| {
        return Err(NotFound);
      }
      var item := imp.items[itemId];
      if item.status != Unmatched {
        return Err(AlreadyLinked);
      }
      if productId >= |products| || !products[productId].live {
        return Err(NotFound);
      }
      imports := imports[importId := imp.(
        items := imp.items[itemId := item.(product := Some(productId), status := Created)])];
      r := Ok(());
    }

    /** First pass: what each open item will be linked to, and what must be created for that. */
    static method Resolve(products: seq<Product>, items: seq<Item>) returns (plan: seq<Entry>, toCreate: seq<Pending>)
      ensures |plan| == |OpenOf(items)|
      ensures forall k :: 0 <= k < |plan| ==> plan[k] == PlanEntry(products, items, OpenOf(items)[k])
      ensures toCreate == PendingOf(products, items)
    {
      var open := OpenOf(items);
      plan, toCreate := [], [];
      var k := 0;
      while k < |open|
        invariant 0 <= k <= |open| && |plan| == k
        invariant forall j :: 0 <= j < k ==> plan[j] == PlanEntry(products, items, open[j])
        invariant toCreate == ToCreate(products, items, open[..k])
      {
        var i := open[k];
        var key := KeyOf(items[i], i);
        var existing := Existing(products, key);
        plan := plan + [Entry(i, existing, key)];
        assert open[..k + 1][..k] == open[..k];
        if existing.None? && !HasKey(toCreate, key) {
          toCreate := toCreate + [Pending(key, i)];
        }
        k := k + 1;
      }
      assert open[..k] == open;
    }

    method BuildProduct(item: Item, supplierId: Option<nat>) returns (product: Product)
      ensures product == NewProduct(products, item, supplierId)
    {
      var desiredSku := Trim(item.cProd);
      var skuTaken := desiredSku != "" && SkuTaken(products, desiredSku);
      var name := Trim(item.xProd);
      if name == "" {
        name := if desiredSku != "" then desiredSku else "Produto sem nome";
      }
      product := Product(if desiredSku == "" || skuTaken then None else Some(desiredSku), item.cEAN, name,
                         supplierId, item.vUnComCents, true);
    }

    method CreatePending(items: seq<Item>, supplierId: Option<nat>, toCreate: seq<Pending>)
      returns (createdByKey: map<Key, nat>)
      requires forall k :: 0 <= k < |toCreate| ==> toCreate[k].item < |items|
      modifies this`products
      ensures products == CreateAll(old(products), items, supplierId, toCreate)
      ensures createdByKey == CreatedIds(toCreate, |old(products)|)
    {
      hide NewProduct, CreateAll, CreatedIds;
      createdByKey := map[];
      CreateNothing(products, items, supplierId);
      var k := 0;
      while k < |toCreate|
        invariant 0 <= k <= |toCreate|
        invariant products == CreateAll(old(products), items, supplierId, toCreate[..k])
        invariant createdByKey == CreatedIds(toCreate[..k], |old(products)|)
      {
        CreateAllStep(old(products), items, supplierId, toCreate, k);
        var product := BuildProduct(items[toCreate[k].item], supplierId);
        createdByKey := createdByKey[toCreate[k].key := |products|];
        products := products + [product];
        k := k + 1;
      }
      assert toCreate[..k] == toCreate;
    }

    /** Last pass: every planned item gets its product. */
    static method LinkPlan(ghost products: seq<Product>, items: seq<Item>, plan: seq<Entry>, createdByKey: map<Key,
        nat>)
      returns (linkedItems: seq<Item>, linked: nat)
      requires |plan| == |OpenOf(items)|
      requires forall k :: 0 <= k < |plan| ==> plan[k] == PlanEntry(products, items, OpenOf(items)[k])
      requires createdByKey == CreatedIds(PendingOf(products, items), |products|)
      ensures linkedItems == LinkAll(products, createdByKey, items)
      ensures linked == |plan|
    {
      hide PendingOf, CreatedIds, KeyOf, Existing, SkuTaken;
      forall i | i in OpenOf(items) ensures PlanAnswers(products, createdByKey, items, i) {
        EveryOpenAnswered(products, items, i);
      }
      linkedItems, linked := items, 0;
      var k := 0;
      while k < |plan|
        invariant 0 <= k <= |plan| && linked == k && |linkedItems| == |items|
        invariant forall i :: 0 <= i < |items| ==>
          linkedItems[i] == LinkedSoFar(products, createdByKey, items, OpenOf(items)[..k], i)
      {
        var entry := plan[k];
        var i := entry.item;
        assert entry == PlanEntry(products, items, i) && i in OpenOf(items);
        assert PlanAnswers(products, createdByKey, items, i);
        var productId := if entry.product.Some? then entry.product
                         else if entry.key in createdByKey then Some(createdByKey[entry.key]) else None;
        if productId.Some? {
          linkedItems := linkedItems[i := linkedItems[i].(
            product := productId, status := if entry.product.Some? then Matched else Created)];
          linked := linked + 1;
        }
        assert OpenOf(items)[..k + 1] == OpenOf(items)[..k] + [i];
        k := k + 1;
      }
      assert OpenOf(items)[..k] == OpenOf(items);
      forall i | 0 <= i < |items| ensures linkedItems[i] == LinkItem(products, createdByKey, items[i], i) {
        OpenInside(items, |items|);
      }
    }

    method BulkCreateProductsFromNfeImport(importId: nat) returns (r: Result<(nat, nat), NfeError>)
      modifies this
      ensures importId !in old(imports) ==>
        r == Err(NotFound) && products == old(products) && imports == old(imports)
      ensures importId in old(imports) ==>
        match Bulk(old(products), old(imports)[importId], maxProducts)
        case Err(e) => r == Err(e) && products == old(products) && imports == old(imports)
        case Ok(o) =>
          r == Ok((o.created, o.linked)) && products == o.products &&
          imports == old(imports)[importId := old(imports)[importId].(items := o.items)]
    {
      if importId !in imports {
        return Err(NotFound);
      }
      var imp := imports[importId];
      if imp.status != PendingReview {
        return Err(NotInReview);
      }
      if |OpenOf(imp.items)| == 0 {
        NothingOpen(products, imp);
        assert imports == imports[importId := imp];
        return Ok((0, 0));
      }
      var plan, toCreate := Resolve(products, imp.items);
      if |toCreate| > 0 {
        var currentCount := LiveCount(products);
        if currentCount + |toCreate| > maxProducts {
          return Err(PlanLimitReached);
        }
      }
      var created, linked := Write(importId, plan, toCreate);
      r := Ok((created, linked));
    }

    /** Everything the transaction writes, once nothing can refuse it. */
    method Write(importId: nat, plan: seq<Entry>, toCreate: seq<Pending>) returns (created: nat, linked: nat)
      requires importId in imports
      requires |plan| == |OpenOf(imports[importId].items)|
      requires forall k :: 0 <= k < |plan| ==>
        plan[k] == PlanEntry(products, imports[importId].items, OpenOf(imports[importId].items)[k])
      requires toCreate == PendingOf(products, imports[importId].items)
      modifies this
      ensures created == |toCreate| && linked == |plan|
      ensures var imp := old(imports)[importId];
        && products == CreateAll(old(products), imp.items, imp.supplierId, toCreate)
        && imports == old(imports)[importId := imp.(
                        items := LinkAll(old(products), CreatedIds(toCreate, |old(products)|), imp.items))]
    {
      var imp := imports[importId];
      ghost var before := products;
      ToCreateCovers(before, imp.items, OpenOf(imp.items));
      CreatedIdsCount(toCreate, |before|);
      var createdByKey := CreatePending(imp.items, imp.supplierId, toCreate);
      var linkedItems;
      linkedItems, linked := LinkPlan(before, imp.items, plan, createdByKey);
      imports := imports[importId := imp.(items := linkedItems)];
      created := |createdByKey|;
    }
  }

  lemma {:induction false} CreatedIdsCount(pending: seq<Pending>, base: nat)
    requires KeysApart(pending)
    ensures |CreatedIds(pending, base)| == |pending|
    decreases |pending|
  {
    if pending != [] {
      var before := pending[..|pending| - 1];
      CreatedIdsCount(before, base);
      CreatedIdsAre(before, base);
      var key := pending[|pending| - 1].key;
      assert key !in CreatedIds(before, base);
    }
  }

  lemma {:induction false} NothingOpen(products: seq<Product>, imp: Import)
    requires OpenOf(imp.items) == []
    ensures PendingOf(products, imp.items) == []
    ensures LinkAll(products, CreatedIds([], |products|), imp.items) == imp.items
  {
    OpenInside(imp.items, |imp.items|);
    assert forall i :: 0 <= i < |imp.items| ==> !imp.items[i].status.Unmatched?;
  }
}
