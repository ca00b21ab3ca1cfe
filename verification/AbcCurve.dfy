/**
 The ABC curve of services/app/src/modules/sales/dashboard.ts: products by contribution, class A until
 80% of the total has been accumulated before the product, class B until 95%, class C afterwards.
 Percentages are compared exactly, as fractions of the total.
 */
module AbcCurve {

  datatype Sold = Sold(product: int, quantity: nat, unitPriceCents: nat)

  datatype Metric = Revenue | Quantity

  datatype Entry = Entry(product: int, value: nat)

  datatype Class = A | B | C

  datatype Point = Point(product: int, value: nat, cumulative: nat, class_: Class)

  function Worth(item: Sold, metric: Metric): nat
  {
    if metric.Revenue? then item.quantity * item.unitPriceCents else item.quantity
  }

  function WorthOf(items: seq<Sold>, metric: Metric, product: int): nat
  {
    if items == [] then 0
    else WorthOf(items[..|items| - 1], metric, product) +
         if items[|items| - 1].product == product then Worth(items[|items| - 1], metric) else 0
  }

  // ---- Sorting, as Array.prototype.sort with b - a does: descending and stable ----

  function InsertDown(e: Entry, es: seq<Entry>): seq<Entry>
  {
    if es == [] || e.value >= es[0].value then [e] + es else [es[0]] + InsertDown(e, es[1..])
  }

  function SortDown(es: seq<Entry>): seq<Entry>
  {
    if es == [] then [] else InsertDown(es[0], SortDown(es[1..]))
  }

  ghost predicate Descending(es: seq<Entry>)
  {
    forall i, j :: 0 <= i < j < |es| ==> es[i].value >= es[j].value
  }

  lemma {:induction false} InsertDownKeeps(e: Entry, es: seq<Entry>)
    ensures multiset(InsertDown(e, es)) == multiset{e} + multiset(es)
  {
    if !(es == [] || e.value >= es[0].value) {
      InsertDownKeeps(e, es[1..]);
      assert es == [es[0]] + es[1..];
    }
  }

  lemma {:induction false} InsertDownDescends(e: Entry, es: seq<Entry>)
    requires Descending(es)
    ensures Descending(InsertDown(e, es))
  {
    hide Descending;
    if es == [] {
      PrependDescends(e, es);
    } else {
      DescendingFrom(es);
      if e.value >= es[0].value {
        PrependDescends(e, es);
      } else {
        InsertDownDescends(e, es[1..]);
        forall x | x in InsertDown(e, es[1..]) ensures es[0].value >= x.value { InsertDownMembers(e, es[1..], x); }
        PrependDescends(es[0], InsertDown(e, es[1..]));
      }
    }
  }

  lemma {:induction false} InsertDownMembers(e: Entry, es: seq<Entry>, x: Entry)
    requires x in InsertDown(e, es)
    ensures x == e || x in es
  {
    InsertDownKeeps(e, es);
    assert x in multiset(InsertDown(e, es));
  }

  lemma {:induction false} DescendingFrom(es: seq<Entry>)
    requires Descending(es) && es != []
    ensures Descending(es[1..]) && forall x :: x in es ==> es[0].value >= x.value
  {
  }

  lemma {:induction false} PrependDescends(e: Entry, es: seq<Entry>)
    requires Descending(es) && forall x :: x in es ==> e.value >= x.value
    ensures Descending([e] + es)
  {
    var out := [e] + es;
    forall i, j | 0 <= i < j < |out| ensures out[i].value >= out[j].value {
      assert out[j] == es[j - 1];
      if i > 0 { assert out[i] == es[i - 1]; }
    }
  }

  lemma {:induction false} SortDownKeeps(es: seq<Entry>)
    ensures multiset(SortDown(es)) == multiset(es) && Descending(SortDown(es)) && |SortDown(es)| == |es|
  {
    if es != [] {
      SortDownKeeps(es[1..]);
      InsertDownKeeps(es[0], SortDown(es[1..]));
      InsertDownDescends(es[0], SortDown(es[1..]));
      assert es == [es[0]] + es[1..];
      assert |multiset(SortDown(es))| == |multiset(es)|;
    }
  }

  // ---- The curve ----

  /** Value of the first `n` entries. */
  function Prefix(es: seq<Entry>, n: nat): nat
    requires n <= |es|
  {
    if n == 0 then 0 else Prefix(es, n - 1) + es[n - 1].value
  }

  function Total(es: seq<Entry>): nat { Prefix(es, |es|) }

  /** before < percent, where before is the accumulated percentage (0 when nothing was sold). */
  predicate Below(before: nat, total: nat, percent: nat)
  {
    if total > 0 then before * 100 < percent * total else 0 < percent
  }

  function ClassOf(before: nat, total: nat): Class
  {
    if Below(before, total, 80) then A else if Below(before, total, 95) then B else C
  }

  ghost predicate OnePerProduct(es: seq<Entry>)
  {
    forall i, j :: 0 <= i < j < |es| ==> es[i].product != es[j].product
  }

  /** One entry per product that was sold, with its total worth. */
  ghost predicate Aggregates(es: seq<Entry>, items: seq<Sold>, metric: Metric)
  {
    && OnePerProduct(es)
    && (forall e :: e in es ==> e.value == WorthOf(items, metric, e.product))
    && (forall item :: item in items ==> exists e :: e in es && e.product == item.product)
    && (forall e :: e in es ==> Sells(items, e.product))
  }

  ghost predicate Sells(items: seq<Sold>, product: int) { exists item :: item in items && item.product == product }

  // getAbcCurve: the accumulation into a Map, the sort and the running total.
  method GetAbcCurve(items: seq<Sold>, metric: Metric) returns (curve: seq<Point>, entries: seq<Entry>)
    ensures Aggregates(entries, items, metric)
    ensures var sorted := SortDown(entries);
            && |curve| == |sorted|
            && forall i :: 0 <= i < |curve| ==>
                 curve[i] == Point(sorted[i].product, sorted[i].value,
                        Prefix(sorted, i + 1), ClassOf(Prefix(sorted, i), Total(sorted)))
  {
    entries := Aggregate(items, metric);
    var sorted := SortDown(entries);
    var total := 0;
    var n := 0;
    while n < |sorted|
      invariant 0 <= n <= |sorted| && total == Prefix(sorted, n)
    {
      total := total + sorted[n].value;
      n := n + 1;
    }
    curve := [];
    var cumulative := 0;
    var i := 0;
    while i < |sorted|
      invariant 0 <= i <= |sorted| && |curve| == i && cumulative == Prefix(sorted, i)
      invariant forall j :: 0 <= j < i ==>
        curve[j] == Point(sorted[j].product, sorted[j].value,
               Prefix(sorted, j + 1), ClassOf(Prefix(sorted, j), Total(sorted)))
    {
      var before := cumulative;
      cumulative := cumulative + sorted[i].value;
      var class_ := if Below(before, total, 80) then A else if Below(before, total, 95) then B else C;
      curve := curve + [Point(sorted[i].product, sorted[i].value, cumulative, class_)];
      i := i + 1;
    }
  }

  /** What the Map holds after these items: every product sold, once and in insertion order, with its worth. */
  ghost predicate Counted(items: seq<Sold>, metric: Metric, order: seq<int>, byProduct: map<int, nat>)
  {
    && (forall a, b :: 0 <= a < b < |order| ==> order[a] != order[b])
    && (forall p :: p in order <==> p in byProduct)
    && (forall p :: p in byProduct ==> byProduct[p] == WorthOf(items, metric, p) && Sells(items, p))
    && (forall p :: p !in byProduct ==> WorthOf(items, metric, p) == 0)
    && (forall item :: item in items ==> item.product in byProduct)
  }

  lemma {:induction false} CountNone(metric: Metric)
    ensures Counted([], metric, [], map[])
  {
  }

  lemma {:induction false} CountOne(items: seq<Sold>, item: Sold, metric: Metric, order: seq<int>,
      byProduct: map<int, nat>)
    requires Counted(items, metric, order, byProduct)
    ensures var before := if item.product in byProduct then byProduct[item.product] else 0;
      Counted(items + [item], metric, if item.product in byProduct then order else order + [item.product],
              byProduct[item.product := before + Worth(item, metric)])
  {
    hide Worth, WorthOf, Sells;
    forall p ensures WorthOf(items + [item], metric, p) ==
      WorthOf(items, metric, p) + if item.product == p then Worth(item, metric) else 0
    {
      WorthMore(items, item, metric, p);
    }
    forall p | p == item.product || p in byProduct ensures Sells(items + [item], p) { SellsMore(items, item, p); }
  }

  lemma {:induction false} WorthMore(items: seq<Sold>, item: Sold, metric: Metric, product: int)
    ensures WorthOf(items + [item], metric, product) ==
            WorthOf(items, metric, product) + if item.product == product then Worth(item, metric) else 0
  {
    hide Worth;
    assert (items + [item])[..|items|] == items;
  }

  lemma {:induction false} SellsMore(items: seq<Sold>, item: Sold, product: int)
    requires product == item.product || Sells(items, product)
    ensures Sells(items + [item], product)
  {
    if product == item.product {
      assert item in items + [item];
    } else {
      var x :| x in items && x.product == product;
      assert x in items + [item];
    }
  }

  /** A Map keeps its keys in insertion order. */
  method Aggregate(items: seq<Sold>, metric: Metric) returns (es: seq<Entry>)
    ensures Aggregates(es, items, metric)
  {
    hide Counted, Worth, Aggregates;
    var order: seq<int> := [];
    var byProduct: map<int, nat> := map[];
    CountNone(metric);
    var i := 0;
    while i < |items|
      invariant 0 <= i <= |items|
      invariant Counted(items[..i], metric, order, byProduct)
    {
      var item := items[i];
      CountOne(items[..i], item, metric, order, byProduct);
      assert items[..i] + [item] == items[..i + 1];
      var before := if item.product in byProduct then byProduct[item.product] else 0;
      if item.product !in byProduct { order := order + [item.product]; }
      byProduct := byProduct[item.product := before + Worth(item, metric)];
      i := i + 1;
    }
    assert items[..i] == items;
    es := seq(|order|, j requires 0 <= j < |order| =>
        Entry(order[j], if order[j] in byProduct then byProduct[order[j]] else 0));
    EntriesOfMap(items, metric, order, byProduct, es);
  }

  lemma {:induction false} EntriesOfMap(items: seq<Sold>, metric: Metric, order: seq<int>, byProduct: map<int, nat>,
      es: seq<Entry>)
    requires Counted(items, metric, order, byProduct)
    requires |es| == |order| && forall j :: 0 <= j < |es| ==>
      es[j] == Entry(order[j], if order[j] in byProduct then byProduct[order[j]] else 0)
    ensures Aggregates(es, items, metric)
  {
    hide WorthOf, Sells;
    forall item | item in items ensures exists e :: e in es && e.product == item.product {
      assert item.product in order;
      var j :| 0 <= j < |order| && order[j] == item.product;
      assert es[j] in es;
    }
  }

  // ---- The classes are the smallest sets ----

  /** A subset of the entries, as a mask. */
  function Size(mask: seq<bool>): nat
  {
    if mask == [] then 0 else (if mask[0] then 1 else 0) + Size(mask[1..])
  }

  function Value(es: seq<Entry>, mask: seq<bool>): nat
    requires |mask| == |es|
  {
    if es == [] then 0 else (if mask[0] then es[0].value else 0) + Value(es[1..], mask[1..])
  }

  lemma {:induction false} SizeBound(mask: seq<bool>)
    ensures Size(mask) <= |mask|
  {
    if mask != [] { SizeBound(mask[1..]); }
  }

  lemma {:induction false} PrefixShift(es: seq<Entry>, n: nat)
    requires 1 <= n <= |es|
    ensures Prefix(es, n) == es[0].value + Prefix(es[1..], n - 1)
  {
    if n > 1 { PrefixShift(es, n - 1); }
  }

  /** No subset of a given size is worth more than the largest entries. */
  lemma {:induction false} LargestFirst(es: seq<Entry>, mask: seq<bool>)
    requires Descending(es) && |mask| == |es|
    ensures Size(mask) <= |es| && Value(es, mask) <= Prefix(es, Size(mask))
  {
    SizeBound(mask);
    if es != [] {
      var k := Size(mask[1..]);
      SizeBound(mask[1..]);
      LargestFirst(es[1..], mask[1..]);
      PrefixShift(es, k + 1);
    }
  }

  lemma {:induction false} PrefixGrows(es: seq<Entry>, m: nat, n: nat)
    requires m <= n <= |es|
    ensures Prefix(es, m) <= Prefix(es, n)
  {
    if m < n { PrefixGrows(es, m, n - 1); }
  }

  /** How many leading entries have less than `percent` accumulated before them. */
  function Cut(es: seq<Entry>, percent: nat): (n: nat)
    requires Total(es) > 0 && percent <= 100
    ensures n <= |es| && !Below(Prefix(es, n), Total(es), percent)
    ensures forall i :: 0 <= i < n ==> Below(Prefix(es, i), Total(es), percent)
  {
    CutFrom(es, percent, 0)
  }

  function CutFrom(es: seq<Entry>, percent: nat, i: nat): (n: nat)
    requires Total(es) > 0 && percent <= 100 && i <= |es|
    requires forall j :: 0 <= j < i ==> Below(Prefix(es, j), Total(es), percent)
    ensures n <= |es| && !Below(Prefix(es, n), Total(es), percent)
    ensures forall j :: 0 <= j < n ==> Below(Prefix(es, j), Total(es), percent)
    decreases |es| - i
  {
    if !Below(Prefix(es, i), Total(es), percent) then i
    else if i == |es| then assert false; i
    else CutFrom(es, percent, i + 1)
  }

  /** A set of `size` entries is a smallest one reaching `percent` of the total. */
  ghost predicate SmallestReaching(es: seq<Entry>, percent: nat, size: nat)
    requires size <= |es|
  {
    && Prefix(es, size) * 100 >= percent * Total(es)
    && forall mask: seq<bool> :: |mask| == |es| && Value(es, mask) * 100 >= percent * Total(es) ==> Size(mask) >= size
  }

  lemma {:induction false} CutIsSmallest(es: seq<Entry>, percent: nat)
    requires Descending(es) && Total(es) > 0 && percent <= 100
    ensures SmallestReaching(es, percent, Cut(es, percent))
  {
    var n := Cut(es, percent);
    forall mask: seq<bool> | |mask| == |es| && Value(es, mask) * 100 >= percent * Total(es)
      ensures Size(mask) >= n
    {
      LargestFirst(es, mask);
      assert Size(mask) < n ==> Below(Prefix(es, Size(mask)), Total(es), percent);
    }
  }

  lemma {:induction false} CutSplits(es: seq<Entry>, percent: nat, i: nat)
    requires Total(es) > 0 && percent <= 100 && i < |es|
    ensures Below(Prefix(es, i), Total(es), percent) <==> i < Cut(es, percent)
  {
    var n := Cut(es, percent);
    if i >= n { PrefixGrows(es, n, i); }
  }

  /** For a positive total the classes run A, B, C along the curve; class A is a smallest set of
      products that reaches 80% of the value, and A together with B a smallest set that reaches 95%. */
  lemma {:induction false} ClassesOptimal(entries: seq<Entry>)
    requires Total(SortDown(entries)) > 0
    ensures var es := SortDown(entries);
            var a, ab := Cut(es, 80), Cut(es, 95);
            && Descending(es) && multiset(es) == multiset(entries)
            && 1 <= a <= ab <= |es|
            && SmallestReaching(es, 80, a) && SmallestReaching(es, 95, ab)
            && forall i :: 0 <= i < |es| ==>
                 ClassOf(Prefix(es, i), Total(es)) == if i < a then A else if i < ab then B else C
  {
    var es := SortDown(entries);
    SortDownKeeps(entries);
    var a, ab := Cut(es, 80), Cut(es, 95);
    CutIsSmallest(es, 80);
    CutIsSmallest(es, 95);
    forall i | 0 <= i < |es|
      ensures ClassOf(Prefix(es, i), Total(es)) == if i < a then A else if i < ab then B else C
    {
      CutSplits(es, 80, i);
      CutSplits(es, 95, i);
    }
    assert ab < a ==> Below(Prefix(es, ab), Total(es), 80);
  }

  // ---- The whole curve ----

  /** Everything sold: its revenue, or the number of units. */
  function AllWorth(items: seq<Sold>, metric: Metric): nat
  {
    if items == [] then 0
    else
      var last := items[|items| - 1];
      AllWorth(items[..|items| - 1], metric) +
      match metric
      case Revenue => last.quantity * last.unitPriceCents
      case Quantity => last.quantity
  }

  function SumOfWorth(es: seq<Entry>, items: seq<Sold>, metric: Metric): nat
  {
    if es == [] then 0 else WorthOf(items, metric, es[0].product) + SumOfWorth(es[1..], items, metric)
  }

  ghost predicate Lists(es: seq<Entry>, product: int) { exists i :: 0 <= i < |es| && es[i].product == product }

  /** One more item adds its worth to the one entry of its product. */
  lemma {:induction false} WorthOfOneMore(es: seq<Entry>, items: seq<Sold>, metric: Metric)
    requires items != [] && OnePerProduct(es)
    ensures var last := items[|items| - 1];
      SumOfWorth(es, items, metric) ==
      SumOfWorth(es, items[..|items| - 1], metric) + if Lists(es, last.product) then Worth(last, metric) else 0
  {
    hide Worth;
    var last := items[|items| - 1];
    if es != [] {
      forall i, j | 0 <= i < j < |es[1..]| ensures es[1..][i].product != es[1..][j].product {
        assert es[i + 1].product != es[j + 1].product;
      }
      WorthOfOneMore(es[1..], items, metric);
      ListsCons(es, last.product);
      if Lists(es[1..], last.product) {
        var i :| 0 <= i < |es[1..]| && es[1..][i].product == last.product;
        assert es[0].product != es[i + 1].product && es[i + 1].product == last.product;
      }
    }
  }

  lemma {:induction false} ListsCons(es: seq<Entry>, product: int)
    requires es != []
    ensures Lists(es, product) <==> es[0].product == product || Lists(es[1..], product)
  {
    if Lists(es[1..], product) {
      var i :| 0 <= i < |es[1..]| && es[1..][i].product == product;
      assert es[i + 1].product == product;
    }
    if Lists(es, product) && es[0].product != product {
      var i :| 0 <= i < |es| && es[i].product == product;
      assert es[1..][i - 1].product == product;
    }
  }

  lemma {:induction false} WorthAddsUp(es: seq<Entry>, items: seq<Sold>, metric: Metric)
    requires OnePerProduct(es) && forall item :: item in items ==> Lists(es, item.product)
    ensures SumOfWorth(es, items, metric) == AllWorth(items, metric)
  {
    if items == [] {
      NothingWorth(es, metric);
    } else {
      WorthOfOneMore(es, items, metric);
      assert items[|items| - 1] in items;
      WorthAddsUp(es, items[..|items| - 1], metric);
    }
  }

  lemma {:induction false} NothingWorth(es: seq<Entry>, metric: Metric)
    ensures SumOfWorth(es, [], metric) == 0
  {
    if es != [] { NothingWorth(es[1..], metric); }
  }

  lemma {:induction false} TotalCons(e: Entry, es: seq<Entry>, n: nat)
    requires n <= |es|
    ensures Prefix([e] + es, n + 1) == e.value + Prefix(es, n)
  {
    if n > 0 { TotalCons(e, es, n - 1); }
  }

  lemma {:induction false} TotalInsert(e: Entry, es: seq<Entry>)
    ensures Total(InsertDown(e, es)) == e.value + Total(es)
  {
    TotalCons(e, es, |es|);
    if es != [] && e.value < es[0].value {
      TotalInsert(e, es[1..]);
      TotalCons(es[0], InsertDown(e, es[1..]), |InsertDown(e, es[1..])|);
      TotalCons(es[0], es[1..], |es| - 1);
      assert es == [es[0]] + es[1..];
    }
  }

  lemma {:induction false} TotalIsWorth(es: seq<Entry>, items: seq<Sold>, metric: Metric)
    requires forall e :: e in es ==> e.value == WorthOf(items, metric, e.product)
    ensures Total(SortDown(es)) == SumOfWorth(es, items, metric)
  {
    if es != [] {
      assert es[0] in es;
      TotalIsWorth(es[1..], items, metric);
      TotalInsert(es[0], SortDown(es[1..]));
    }
  }

  /** What the curve accumulates in the end is everything sold: revenue or units, by the metric that was asked for. */
  lemma {:induction false} CurveCoversAll(entries: seq<Entry>, items: seq<Sold>, metric: Metric)
    requires Aggregates(entries, items, metric)
    ensures Total(SortDown(entries)) == AllWorth(items, metric)
  {
    TotalIsWorth(entries, items, metric);
    forall item | item in items ensures Lists(entries, item.product) {
      var e :| e in entries && e.product == item.product;
      var i :| 0 <= i < |entries| && entries[i] == e;
    }
    WorthAddsUp(entries, items, metric);
  }

  /** Where nothing of value was sold every product is of class A. */
  lemma {:induction false} NothingOfValue(es: seq<Entry>, i: nat)
    requires i <= |es| && Total(es) == 0
    ensures ClassOf(Prefix(es, i), Total(es)) == A
  {
  }
}
