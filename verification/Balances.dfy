/**
 The two balance queries of services/app/src/modules/stock/balance.ts over the whole movements table
 of a tenant: one product at a time, and batched over many products. Each reads one most recent row
 per (product, store), in whatever order and with whatever choice among equal timestamps the
 database makes.
 */
module Balances {
  import opened Prelude
  import opened Ledger

  function Rows(table: seq<Movement>, k: Key): seq<Movement>
  {
    if table == [] then []
    else
      var row := table[|table| - 1];
      Rows(table[..|table| - 1], k) + if row.key == k then [row] else []
  }

  /** The WHERE clause: one of the products, in the store if one is given. */
  predicate Selected(k: Key, products: set<int>, store: Option<int>)
  {
    k.product in products && (store.Some? ==> k.store == store.value)
  }

  ghost predicate DistinctKeys(rows: seq<Movement>)
  {
    forall i, j :: 0 <= i < j < |rows| ==> rows[i].key != rows[j].key
  }

  ghost predicate IsLatest(row: Movement, table: seq<Movement>)
  {
    exists i :: MostRecent(Rows(table, row.key), i) && Rows(table, row.key)[i] == row
  }

  ghost predicate HasRows(table: seq<Movement>, k: Key) { exists m :: m in table && m.key == k }

  /** SELECT DISTINCT ON (product_id, store_id) ... ORDER BY product_id, store_id, created_at DESC. */
  ghost predicate IsAnswer(rows: seq<Movement>, table: seq<Movement>, products: set<int>, store: Option<int>)
  {
    && DistinctKeys(rows)
    && (forall row :: row in rows ==> Selected(row.key, products, store) && IsLatest(row, table))
    && (forall k :: HasRows(table, k) && Selected(k, products, store) ==> exists row :: row in rows && row.key == k)
  }

  /** The reduce of getCurrentStock. */
  function BalanceSum(rows: seq<Movement>): int
  {
    if rows == [] then 0 else BalanceSum(rows[..|rows| - 1]) + rows[|rows| - 1].balanceAfter
  }

  function BalanceSumOf(rows: seq<Movement>, product: int): int
  {
    if rows == [] then 0
    else BalanceSumOf(rows[..|rows| - 1], product) +
         if rows[|rows| - 1].key.product == product then rows[|rows| - 1].balanceAfter else 0
  }

  // The loop of getCurrentStockForProducts.
  method CurrentStockForProducts(rows: seq<Movement>) returns (result: map<int, int>)
    ensures forall p :: p in result <==> exists i :: 0 <= i < |rows| && rows[i].key.product == p
    ensures forall p :: p in result ==> result[p] == BalanceSumOf(rows, p)
    ensures forall p :: p !in result ==> BalanceSumOf(rows, p) == 0
  {
    result := map[];
    var i := 0;
    while i < |rows|
      invariant 0 <= i <= |rows|
      invariant forall p :: p in result <==> exists j :: 0 <= j < i && rows[j].key.product == p
      invariant forall p :: p in result ==> result[p] == BalanceSumOf(rows[..i], p)
      invariant forall p :: p !in result ==> BalanceSumOf(rows[..i], p) == 0
    {
      var row := rows[i];
      var before := if row.key.product in result then result[row.key.product] else 0;
      assert rows[..i + 1][..i] == rows[..i];
      result := result[row.key.product := before + row.balanceAfter];
      i := i + 1;
    }
    assert rows[..i] == rows;
  }

  // ---- The answers agree ----

  ghost predicate TableChronological(table: seq<Movement>) { forall k :: Chronological(Rows(table, k)) }

  ghost predicate TableRight(table: seq<Movement>) { forall k :: RunningSums(Rows(table, k)) }

  lemma {:induction false} RowsMembers(table: seq<Movement>, k: Key)
    ensures forall m :: m in Rows(table, k) <==> m in table && m.key == k
  {
    if table != [] { RowsMembers(table[..|table| - 1], k); }
  }

  function Without(rows: seq<Movement>, i: nat): seq<Movement>
    requires i < |rows|
  {
    rows[..i] + rows[i + 1..]
  }

  lemma {:induction false} SumWithout(rows: seq<Movement>, i: nat, product: int)
    requires i < |rows|
    ensures BalanceSumOf(rows, product) ==
            BalanceSumOf(Without(rows, i), product) + if rows[i].key.product == product then rows[i].balanceAfter else 0
  {
    var n := |rows| - 1;
    if i < n {
      SumWithout(rows[..n], i, product);
      assert Without(rows, i)[..n - 1] == Without(rows[..n], i);
      assert Without(rows, i)[n - 1] == rows[n];
    } else {
      assert Without(rows, i) == rows[..n];
    }
  }

  /** Each row of the product in `a` has one of the same pair and the same balance in `b`. */
  ghost predicate Matched(a: seq<Movement>, b: seq<Movement>, product: int)
  {
    forall m :: m in a && m.key.product == product ==> HasMatch(b, m)
  }

  ghost predicate HasMatch(b: seq<Movement>, m: Movement)
  {
    exists x :: x in b && x.key == m.key && x.balanceAfter == m.balanceAfter
  }

  lemma {:induction false} MatchedWithout(a: seq<Movement>, b: seq<Movement>, n: nat, i: nat, product: int)
    requires DistinctKeys(a) && DistinctKeys(b) && Matched(a, b, product) && n < |a| && i < |b| && a[n].key == b[i].key
    ensures Matched(Without(a, n), Without(b, i), product) && DistinctKeys(Without(a, n))
  {
    forall m | m in Without(a, n) && m.key.product == product ensures HasMatch(Without(b, i), m) {
      var k :| 0 <= k < |a| && k != n && a[k] == m;
      assert m in a && HasMatch(b, m);
      var x :| x in b && x.key == m.key && x.balanceAfter == m.balanceAfter;
      var j :| 0 <= j < |b| && b[j] == x;
      assert j != i;
      assert Without(b, i)[if j < i then j else j - 1] == x;
    }
  }

  /** Two answers that match on a product have the same sum for it. */
  lemma {:induction false} MatchedSameSum(a: seq<Movement>, b: seq<Movement>, product: int)
    requires DistinctKeys(a) && DistinctKeys(b) && Matched(a, b, product) && Matched(b, a, product)
    ensures BalanceSumOf(a, product) == BalanceSumOf(b, product)
    decreases |a| + |b|
  {
    if a == [] {
      assert forall m :: !HasMatch(a, m);
      NoneOf(b, product);
    } else {
      var n := |a| - 1;
      assert Without(a, n) == a[..n];
      if a[n].key.product != product {
        OtherProductMatched(a, b, product);
        MatchedSameSum(a[..n], b, product);
      } else {
        assert HasMatch(b, a[n]);
        var i :| 0 <= i < |b| && b[i].key == a[n].key && b[i].balanceAfter == a[n].balanceAfter;
        MatchedWithout(a, b, n, i, product);
        MatchedWithout(b, a, i, n, product);
        SumWithout(b, i, product);
        MatchedSameSum(a[..n], Without(b, i), product);
      }
    }
  }

  lemma {:induction false} OtherProductMatched(a: seq<Movement>, b: seq<Movement>, product: int)
    requires a != [] && a[|a| - 1].key.product != product && Matched(a, b, product) && Matched(b, a, product)
    ensures Matched(a[..|a| - 1], b, product) && Matched(b, a[..|a| - 1], product)
  {
    forall m | m in b && m.key.product == product ensures HasMatch(a[..|a| - 1], m) {
      assert HasMatch(a, m);
      var x :| x in a && x.key == m.key && x.balanceAfter == m.balanceAfter;
      assert x in a[..|a| - 1];
    }
  }

  lemma {:induction false} NoneOf(rows: seq<Movement>, product: int)
    requires forall m :: m in rows ==> m.key.product != product
    ensures BalanceSumOf(rows, product) == 0
  {
    if rows != [] {
      assert rows[|rows| - 1] in rows;
      NoneOf(rows[..|rows| - 1], product);
    }
  }

  lemma {:induction false} AllOf(rows: seq<Movement>, product: int)
    requires forall m :: m in rows ==> m.key.product == product
    ensures BalanceSumOf(rows, product) == BalanceSum(rows)
  {
    if rows != [] {
      assert rows[|rows| - 1] in rows;
      AllOf(rows[..|rows| - 1], product);
    }
  }

  /** The most recent rows of each pair of the product, in the store if one is given, agree on the balance. */
  ghost predicate NoTies(table: seq<Movement>, product: int, store: Option<int>)
  {
    forall a, b :: IsLatest(a, table) && IsLatest(b, table) && a.key == b.key && Selected(a.key, {product}, store) ==>
      a.balanceAfter == b.balanceAfter
  }

  lemma {:induction false} AnswersMatch(a: seq<Movement>, b: seq<Movement>, table: seq<Movement>, pa: set<int>,
      pb: set<int>, store: Option<int>, product: int)
    requires NoTies(table, product, store) && product in pa && product in pb
    requires IsAnswer(a, table, pa, store) && IsAnswer(b, table, pb, store)
    ensures Matched(a, b, product)
  {
    forall m | m in a && m.key.product == product ensures HasMatch(b, m) {
      RowsMembers(table, m.key);
      var i :| MostRecent(Rows(table, m.key), i) && Rows(table, m.key)[i] == m;
      assert m in Rows(table, m.key);
      assert HasRows(table, m.key);
      var row :| row in b && row.key == m.key;
      assert row.balanceAfter == m.balanceAfter;
    }
  }

  ghost predicate AlwaysAgree(table: seq<Movement>, ids: set<int>, store: Option<int>, product: int)
  {
    forall batched, single :: IsAnswer(batched, table, ids, store) && IsAnswer(single, table, {product}, store) ==>
      BalanceSumOf(batched, product) == BalanceSum(single)
  }

  lemma {:induction false} NoTiesAgree(table: seq<Movement>, ids: set<int>, store: Option<int>,
      batched: seq<Movement>, single: seq<Movement>, product: int)
    requires NoTies(table, product, store) && product in ids
    requires IsAnswer(batched, table, ids, store) && IsAnswer(single, table, {product}, store)
    ensures BalanceSumOf(batched, product) == BalanceSum(single)
  {
    hide NoTies, Matched;
    AnswersMatch(batched, single, table, ids, {product}, store, product);
    AnswersMatch(single, batched, table, {product}, ids, store, product);
    MatchedSameSum(batched, single, product);
    AllOf(single, product);
  }

  lemma {:induction false} BalanceSumUpdate(rows: seq<Movement>, i: nat, row: Movement)
    requires i < |rows|
    ensures BalanceSum(rows[i := row]) == BalanceSum(rows) - rows[i].balanceAfter + row.balanceAfter
  {
    var n := |rows| - 1;
    if i < n {
      BalanceSumUpdate(rows[..n], i, row);
      assert rows[i := row][..n] == rows[..n][i := row];
    } else {
      assert rows[i := row][..n] == rows[..n];
    }
  }

  /** An answer may contain either of two most recent rows. */
  lemma {:induction false} OtherAnswer(table: seq<Movement>, products: set<int>, store: Option<int>,
      rows: seq<Movement>, i: nat, row: Movement)
    requires IsAnswer(rows, table, products, store) && i < |rows| && rows[i].key == row.key && IsLatest(row, table)
    ensures IsAnswer(rows[i := row], table, products, store)
  {
    hide IsLatest;
    var other := rows[i := row];
    forall k | HasRows(table, k) && Selected(k, products, store) ensures exists r :: r in other && r.key == k {
      var r :| r in rows && r.key == k;
      var j :| 0 <= j < |rows| && rows[j] == r;
      assert other[j].key == k;
    }
  }

  lemma {:induction false} RowOfLatest(table: seq<Movement>, products: set<int>, store: Option<int>,
      rows: seq<Movement>, m: Movement) returns (i: nat)
    requires IsAnswer(rows, table, products, store) && IsLatest(m, table) && Selected(m.key, products, store)
    ensures i < |rows| && rows[i].key == m.key
  {
    RowsMembers(table, m.key);
    var x :| MostRecent(Rows(table, m.key), x) && Rows(table, m.key)[x] == m;
    assert m in Rows(table, m.key) && HasRows(table, m.key);
    hide IsLatest;
    var row :| row in rows && row.key == m.key;
    i :| 0 <= i < |rows| && rows[i] == row;
  }

  lemma {:induction false} TieDisagrees(table: seq<Movement>, ids: set<int>, store: Option<int>,
      batched: seq<Movement>, single: seq<Movement>, product: int, a: Movement, b: Movement)
    requires IsAnswer(batched, table, ids, store) && IsAnswer(single, table, {product}, store)
    requires IsLatest(a, table) && IsLatest(b, table) && a.key == b.key && Selected(a.key, {product}, store)
    requires a.balanceAfter != b.balanceAfter
    ensures !AlwaysAgree(table, ids, store, product)
  {
    hide IsLatest, IsAnswer, Selected, BalanceSum, BalanceSumOf;
    var i := RowOfLatest(table, {product}, store, single, a);
    OtherAnswer(table, {product}, store, single, i, a);
    OtherAnswer(table, {product}, store, single, i, b);
    BalanceSumUpdate(single, i, a);
    BalanceSumUpdate(single, i, b);
    assert BalanceSumOf(batched, product) != BalanceSum(single[i := a]) ||
           BalanceSumOf(batched, product) != BalanceSum(single[i := b]);
  }

  /** The batched balance of a requested product is the balance that the simple query gives, with or without a
      store and whatever rows the database picks, exactly when the most recent rows of its pairs agree. */
  lemma {:induction false} BatchedAgreesIff(table: seq<Movement>, ids: set<int>, store: Option<int>,
      batched: seq<Movement>, single: seq<Movement>, product: int)
    requires product in ids
    requires IsAnswer(batched, table, ids, store) && IsAnswer(single, table, {product}, store)
    ensures AlwaysAgree(table, ids, store, product) <==> NoTies(table, product, store)
  {
    hide IsAnswer, IsLatest, Selected;
    if NoTies(table, product, store) {
      forall x, y | IsAnswer(x, table, ids, store) && IsAnswer(y, table, {product}, store)
        ensures BalanceSumOf(x, product) == BalanceSum(y)
      {
        NoTiesAgree(table, ids, store, x, y, product);
      }
    } else {
      var a, b :| IsLatest(a, table) && IsLatest(b, table) && a.key == b.key &&
        Selected(a.key, {product}, store) && a.balanceAfter != b.balanceAfter;
      TieDisagrees(table, ids, store, batched, single, product, a, b);
    }
  }

  // ---- The balance is the sum of all movements ----

  /** The movements of the product, in one store or in all of them. */
  predicate Counts(m: Movement, product: int, store: Option<int>)
  {
    m.key.product == product && match store case None => true case Some(s) => m.key.store == s
  }

  function UnitsMoved(table: seq<Movement>, product: int, store: Option<int>): int
  {
    if table == [] then 0
    else UnitsMoved(table[..|table| - 1], product, store) +
         if Counts(table[|table| - 1], product, store) then table[|table| - 1].quantity else 0
  }

  /** The units of the pairs that have a row in `rows`. */
  function UnitsOfKeys(rows: seq<Movement>, table: seq<Movement>): int
  {
    if rows == [] then 0
    else UnitsOfKeys(rows[..|rows| - 1], table) + Units(Rows(table, rows[|rows| - 1].key))
  }

  lemma {:induction false} UnitsOfKeysStep(rows: seq<Movement>, table: seq<Movement>, m: Movement)
    requires DistinctKeys(rows)
    ensures UnitsOfKeys(rows, table + [m]) ==
            UnitsOfKeys(rows, table) + if exists row :: row in rows && row.key == m.key then m.quantity else 0
  {
    assert (table + [m])[..|table|] == table;
    if rows != [] {
      var n := |rows| - 1;
      var k := rows[n].key;
      UnitsOfKeysStep(rows[..n], table, m);
      assert forall row :: row in rows <==> row in rows[..n] || row == rows[n];
      assert Rows(table + [m], k) == Rows(table, k) + if m.key == k then [m] else [];
      if m.key == k {
        UnitsSnoc(Rows(table, k), m);
        forall row | row in rows[..n] ensures row.key != k {}
      } else {
        assert Rows(table, k) + [] == Rows(table, k);
      }
    }
  }

  lemma {:induction false} KeysCover(rows: seq<Movement>, table: seq<Movement>, product: int, store: Option<int>)
    requires DistinctKeys(rows) && forall row :: row in rows ==> Counts(row, product, store)
    requires forall m :: m in table && Counts(m, product, store) ==> exists row :: row in rows && row.key == m.key
    ensures UnitsOfKeys(rows, table) == UnitsMoved(table, product, store)
  {
    if table == [] {
      EmptyTable(rows);
    } else {
      var n := |table| - 1;
      KeysCover(rows, table[..n], product, store);
      UnitsOfKeysStep(rows, table[..n], table[n]);
      assert table == table[..n] + [table[n]];
      assert table[n] in table;
    }
  }

  lemma {:induction false} EmptyTable(rows: seq<Movement>)
    ensures UnitsOfKeys(rows, []) == 0
  {
    if rows != [] {
      EmptyTable(rows[..|rows| - 1]);
      assert Quantities([]) == [];
    }
  }

  lemma {:induction false} BalancesAreUnits(rows: seq<Movement>, table: seq<Movement>)
    requires TableRight(table) && TableChronological(table) && forall row :: row in rows ==> IsLatest(row, table)
    ensures BalanceSum(rows) == UnitsOfKeys(rows, table)
  {
    if rows != [] {
      var n := |rows| - 1;
      var row := rows[n];
      var of := Rows(table, row.key);
      assert row in rows;
      BalancesAreUnits(rows[..n], table);
      assert RunningSums(of) && Chronological(of);
      BalanceIsUnits(of);
      var i :| MostRecent(of, i) && of[i] == row;
      LatestIsMostRecent(of);
      assert LatestIndex(of) == i;
    }
  }

  /** The balance of a product, in one store or consolidated over all of them, is the sum of the quantities of all
      its movements there. */
  lemma {:induction false} BalanceIsAllMovements(table: seq<Movement>, single: seq<Movement>, product: int,
      store: Option<int>)
    requires TableChronological(table) && TableRight(table)
    requires IsAnswer(single, table, {product}, store)
    ensures BalanceSum(single) == UnitsMoved(table, product, store)
  {
    BalancesAreUnits(single, table);
    forall m | m in table && Counts(m, product, store) ensures exists row :: row in single && row.key == m.key {
      assert HasRows(table, m.key) && Selected(m.key, {product}, store);
    }
    KeysCover(single, table, product, store);
  }
}
