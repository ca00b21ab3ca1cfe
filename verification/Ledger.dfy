/**
 The stock ledger (services/app/src/modules/stock/balance.ts). Stock is not stored: it is the
 `balanceAfter` of the most recent movement of a (product, store) pair, which each new movement
 computes from the previous one.
 */
module Ledger {
  import opened Prelude

  /** What one advisory lock is meant to protect: a product of a tenant in one store. */
  datatype Key = Key(tenant: int, product: int, store: int)

  /** A lot never changes product or store, so its identity carries the pair it belongs to. */
  datatype LotId = LotId(home: Key, index: nat)

  datatype Kind = ManualEntry | NfeEntry | SaleExit | LossExit | Adjustment | TransferOut | TransferIn

  datatype Movement = Movement(
    key: Key, quantity: int, balanceAfter: int, kind: Kind, lot: Option<LotId>, createdAt: int)

  function Quantities(rows: seq<Movement>): seq<int>
  {
    seq(|rows|, i requires 0 <= i < |rows| => rows[i].quantity)
  }

  /** The sum of the quantities of all movements: what the stock is. */
  function Units(rows: seq<Movement>): int { Sum(Quantities(rows)) }

  lemma {:induction false} UnitsSnoc(rows: seq<Movement>, row: Movement)
    ensures Units(rows + [row]) == Units(rows) + row.quantity
  {
    assert Quantities(rows + [row])[..|rows|] == Quantities(rows);
  }

  // ---- ORDER BY created_at DESC ----

  /** A row that the query may return first: none was created later. */
  ghost predicate MostRecent(rows: seq<Movement>, i: int)
  {
    0 <= i < |rows| && forall j :: 0 <= j < |rows| ==> rows[j].createdAt <= rows[i].createdAt
  }

  /** The most recent row; among rows created at the same instant, the one appended last. */
  function LatestIndex(rows: seq<Movement>): (i: nat)
    requires rows != []
    ensures i < |rows|
  {
    var n := |rows| - 1;
    if n == 0 then 0
    else
      var i := LatestIndex(rows[..n]);
      if rows[i].createdAt <= rows[n].createdAt then n else i
  }

  lemma {:induction false} LatestIsMostRecent(rows: seq<Movement>)
    requires rows != []
    ensures MostRecent(rows, LatestIndex(rows))
    ensures forall j :: LatestIndex(rows) < j < |rows| ==> rows[j].createdAt < rows[LatestIndex(rows)].createdAt
  {
    var n := |rows| - 1;
    if n > 0 { LatestIsMostRecent(rows[..n]); }
  }

  /** getCurrentStock for one store. */
  function Balance(rows: seq<Movement>): int
  {
    if rows == [] then 0 else rows[LatestIndex(rows)].balanceAfter
  }

  /** Timestamps follow the order in which the rows of one pair were appended. */
  ghost predicate Chronological(rows: seq<Movement>)
  {
    forall i, j :: 0 <= i < j < |rows| ==> rows[i].createdAt < rows[j].createdAt
  }

  /** Each movement's cached balance is the sum of all movements up to and including it. */
  ghost predicate RunningSums(rows: seq<Movement>)
  {
    forall i :: 0 <= i < |rows| ==> rows[i].balanceAfter == Units(rows[..i + 1])
  }

  lemma {:induction false} BalanceIsUnits(rows: seq<Movement>)
    requires Chronological(rows) && RunningSums(rows)
    ensures Balance(rows) == Units(rows)
  {
    if rows == [] {
    } else {
      var n := |rows| - 1;
      LatestIsMostRecent(rows);
      assert LatestIndex(rows) == n;
      assert rows[..n + 1] == rows;
    }
  }

  lemma {:induction false} EarlierRows(rows: seq<Movement>, row: Movement)
    requires Chronological(rows + [row])
    ensures Chronological(rows)
  {
    forall i, j | 0 <= i < j < |rows| ensures rows[i].createdAt < rows[j].createdAt {
      assert (rows + [row])[i].createdAt < (rows + [row])[j].createdAt;
    }
  }

  /** A row written on the most recent balance keeps the running sum. */
  lemma {:induction false} AppendKeepsSums(rows: seq<Movement>, row: Movement)
    requires Chronological(rows) && RunningSums(rows)
    requires row.balanceAfter == Balance(rows) + row.quantity
    ensures RunningSums(rows + [row])
  {
    var out := rows + [row];
    BalanceIsUnits(rows);
    forall i | 0 <= i < |out| ensures out[i].balanceAfter == Units(out[..i + 1]) {
      if i < |rows| {
        assert out[..i + 1] == rows[..i + 1];
      } else {
        assert out[..i + 1] == rows + [row];
        UnitsSnoc(rows, row);
      }
    }
  }

  // ---- Exactly which timestamps the cached balance survives ----

  /** For each insertion, an index that the query may return as the most recent earlier row. */
  ghost predicate Admissible(stamps: seq<int>, picks: seq<nat>)
  {
    && |picks| == |stamps|
    && forall i :: 1 <= i < |stamps| ==>
      picks[i] < i && forall j :: 0 <= j < i ==> stamps[j] <= stamps[picks[i]]
  }

  /** The balances that insertions with these quantities write when insertion i reads row picks[i]. */
  function BalancesFor(quantities: seq<int>, picks: seq<nat>): (bs: seq<int>)
    requires |picks| == |quantities|
    requires forall i :: 1 <= i < |picks| ==> picks[i] < i
    ensures |bs| == |quantities|
  {
    if quantities == [] then []
    else
      var n := |quantities| - 1;
      var before := BalancesFor(quantities[..n], picks[..n]);
      before + [if n == 0 then quantities[n] else before[picks[n]] + quantities[n]]
  }

  ghost predicate SumsRight(quantities: seq<int>, balances: seq<int>)
    requires |balances| == |quantities|
  {
    forall i :: 0 <= i < |balances| ==> balances[i] == Sum(quantities[..i + 1])
  }

  /** All rows but the last have strictly increasing timestamps (the last one is never read). */
  ghost predicate StrictBeforeLast(stamps: seq<int>)
  {
    forall i, j :: 0 <= i < j < |stamps| - 1 ==> stamps[i] < stamps[j]
  }

  lemma {:induction false} LastPicksRight(quantities: seq<int>, picks: seq<nat>)
    requires |picks| == |quantities|
    requires forall i :: 1 <= i < |picks| ==> picks[i] == i - 1
    ensures SumsRight(quantities, BalancesFor(quantities, picks))
  {
    if quantities != [] {
      var n := |quantities| - 1;
      LastPicksRight(quantities[..n], picks[..n]);
      var bs := BalancesFor(quantities, picks);
      forall i | 0 <= i < |bs| ensures bs[i] == Sum(quantities[..i + 1]) {
        if i < n {
          assert quantities[..n][..i + 1] == quantities[..i + 1];
        } else {
          assert quantities[..n + 1] == quantities;
          if n > 0 { assert quantities[..n][..n] == quantities[..n]; }
        }
      }
    }
  }

  /** Single units, with one insertion at `n` that reads an older row than the last. */
  lemma {:induction false} StalePickWrong(quantities: seq<int>, picks: seq<nat>, n: nat)
    requires |picks| == |quantities| && 1 <= n < |picks|
    requires forall i :: 0 <= i < |quantities| ==> quantities[i] == 1
    requires forall i :: 1 <= i < |picks| ==> picks[i] < i
    requires picks[n] < n - 1 && forall i :: 1 <= i < n ==> picks[i] == i - 1
    ensures !SumsRight(quantities, BalancesFor(quantities, picks))
  {
    BalancesPrefix(quantities, picks, n);
    BalancesPrefix(quantities, picks, n + 1);
    var p := picks[n];
    var head := BalancesFor(quantities[..n], picks[..n]);
    LastPicksRight(quantities[..n], picks[..n]);
    assert quantities[..n][..p + 1] == quantities[..p + 1];
    OnesSum(quantities[..p + 1]);
    OnesSum(quantities[..n + 1]);
    var bs := BalancesFor(quantities, picks);
    var upto := BalancesFor(quantities[..n + 1], picks[..n + 1]);
    assert quantities[..n + 1][..n] == quantities[..n] && picks[..n + 1][..n] == picks[..n];
    assert upto[n] == head[p] + 1 == p + 2;
    assert bs[n] == upto[n];
    assert Sum(quantities[..n + 1]) == n + 1;
  }

  lemma {:induction false} OnesSum(xs: seq<int>)
    requires forall i :: 0 <= i < |xs| ==> xs[i] == 1
    ensures Sum(xs) == |xs|
  {
    if xs != [] { OnesSum(xs[..|xs| - 1]); }
  }

  lemma {:induction false} BalancesPrefix(quantities: seq<int>, picks: seq<nat>, n: nat)
    requires |picks| == |quantities| && n <= |picks|
    requires forall i :: 1 <= i < |picks| ==> picks[i] < i
    ensures BalancesFor(quantities, picks)[..n] == BalancesFor(quantities[..n], picks[..n])
  {
    if n == |quantities| {
      assert quantities[..n] == quantities && picks[..n] == picks;
    } else {
      var m := |quantities| - 1;
      BalancesPrefix(quantities[..m], picks[..m], n);
      assert quantities[..m][..n] == quantities[..n] && picks[..m][..n] == picks[..n];
    }
  }

  /** For given timestamps, the cached balance is the running sum for every choice of quantities
      and every answer the query may give, exactly when the timestamps that get read increase. */
  lemma {:induction false} CachedBalanceIff(stamps: seq<int>)
    ensures StrictBeforeLast(stamps) <==>
      forall quantities: seq<int>, picks: seq<nat> ::
        |quantities| == |stamps| && Admissible(stamps, picks) ==> SumsRight(quantities, BalancesFor(quantities, picks))
  {
    if StrictBeforeLast(stamps) {
      forall quantities: seq<int>, picks: seq<nat> | |quantities| == |stamps| && Admissible(stamps, picks)
        ensures SumsRight(quantities, BalancesFor(quantities, picks))
      {
        forall i | 1 <= i < |picks| ensures picks[i] == i - 1 {
          assert stamps[i - 1] <= stamps[picks[i]];
        }
        LastPicksRight(quantities, picks);
      }
    } else {
      var n, picks := StaleAnswer(stamps);
      var ones := seq(|stamps|, _ => 1);
      StalePickWrong(ones, picks, n);
    }
  }

  /** The first movement that does not come after its predecessor, other than the last one. */
  lemma {:induction false} FirstTie(stamps: seq<int>) returns (n: nat)
    requires !StrictBeforeLast(stamps)
    ensures 2 <= n < |stamps| && stamps[n - 2] >= stamps[n - 1]
    ensures forall i, j :: 0 <= i < j < n - 1 ==> stamps[i] < stamps[j]
  {
    n := 2;
    while stamps[n - 2] < stamps[n - 1]
      invariant 2 <= n < |stamps|
      decreases |stamps| - n
      invariant forall i, j :: 0 <= i < j < n - 1 ==> stamps[i] < stamps[j]
    {
      n := n + 1;
      if n == |stamps| { assert false; }
    }
  }

  /** Where the timestamps do not increase, the query may answer with a row that is not the last. */
  lemma {:induction false} StaleAnswer(stamps: seq<int>) returns (n: nat, picks: seq<nat>)
    requires !StrictBeforeLast(stamps)
    ensures Admissible(stamps, picks) && 1 <= n < |stamps| && picks[n] < n - 1
    ensures forall i :: 1 <= i < n ==> picks[i] == i - 1
  {
    n := FirstTie(stamps);
    hide StrictBeforeLast;
    picks := [0];
    while |picks| < |stamps|
      invariant 1 <= |picks| <= |stamps|
      invariant forall i :: 1 <= i < |picks| ==>
        picks[i] < i && forall j :: 0 <= j < i ==> stamps[j] <= stamps[picks[i]]
      invariant forall i :: 1 <= i < |picks| && i < n ==> picks[i] == i - 1
      invariant |picks| > n ==> picks[n] == n - 2
    {
      var i := |picks|;
      var p := if i < n then i - 1 else if i == n then n - 2 else ArgMax(stamps[..i]);
      picks := picks + [p];
    }
  }

  function ArgMax(xs: seq<int>): (p: nat)
    requires xs != []
    ensures p < |xs| && forall j :: 0 <= j < |xs| ==> xs[j] <= xs[p]
  {
    var n := |xs| - 1;
    if n == 0 then 0
    else
      var p := ArgMax(xs[..n]);
      assert forall j :: 0 <= j < n ==> xs[j] == xs[..n][j];
      if xs[p] <= xs[n] then n else p
  }
}
