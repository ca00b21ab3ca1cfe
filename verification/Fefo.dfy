/**
 First-expired-first-out allocation of a request over the lots of one product in one store
 (services/app/src/modules/stock/fefo.ts). Expiry dates are day numbers: ISO dates compare as
 strings in the order of the days they name.
 */
module Fefo {
  import opened Prelude

  /** A lot offered for an exit, or the part of it that a suggestion takes. */
  datatype Batch = Batch(id: nat, expiry: int, quantity: int)

  datatype Suggestion = Suggestion(items: seq<Batch>, fullyCovered: bool)

  datatype FefoError = NotPositive(requested: int)

  function Positive(bs: seq<Batch>): seq<Batch>
  {
    if bs == [] then []
    else if bs[0].quantity > 0 then [bs[0]] + Positive(bs[1..])
    else Positive(bs[1..])
  }

  /** Stable insertion: `b` came before every element of `bs` in the input. */
  function Insert(b: Batch, bs: seq<Batch>): seq<Batch>
  {
    if bs == [] || b.expiry <= bs[0].expiry then [b] + bs
    else [bs[0]] + Insert(b, bs[1..])
  }

  function SortByExpiry(bs: seq<Batch>): seq<Batch>
  {
    if bs == [] then [] else Insert(bs[0], SortByExpiry(bs[1..]))
  }

  ghost predicate Ordered(bs: seq<Batch>)
  {
    forall i, j :: 0 <= i < j < |bs| ==> bs[i].expiry <= bs[j].expiry
  }

  /** The lots the algorithm walks through, in the order it walks. */
  function Queue(bs: seq<Batch>): seq<Batch> { SortByExpiry(Positive(bs)) }

  function Take(b: Batch, n: int): Batch { b.(quantity := n) }

  /** What the greedy loop suggests from `bs` when `remaining` units are still wanted. */
  function Greedy(bs: seq<Batch>, remaining: int): seq<Batch>
  {
    if bs == [] || remaining <= 0 then []
    else
      var take := Min(bs[0].quantity, remaining);
      [Take(bs[0], take)] + Greedy(bs[1..], remaining - take)
  }

  function Total(bs: seq<Batch>): int
  {
    if bs == [] then 0 else bs[0].quantity + Total(bs[1..])
  }

  /** Units in `bs` that expire on or before `cutoff`. */
  function UpTo(bs: seq<Batch>, cutoff: int): int
  {
    if bs == [] then 0
    else (if bs[0].expiry <= cutoff then bs[0].quantity else 0) + UpTo(bs[1..], cutoff)
  }

  function Suggest(bs: seq<Batch>, requested: int): (r: Result<Suggestion, FefoError>)
  {
    if requested <= 0 then Err(NotPositive(requested))
    else
      var items := Greedy(Queue(bs), requested);
      Ok(Suggestion(items, requested - Total(items) <= 0))
  }

  lemma {:induction false} GreedyAt(bs: seq<Batch>, i: nat, remaining: int)
    requires i < |bs| && remaining > 0
    ensures var take := Min(bs[i].quantity, remaining);
            Greedy(bs[i..], remaining) == [Take(bs[i], take)] + Greedy(bs[i + 1..], remaining - take)
  {
    assert bs[i..][1..] == bs[i + 1..];
  }

  // The loop of suggestFefoBatches.
  method SuggestFefoBatches(batches: seq<Batch>, requested: int) returns (r: Result<Suggestion, FefoError>)
    ensures r == Suggest(batches, requested)
  {
    hide Queue;
    if requested <= 0 {
      return Err(NotPositive(requested));
    }
    var sorted := Queue(batches);
    var suggestions: seq<Batch> := [];
    var remaining := requested;
    var i := 0;
    while i < |sorted|
      invariant 0 <= i <= |sorted|
      invariant Greedy(sorted, requested) == suggestions + Greedy(sorted[i..], remaining)
      invariant remaining == requested - Total(suggestions)
    {
      if remaining <= 0 { break; }
      var batch := sorted[i];
      var take := Min(batch.quantity, remaining);
      GreedyAt(sorted, i, remaining);
      TotalAppend(suggestions, [Take(batch, take)]);
      suggestions := suggestions + [Take(batch, take)];
      remaining := remaining - take;
      i := i + 1;
    }
    assert Greedy(sorted, requested) == suggestions + [] == suggestions;
    r := Ok(Suggestion(suggestions, remaining <= 0));
  }

  lemma {:induction false} TotalAppend(xs: seq<Batch>, ys: seq<Batch>)
    ensures Total(xs + ys) == Total(xs) + Total(ys)
  {
    if xs == [] {
      assert xs + ys == ys;
    } else {
      TotalAppend(xs[1..], ys);
      assert (xs + ys)[1..] == xs[1..] + ys;
    }
  }

  // ---- Sorting keeps the lots ----

  lemma {:induction false} InsertTotal(b: Batch, bs: seq<Batch>)
    ensures Total(Insert(b, bs)) == b.quantity + Total(bs)
  {
    if bs == [] || b.expiry <= bs[0].expiry {
      TotalAppend([b], bs);
    } else {
      InsertTotal(b, bs[1..]);
      TotalAppend([bs[0]], Insert(b, bs[1..]));
    }
  }

  lemma {:induction false} InsertKeeps(b: Batch, bs: seq<Batch>)
    ensures multiset(Insert(b, bs)) == multiset{b} + multiset(bs)
  {
    if bs != [] && b.expiry > bs[0].expiry {
      InsertKeeps(b, bs[1..]);
      assert multiset(bs) == multiset{bs[0]} + multiset(bs[1..]) by { assert bs == [bs[0]] + bs[1..]; }
    }
  }

  lemma {:induction false} InsertUpTo(b: Batch, bs: seq<Batch>, cutoff: int)
    ensures UpTo(Insert(b, bs), cutoff) == (if b.expiry <= cutoff then b.quantity else 0) + UpTo(bs, cutoff)
  {
    if bs == [] || b.expiry <= bs[0].expiry {
      assert ([b] + bs)[1..] == bs;
    } else {
      InsertUpTo(b, bs[1..], cutoff);
      assert Insert(b, bs)[1..] == Insert(b, bs[1..]);
    }
  }

  lemma {:induction false} InsertMembers(b: Batch, bs: seq<Batch>, x: Batch)
    requires x in Insert(b, bs)
    ensures x == b || x in bs
  {
    InsertKeeps(b, bs);
    assert x in multiset(Insert(b, bs));
  }

  lemma {:induction false} PrependOrdered(b: Batch, bs: seq<Batch>)
    requires Ordered(bs) && forall x :: x in bs ==> b.expiry <= x.expiry
    ensures Ordered([b] + bs)
  {
    var out := [b] + bs;
    forall i, j | 0 <= i < j < |out| ensures out[i].expiry <= out[j].expiry {
      assert out[j] == bs[j - 1];
      if i > 0 { assert out[i] == bs[i - 1]; }
    }
  }

  lemma {:induction false} OrderedFrom(bs: seq<Batch>)
    requires Ordered(bs) && bs != []
    ensures Ordered(bs[1..]) && forall x :: x in bs ==> bs[0].expiry <= x.expiry
  {
  }

  lemma {:induction false} InsertOrdered(b: Batch, bs: seq<Batch>)
    requires Ordered(bs)
    ensures Ordered(Insert(b, bs))
  {
    hide Ordered;
    if bs == [] {
      PrependOrdered(b, bs);
    } else {
      OrderedFrom(bs);
      if b.expiry <= bs[0].expiry {
        PrependOrdered(b, bs);
      } else {
        InsertOrdered(b, bs[1..]);
        forall x | x in Insert(b, bs[1..]) ensures bs[0].expiry <= x.expiry { InsertMembers(b, bs[1..], x); }
        PrependOrdered(bs[0], Insert(b, bs[1..]));
      }
    }
  }

  lemma {:induction false} SortKeeps(bs: seq<Batch>)
    ensures multiset(SortByExpiry(bs)) == multiset(bs)
    ensures Total(SortByExpiry(bs)) == Total(bs)
    ensures Ordered(SortByExpiry(bs))
  {
    if bs != [] {
      SortKeeps(bs[1..]);
      InsertKeeps(bs[0], SortByExpiry(bs[1..]));
      InsertTotal(bs[0], SortByExpiry(bs[1..]));
      InsertOrdered(bs[0], SortByExpiry(bs[1..]));
      assert bs == [bs[0]] + bs[1..];
    }
  }

  lemma {:induction false} SortUpTo(bs: seq<Batch>, cutoff: int)
    ensures UpTo(SortByExpiry(bs), cutoff) == UpTo(bs, cutoff)
  {
    if bs != [] {
      SortUpTo(bs[1..], cutoff);
      InsertUpTo(bs[0], SortByExpiry(bs[1..]), cutoff);
    }
  }

  lemma {:induction false} PositiveKeeps(bs: seq<Batch>)
    ensures forall b :: b in Positive(bs) <==> b in bs && b.quantity > 0
    ensures |Positive(bs)| <= |bs|
  {
    if bs != [] {
      PositiveKeeps(bs[1..]);
      assert bs == [bs[0]] + bs[1..];
    }
  }

  lemma {:induction false} QueueMembers(bs: seq<Batch>)
    ensures forall b :: b in Queue(bs) <==> b in bs && b.quantity > 0
    ensures Ordered(Queue(bs))
  {
    PositiveKeeps(bs);
    SortKeeps(Positive(bs));
    forall b ensures b in Queue(bs) <==> b in bs && b.quantity > 0 {
      assert b in multiset(Queue(bs)) <==> b in multiset(Positive(bs));
    }
  }

  // ---- The exact content of a suggestion ----

  lemma {:induction false} UpToBounds(bs: seq<Batch>, cutoff: int)
    requires forall b :: b in bs ==> b.quantity > 0
    ensures 0 <= UpTo(bs, cutoff) <= Total(bs)
    ensures (forall b :: b in bs ==> b.expiry > cutoff) ==> UpTo(bs, cutoff) == 0
  {
    if bs != [] {
      UpToBounds(bs[1..], cutoff);
    }
  }

  lemma {:induction false} GreedyHead(bs: seq<Batch>, remaining: int, cutoff: int)
    requires bs != [] && remaining > 0
    ensures var take := Min(bs[0].quantity, remaining);
            var rest := Greedy(bs[1..], remaining - take);
            && Total(Greedy(bs, remaining)) == take + Total(rest)
            && UpTo(Greedy(bs, remaining), cutoff) == (if bs[0].expiry <= cutoff then take else 0) + UpTo(rest, cutoff)
  {
    var take := Min(bs[0].quantity, remaining);
    assert Greedy(bs, remaining)[1..] == Greedy(bs[1..], remaining - take);
  }

  lemma {:induction false} GreedyUpTo(bs: seq<Batch>, remaining: int, cutoff: int)
    requires Ordered(bs) && forall b :: b in bs ==> b.quantity > 0
    requires remaining >= 0
    ensures UpTo(Greedy(bs, remaining), cutoff) == Min(remaining, UpTo(bs, cutoff))
    ensures Total(Greedy(bs, remaining)) == Min(remaining, Total(bs))
  {
    UpToBounds(bs, cutoff);
    if bs != [] && remaining > 0 {
      OrderedFrom(bs);
      UpToBounds(bs[1..], cutoff);
      GreedyHead(bs, remaining, cutoff);
      hide Ordered, Greedy;
      GreedyUpTo(bs[1..], remaining - Min(bs[0].quantity, remaining), cutoff);
    }
  }

  /** A suggestion takes exactly min(requested, available) units from the lots that expire by any
      cutoff, so the same holds in total; it says `fullyCovered` exactly when the lots suffice. */
  lemma {:induction false} SuggestionExact(bs: seq<Batch>, requested: int, cutoff: int)
    requires requested > 0
    ensures Suggest(bs, requested).Ok?
    ensures var s := Suggest(bs, requested).value;
            && UpTo(s.items, cutoff) == Min(requested, UpTo(Positive(bs), cutoff))
            && Total(s.items) == Min(requested, Total(Positive(bs)))
            && (s.fullyCovered <==> Total(Positive(bs)) >= requested)
  {
    QueueMembers(bs);
    SortKeeps(Positive(bs));
    SortUpTo(Positive(bs), cutoff);
    GreedyUpTo(Queue(bs), requested, cutoff);
  }

  // ---- No allocation takes sooner-expiring units than FEFO does ----

  /** Units that the allocation `alloc` takes from the lots of `bs` expiring by `cutoff`. */
  function Taken(alloc: seq<int>, bs: seq<Batch>, cutoff: int): int
    requires |alloc| == |bs|
  {
    if bs == [] then 0
    else (if bs[0].expiry <= cutoff then alloc[0] else 0) + Taken(alloc[1..], bs[1..], cutoff)
  }

  function TakenInAll(alloc: seq<int>): int
  {
    if alloc == [] then 0 else alloc[0] + TakenInAll(alloc[1..])
  }

  /** An allocation takes from each lot no more than the lot holds. */
  ghost predicate Feasible(alloc: seq<int>, bs: seq<Batch>)
  {
    && |alloc| == |bs|
    && forall i :: 0 <= i < |bs| ==> 0 <= alloc[i] <= Max(bs[i].quantity, 0)
  }

  lemma {:induction false} TakenBounds(alloc: seq<int>, bs: seq<Batch>, cutoff: int)
    requires Feasible(alloc, bs)
    ensures 0 <= Taken(alloc, bs, cutoff) <= TakenInAll(alloc)
    ensures Taken(alloc, bs, cutoff) <= UpTo(Positive(bs), cutoff)
  {
    if bs != [] {
      TakenBounds(alloc[1..], bs[1..], cutoff);
      if bs[0].quantity > 0 {
        assert ([bs[0]] + Positive(bs[1..]))[1..] == Positive(bs[1..]);
      }
    }
  }

  /** FEFO dominates: an allocation of the same total takes at most as many units from the lots
      that expire on or before any cutoff. */
  lemma {:induction false} FefoDominates(bs: seq<Batch>, requested: int, alloc: seq<int>, cutoff: int)
    requires requested > 0
    requires Feasible(alloc, bs)
    requires TakenInAll(alloc) == Total(Suggest(bs, requested).value.items)
    ensures Taken(alloc, bs, cutoff) <= UpTo(Suggest(bs, requested).value.items, cutoff)
  {
    SuggestionExact(bs, requested, cutoff);
    TakenBounds(alloc, bs, cutoff);
  }

  // ---- A suggestion can be executed ----

  ghost predicate DistinctIds(bs: seq<Batch>)
  {
    forall i, j :: 0 <= i < j < |bs| ==> bs[i].id != bs[j].id
  }

  /** `s` takes from `b`'s lot at least one unit and at most what `b` holds. */
  ghost predicate DrawnFrom(s: Batch, b: Batch)
  {
    s.id == b.id && s.expiry == b.expiry && 0 < s.quantity <= b.quantity
  }

  lemma {:induction false} GreedyDraws(bs: seq<Batch>, remaining: int)
    requires forall b :: b in bs ==> b.quantity > 0
    ensures |Greedy(bs, remaining)| <= |bs|
    ensures forall i :: 0 <= i < |Greedy(bs, remaining)| ==> DrawnFrom(Greedy(bs, remaining)[i], bs[i])
  {
    if bs != [] && remaining > 0 {
      var take := Min(bs[0].quantity, remaining);
      GreedyDraws(bs[1..], remaining - take);
    }
  }

  lemma {:induction false} PrependDistinct(b: Batch, bs: seq<Batch>)
    requires DistinctIds(bs) && forall x :: x in bs ==> b.id != x.id
    ensures DistinctIds([b] + bs)
  {
    var out := [b] + bs;
    forall i, j | 0 <= i < j < |out| ensures out[i].id != out[j].id {
      assert out[j] == bs[j - 1];
      if i > 0 { assert out[i] == bs[i - 1]; }
    }
  }

  lemma {:induction false} DistinctFrom(bs: seq<Batch>)
    requires DistinctIds(bs) && bs != []
    ensures DistinctIds(bs[1..]) && forall x :: x in bs[1..] ==> bs[0].id != x.id
  {
  }

  lemma {:induction false} InsertDistinct(b: Batch, bs: seq<Batch>)
    requires DistinctIds(bs) && forall x :: x in bs ==> x.id != b.id
    ensures DistinctIds(Insert(b, bs))
  {
    hide DistinctIds;
    if bs == [] || b.expiry <= bs[0].expiry {
      PrependDistinct(b, bs);
    } else {
      DistinctFrom(bs);
      InsertDistinct(b, bs[1..]);
      forall x | x in Insert(b, bs[1..]) ensures bs[0].id != x.id { InsertMembers(b, bs[1..], x); }
      PrependDistinct(bs[0], Insert(b, bs[1..]));
    }
  }

  lemma {:induction false} QueueDistinct(bs: seq<Batch>)
    requires DistinctIds(bs)
    ensures DistinctIds(Queue(bs))
  {
    if bs != [] {
      QueueDistinct(bs[1..]);
      if bs[0].quantity > 0 {
        assert Positive(bs) == [bs[0]] + Positive(bs[1..]);
        assert Positive(bs)[1..] == Positive(bs[1..]);
        QueueMembers(bs[1..]);
        InsertDistinct(bs[0], Queue(bs[1..]));
      }
    }
  }

  /** Lots with distinct ids get distinct suggestion lines, each within its own lot. */
  lemma {:induction false} SuggestionExecutable(bs: seq<Batch>, requested: int)
    requires requested > 0 && DistinctIds(bs)
    ensures var items := Suggest(bs, requested).value.items;
            && DistinctIds(items)
            && forall s :: s in items ==> exists b :: b in bs && DrawnFrom(s, b)
  {
    var q := Queue(bs);
    QueueMembers(bs);
    QueueDistinct(bs);
    GreedyDraws(q, requested);
    var items := Greedy(q, requested);
    forall s | s in items ensures exists b :: b in bs && DrawnFrom(s, b) {
      var i :| 0 <= i < |items| && items[i] == s;
      assert q[i] in bs && DrawnFrom(s, q[i]);
    }
  }
}
