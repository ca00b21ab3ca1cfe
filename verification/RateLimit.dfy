/**
 The fixed-window rate limiter of services/app/src/lib/rate-limit.ts over a Redis store: INCR, then
 PEXPIRE NX, so a key expires windowMs after its first hit and later hits do not extend it.
 */
module RateLimit {
  import opened Prelude

  datatype Entry = Entry(count: nat, expiresAt: int)

  /** A call at time `at`. Exactly at its deadline a key may or may not be gone already. */
  datatype Hit = Hit(at: int, goneAtDeadline: bool)

  predicate Expired(e: Entry, hit: Hit)
  {
    hit.at > e.expiresAt || (hit.at == e.expiresAt && hit.goneAtDeadline)
  }

  /** MULTI; INCR key; PEXPIRE key windowMs NX; EXEC. */
  function AfterHit(e: Option<Entry>, hit: Hit, windowMs: int): Entry
  {
    if e.None? || Expired(e.value, hit) then Entry(1, hit.at + windowMs)
    else e.value.(count := e.value.count + 1)
  }

  class RedisStore {
    var entries: map<string, Entry>

    constructor ()
      ensures entries == map[]
    {
      entries := map[];
    }

    function Lookup(key: string): Option<Entry>
      reads this
    {
      if key in entries then Some(entries[key]) else None
    }

    method Increment(key: string, windowMs: int, hit: Hit) returns (count: nat)
      modifies this
      ensures Lookup(key) == Some(AfterHit(old(Lookup(key)), hit, windowMs)) && count == Lookup(key).value.count
      ensures forall other :: other != key ==> Lookup(other) == old(Lookup(other))
    {
      if key in entries && Expired(entries[key], hit) {
        entries := entries - {key};
      }
      var isNew := key !in entries;
      count := if isNew then 1 else entries[key].count + 1;
      // NX: the deadline is set only for a key that has none.
      entries := entries[key := Entry(count, if isNew then hit.at + windowMs else entries[key].expiresAt)];
    }

    /** checkRateLimit: a failing store lets the call pass. */
    method CheckRateLimit(key: string, limit: nat, windowMs: int, hit: Hit, storeWorks: bool) returns (passes: bool)
      modifies this
      ensures storeWorks ==>
        && Lookup(key) == Some(AfterHit(old(Lookup(key)), hit, windowMs))
        && passes == (AfterHit(old(Lookup(key)), hit, windowMs).count <= limit)
      ensures !storeWorks ==> passes && entries == old(entries)
      ensures forall other :: other != key ==> Lookup(other) == old(Lookup(other))
    {
      if !storeWorks {
        return true;
      }
      var count := Increment(key, windowMs, hit);
      passes := !(count > limit);
    }
  }

  // ---- The calls for one key, from the moment the key does not exist ----

  ghost predicate InOrder(hits: seq<Hit>) { forall i, j :: 0 <= i < j < |hits| ==> hits[i].at <= hits[j].at }

  /** The key after hit i. */
  function After(hits: seq<Hit>, windowMs: int, i: nat): Entry
    requires i < |hits|
  {
    AfterHit(if i == 0 then None else Some(After(hits, windowMs, i - 1)), hits[i], windowMs)
  }

  predicate Passes(hits: seq<Hit>, limit: nat, windowMs: int, i: nat)
    requires i < |hits|
  {
    After(hits, windowMs, i).count <= limit
  }

  /** The first hit of the key lifetime that hit i belongs to. */
  function Birth(hits: seq<Hit>, windowMs: int, i: nat): int
    requires i < |hits|
  {
    i + 1 - After(hits, windowMs, i).count
  }

  lemma {:induction false} LifetimeOf(hits: seq<Hit>, windowMs: int, i: nat)
    requires i < |hits|
    ensures 0 <= Birth(hits, windowMs, i) <= i
    ensures After(hits, windowMs, i).expiresAt == hits[Birth(hits, windowMs, i)].at + windowMs
    ensures Birth(hits, windowMs, i) == i || (i > 0 && Birth(hits, windowMs, i) == Birth(hits, windowMs, i - 1))
  {
    if i > 0 { LifetimeOf(hits, windowMs, i - 1); }
  }

  /** A later lifetime begins at least a window after an earlier one. */
  lemma {:induction false} LifetimesApart(hits: seq<Hit>, windowMs: int, i: nat, j: nat)
    requires i <= j < |hits| && InOrder(hits)
    ensures 0 <= Birth(hits, windowMs, i) <= Birth(hits, windowMs, j) <= j
    ensures Birth(hits, windowMs, i) < Birth(hits, windowMs, j) ==>
      i < Birth(hits, windowMs, j) && hits[Birth(hits, windowMs, j)].at >= hits[Birth(hits, windowMs, i)].at + windowMs
  {
    LifetimeOf(hits, windowMs, i);
    LifetimeOf(hits, windowMs, j);
    if i < j {
      LifetimesApart(hits, windowMs, i, j - 1);
      LifetimeOf(hits, windowMs, j - 1);
      var b := Birth(hits, windowMs, j - 1);
      assert hits[Birth(hits, windowMs, i)].at <= hits[b].at;
    }
  }

  function PassedIn(hits: seq<Hit>, limit: nat, windowMs: int, from: int, to: int): set<int>
  {
    set i | 0 <= i < |hits| && from <= hits[i].at < to && Passes(hits, limit, windowMs, i)
  }

  function Range(from: int, n: nat): set<int>
  {
    if n == 0 then {} else Range(from, n - 1) + {from + n - 1}
  }

  lemma {:induction false} RangeSize(from: int, n: nat)
    ensures |Range(from, n)| == n
    ensures forall i :: i in Range(from, n) <==> from <= i < from + n
  {
    if n > 0 { RangeSize(from, n - 1); }
  }

  lemma {:induction false} HitsInOrder(hits: seq<Hit>, i: nat, j: nat)
    requires InOrder(hits) && i <= j < |hits|
    ensures hits[i].at <= hits[j].at
  {
  }

  lemma {:induction false} FirstCalls(hits: seq<Hit>, limit: nat, windowMs: int, i: nat)
    requires i < |hits| && Passes(hits, limit, windowMs, i)
    ensures Birth(hits, windowMs, i) <= i < Birth(hits, windowMs, i) + limit
  {
    LifetimeOf(hits, windowMs, i);
  }

  /** The calls that pass in one lifetime of the key are its first `limit` calls. */
  lemma {:induction false} PassesPerLifetime(hits: seq<Hit>, limit: nat, windowMs: int, b: nat)
    ensures var passed := set i | 0 <= i < |hits| && Birth(hits, windowMs, i) == b && Passes(hits, limit, windowMs, i);
            |passed| <= limit && forall i :: i in passed ==> b <= i < b + limit
  {
    var passed := set i | 0 <= i < |hits| && Birth(hits, windowMs, i) == b && Passes(hits, limit, windowMs, i);
    forall i | i in passed ensures b <= i < b + limit { FirstCalls(hits, limit, windowMs, i); }
    RangeSize(b, limit);
    SubsetSize(passed, Range(b, limit));
  }

  lemma {:induction false} Inhabited(s: set<int>)
    ensures s != {} ==> exists x :: x in s
  {
    if forall x :: x !in s { assert s == {}; }
  }

  lemma {:induction false} Ends(s: set<int>) returns (lo: int, hi: int)
    requires s != {}
    ensures lo in s && hi in s && forall i :: i in s ==> lo <= i <= hi
  {
    Inhabited(s);
    var x :| x in s;
    if s == {x} {
      lo, hi := x, x;
    } else {
      var l, h := Ends(s - {x});
      lo, hi := if x < l then x else l, if x > h then x else h;
      forall i | i in s ensures lo <= i <= hi { if i != x { assert i in s - {x}; } }
    }
  }

  /** Between two hits less than a window apart there is no third lifetime. */
  lemma {:induction false} OneOfTwoLifetimes(hits: seq<Hit>, windowMs: int, from: int, lo: nat, i: nat, hi: nat)
    requires InOrder(hits) && lo <= i <= hi < |hits|
    requires from <= hits[lo].at && hits[hi].at < from + windowMs
    ensures Birth(hits, windowMs, i) == Birth(hits, windowMs, lo)
      || Birth(hits, windowMs, i) == Birth(hits, windowMs, hi)
  {
    LifetimesApart(hits, windowMs, lo, i);
    LifetimesApart(hits, windowMs, i, hi);
    var b, c := Birth(hits, windowMs, i), Birth(hits, windowMs, hi);
    assert b < c ==> hits[c].at >= hits[b].at + windowMs;
  }

  /** Where the calls that pass can be when the first and last belong to lifetimes opened at b and c. */
  function Cover(b: int, c: int, limit: nat): set<int>
    requires limit >= 1
  {
    if b == c then Range(b, limit) else Range(b + 1, limit - 1) + Range(c, limit)
  }

  lemma {:induction false} CoverSize(b: int, c: int, limit: nat)
    requires limit >= 1
    ensures |Cover(b, c, limit)| <= 2 * limit - 1
  {
    RangeSize(b, limit);
    RangeSize(b + 1, limit - 1);
    RangeSize(c, limit);
  }

  lemma {:induction false} PassedCovered(hits: seq<Hit>, limit: nat, windowMs: int, from: int, lo: nat, i: nat, hi: nat)
    requires InOrder(hits) && limit >= 1 && lo <= i <= hi < |hits|
    requires from <= hits[lo].at && hits[hi].at < from + windowMs && Passes(hits, limit, windowMs, i)
    ensures i in Cover(Birth(hits, windowMs, lo), Birth(hits, windowMs, hi), limit)
  {
    hide InOrder, Range;
    var b, c := Birth(hits, windowMs, lo), Birth(hits, windowMs, hi);
    RangeSize(b, limit);
    RangeSize(b + 1, limit - 1);
    RangeSize(c, limit);
    assert from <= hits[i].at by { HitsInOrder(hits, lo, i); }
    OneOfTwoLifetimes(hits, windowMs, from, lo, i, hi);
    FirstCalls(hits, limit, windowMs, i);
    hide After, Passes, Birth;
    if b != c { OpenerOutside(hits, windowMs, from, lo, i, hi); }
  }

  /** When two lifetimes meet in the interval, the call that opened the first one came before it. */
  lemma {:induction false} OpenerOutside(hits: seq<Hit>, windowMs: int, from: int, lo: nat, i: nat, hi: nat)
    requires InOrder(hits) && lo <= i <= hi < |hits|
    requires from <= hits[i].at && hits[hi].at < from + windowMs
    requires Birth(hits, windowMs, lo) != Birth(hits, windowMs, hi)
    ensures i != Birth(hits, windowMs, lo)
  {
    LifetimesApart(hits, windowMs, lo, hi);
    LifetimesApart(hits, windowMs, lo, i);
  }

  /** In any half-open interval of length windowMs at most 2 * limit - 1 calls pass: one fewer than two
      full lifetimes, because the call that opens the first lifetime is a window away from the second. */
  lemma {:induction false} SlidingWindowBound(hits: seq<Hit>, limit: nat, windowMs: int, from: int)
    requires InOrder(hits) && windowMs >= 1 && limit >= 1
    ensures |PassedIn(hits, limit, windowMs, from, from + windowMs)| <= 2 * limit - 1
  {
    var passed := PassedIn(hits, limit, windowMs, from, from + windowMs);
    if passed != {} {
      var lo, hi := Ends(passed);
      var b, c := Birth(hits, windowMs, lo), Birth(hits, windowMs, hi);
      forall i | i in passed ensures i in Cover(b, c, limit) {
        PassedCovered(hits, limit, windowMs, from, lo, i, hi);
      }
      CoverSize(b, c, limit);
      SubsetSize(passed, Cover(b, c, limit));
    }
  }

  // ---- The bound is attained ----

  /** The last moment before the deadline of a key created at 0, or that deadline if there is none between. */
  function Eve(windowMs: int): int { if windowMs >= 2 then windowMs - 1 else windowMs }

  /** One call at 0, limit - 1 calls on the eve of its deadline and `limit` calls at the deadline. */
  function BurstHit(limit: nat, windowMs: int, i: int): Hit
  {
    Hit(if i == 0 then 0 else if i < limit then Eve(windowMs) else windowMs, i >= limit)
  }

  function Burst(limit: nat, windowMs: int): seq<Hit>
  {
    seq(2 * limit, i => BurstHit(limit, windowMs, i))
  }

  lemma {:induction false} BurstCounts(limit: nat, windowMs: int, i: nat)
    requires windowMs >= 1 && i < 2 * limit
    ensures After(Burst(limit, windowMs), windowMs, i) ==
      if i < limit then Entry(i + 1, windowMs) else Entry(i - limit + 1, 2 * windowMs)
  {
    if i > 0 { BurstCounts(limit, windowMs, i - 1); }
    assert Burst(limit, windowMs)[i] == BurstHit(limit, windowMs, i);
  }

  lemma {:induction false} BurstPasses(limit: nat, windowMs: int, i: nat)
    requires windowMs >= 1 && i < 2 * limit
    ensures var hits := Burst(limit, windowMs);
            Passes(hits, limit, windowMs, i) && (Eve(windowMs) <= hits[i].at < Eve(windowMs) + windowMs <==> i >= 1)
  {
    BurstCounts(limit, windowMs, i);
    hide After;
    assert Burst(limit, windowMs)[i] == BurstHit(limit, windowMs, i);
  }

  lemma {:induction false} BurstPassed(limit: nat, windowMs: int)
    requires windowMs >= 1 && limit >= 1
    ensures PassedIn(Burst(limit, windowMs), limit, windowMs, Eve(windowMs), Eve(windowMs) + windowMs)
      == Range(1, 2 * limit - 1)
  {
    var passed := PassedIn(Burst(limit, windowMs), limit, windowMs, Eve(windowMs), Eve(windowMs) + windowMs);
    RangeSize(1, 2 * limit - 1);
    hide Range, Passes, Eve, BurstHit;
    forall i ensures i in passed <==> i in Range(1, 2 * limit - 1) {
      if 0 <= i < 2 * limit { BurstPasses(limit, windowMs, i); }
    }
  }

  lemma {:induction false} SlidingWindowAttained(limit: nat, windowMs: int)
    requires limit >= 1 && windowMs >= 1
    ensures var hits := Burst(limit, windowMs);
            && InOrder(hits)
            && |PassedIn(hits, limit, windowMs, Eve(windowMs), Eve(windowMs) + windowMs)| == 2 * limit - 1
  {
    hide PassedIn, Range;
    BurstPassed(limit, windowMs);
    RangeSize(1, 2 * limit - 1);
  }
}
