/**
 Cursor pagination of the movement history (services/app/src/modules/stock/queries.ts): pages follow
 created_at descending with the id as tie-breaker, and each page starts after the row whose id is the
 cursor.
 */
module Pagination {
  import opened Prelude

  datatype Row = Row(id: int, createdAt: int)

  /** Before in ORDER BY created_at DESC, id DESC. */
  predicate Newer(a: Row, b: Row)
  {
    a.createdAt > b.createdAt || (a.createdAt == b.createdAt && a.id > b.id)
  }

  /** The filtered table in the order of the query; ids are unique. */
  ghost predicate Sorted(table: seq<Row>)
  {
    && (forall i, j :: 0 <= i < j < |table| ==> Newer(table[i], table[j]))
    && (forall i, j :: 0 <= i < j < |table| ==> table[i].id != table[j].id)
  }

  datatype Page = Page(items: seq<Row>, nextCursor: Option<int>, hasMore: bool)

  /** The position of the row with this id. */
  function Find(table: seq<Row>, id: int): (i: nat)
    ensures i <= |table| && (i < |table| ==> table[i].id == id)
    ensures forall j :: 0 <= j < i ==> table[j].id != id
  {
    if table == [] || table[0].id == id then 0 else 1 + Find(table[1..], id)
  }

  /** findMany with take limit + 1 and, after the first page, the cursor and skip 1. */
  function Fetch(table: seq<Row>, limit: nat, cursor: Option<int>): seq<Row>
  {
    var start := if cursor.None? then 0 else Min(Find(table, cursor.value) + 1, |table|);
    table[start..Min(start + limit + 1, |table|)]
  }

  /** listStockMovements. */
  function ListPage(table: seq<Row>, limit: nat, cursor: Option<int>): Page
  {
    var items := Fetch(table, limit, cursor);
    var hasMore := |items| > limit;
    var page := if hasMore then items[..limit] else items;
    Page(page, if hasMore && page != [] then Some(page[|page| - 1].id) else None, hasMore)
  }

  /** The table after rows newer than all the others were appended. */
  ghost predicate Grown(before: seq<Row>, after: seq<Row>)
  {
    Sorted(after) && |before| <= |after| && after[|after| - |before|..] == before
  }

  lemma {:induction false} FindAt(table: seq<Row>, i: nat)
    requires Sorted(table) && i < |table|
    ensures Find(table, table[i].id) == i
  {
    assert Find(table, table[i].id) == i;
  }

  /** The page after `n` rows of `table` have been seen, read from a table that has grown since. */
  lemma {:induction false} PageAfter(table: seq<Row>, current: seq<Row>, limit: nat, n: nat)
    requires limit >= 1 && 1 <= n <= |table| && Grown(table, current)
    ensures var page := ListPage(current, limit, Some(table[n - 1].id));
            && page.items == table[n..Min(n + limit, |table|)]
            && (page.hasMore <==> n + limit < |table|)
            && (page.hasMore ==> page.nextCursor == Some(table[n + limit - 1].id))
  {
    var older := |current| - |table|;
    assert table[n - 1] == current[older..][n - 1] == current[older + n - 1];
    FindAt(current, older + n - 1);
    var end := Min(n + limit + 1, |table|);
    SuffixSlice(current, older, n, end);
    assert Fetch(current, limit, Some(table[n - 1].id)) == current[older + n..older + end] == table[n..end];
    PageOf(current, limit, Some(table[n - 1].id), table, n);
  }

  lemma {:induction false} SuffixSlice(xs: seq<Row>, older: nat, from: nat, to: nat)
    requires older <= |xs| && from <= to <= |xs| - older
    ensures xs[older..][from..to] == xs[older + from..older + to]
  {
  }

  /** A page whose fetched rows are the `limit + 1` rows of `table` from `n`. */
  lemma {:induction false} PageOf(current: seq<Row>, limit: nat, cursor: Option<int>, table: seq<Row>, n: nat)
    requires limit >= 1 && n <= |table|
    requires Fetch(current, limit, cursor) == table[n..Min(n + limit + 1, |table|)]
    ensures var page := ListPage(current, limit, cursor);
            && page.items == table[n..Min(n + limit, |table|)]
            && (page.hasMore <==> n + limit < |table|)
            && (page.hasMore ==> page.nextCursor == Some(table[n + limit - 1].id))
  {
    var items := Fetch(current, limit, cursor);
    if |items| > limit { assert items[..limit] == table[n..n + limit]; }
  }

  lemma {:induction false} FirstPage(table: seq<Row>, limit: nat)
    requires limit >= 1
    ensures var page := ListPage(table, limit, None);
            && page.items == table[..Min(limit, |table|)]
            && (page.hasMore <==> limit < |table|)
            && (page.hasMore ==> page.nextCursor == Some(table[limit - 1].id))
  {
    assert Fetch(table, limit, None) == table[0..Min(limit + 1, |table|)];
    PageOf(table, limit, None, table, 0);
  }

  // ---- Following the cursors ----

  /** A client that asks for the next page while has_more; the table it reads may have grown with
      strictly newer rows before every request. */
  ghost predicate Session(tables: nat -> seq<Row>, limit: nat, pages: seq<Page>)
  {
    && pages != []
    && (forall i: nat :: Sorted(tables(i)) && Grown(tables(0), tables(i)))
    && pages[0] == ListPage(tables(0), limit, None)
    && forall i :: 0 <= i < |pages| - 1 ==>
         pages[i].hasMore && pages[i + 1] == ListPage(tables(i + 1), limit, pages[i].nextCursor)
  }

  function AllItems(pages: seq<Page>): seq<Row>
  {
    if pages == [] then [] else AllItems(pages[..|pages| - 1]) + pages[|pages| - 1].items
  }

  lemma {:induction false} SessionPrefix(tables: nat -> seq<Row>, limit: nat, pages: seq<Page>)
    requires Session(tables, limit, pages) && |pages| > 1
    ensures Session(tables, limit, pages[..|pages| - 1])
    ensures var n := |pages| - 1;
            pages[n - 1].hasMore && pages[n] == ListPage(tables(n), limit, pages[n - 1].nextCursor)
  {
    var n := |pages| - 1;
    assert pages[n - 1].hasMore && pages[n - 1 + 1] == ListPage(tables(n - 1 + 1), limit, pages[n - 1].nextCursor);
    var before := pages[..n];
    forall i | 0 <= i < |before| - 1
      ensures before[i].hasMore && before[i + 1] == ListPage(tables(i + 1), limit, before[i].nextCursor)
    {
      assert pages[i].hasMore && pages[i + 1] == ListPage(tables(i + 1), limit, pages[i].nextCursor);
    }
  }

  /** The pages have yielded the first `seen` rows, and there is more to come if there are more rows. */
  ghost predicate Progress(table: seq<Row>, pages: seq<Page>, seen: int)
  {
    && pages != [] && seen >= 1
    && AllItems(pages) == table[..Min(seen, |table|)]
    && var last := pages[|pages| - 1];
       (last.hasMore <==> seen < |table|)
       && (last.hasMore ==> last.nextCursor == Some(table[seen - 1].id))
  }

  lemma {:induction false} ProgressStep(table: seq<Row>, current: seq<Row>, limit: nat, pages: seq<Page>, seen: nat)
    requires |pages| > 1 && limit >= 1 && Progress(table, pages[..|pages| - 1], seen) && Grown(table, current)
    requires var n := |pages| - 1; pages[n - 1].hasMore && pages[n] == ListPage(current, limit, pages[n - 1].nextCursor)
    ensures Progress(table, pages, seen + limit)
  {
    PageAfter(table, current, limit, seen);
    assert table[..seen] + table[seen..Min(seen + limit, |table|)] == table[..Min(seen + limit, |table|)];
  }

  lemma {:induction false} FirstProgress(table: seq<Row>, limit: nat, page: Page)
    requires limit >= 1 && page == ListPage(table, limit, None)
    ensures Progress(table, [page], limit)
  {
    FirstPage(table, limit);
    assert [page][..0] == [];
  }

  lemma {:induction false} SessionProgress(tables: nat -> seq<Row>, limit: nat, pages: seq<Page>)
    requires limit >= 1 && Session(tables, limit, pages)
    ensures Progress(tables(0), pages, |pages| * limit)
  {
    hide Progress, ListPage, Sorted, AllItems;
    var table, n := tables(0), |pages| - 1;
    if n == 0 {
      FirstProgress(table, limit, pages[0]);
      assert pages == [pages[0]];
    } else {
      SessionPrefix(tables, limit, pages);
      SessionProgress(tables, limit, pages[..n]);
      ProgressStep(table, tables(n), limit, pages, n * limit);
      Multiples(n, limit);
    }
  }

  lemma {:induction false} Multiples(n: nat, limit: nat)
    requires limit >= 1 && n >= 1
    ensures n * limit >= 1 && (n + 1) * limit == n * limit + limit
  {
  }

  /** What the progress of a session says about its length and its end. */
  lemma {:induction false} ProgressMeans(table: seq<Row>, pages: seq<Page>, seen: nat)
    requires Progress(table, pages, seen)
    ensures !pages[|pages| - 1].hasMore <==> AllItems(pages) == table
    ensures pages[|pages| - 1].hasMore ==> seen < |table|
  {
    assert |table[..Min(seen, |table|)]| == Min(seen, |table|);
    assert table[..|table|] == table;
  }

  /** Following next_cursor until has_more is false stops, and yields every row that was there at the
      first request exactly once, newest first, whatever newer rows arrive meanwhile. */
  lemma {:induction false} FollowingCursorsIsComplete(tables: nat -> seq<Row>, limit: nat, pages: seq<Page>)
    requires limit >= 1 && Session(tables, limit, pages)
    ensures |pages| <= |tables(0)| + 1
    ensures !pages[|pages| - 1].hasMore <==> AllItems(pages) == tables(0)
  {
    hide Progress, ListPage, Sorted, AllItems, Grown;
    var n := |pages|;
    SessionProgress(tables, limit, pages);
    ProgressMeans(tables(0), pages, n * limit);
    if n > 1 {
      SessionPrefix(tables, limit, pages);
      SessionProgress(tables, limit, pages[..n - 1]);
      ProgressMeans(tables(0), pages[..n - 1], (n - 1) * limit);
      AtLeast(n - 1, limit);
    }
  }

  lemma {:induction false} AtLeast(n: nat, limit: nat)
    requires limit >= 1
    ensures n <= n * limit
  {
  }
}
