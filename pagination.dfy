/** Offset pagination of the portfolio listing: the page's offset, a query
    that asks for one row more than a page to learn whether a next page
    exists, and the page count from the table's row count. */
module Pagination {
  import opened Wrappers

  /** The query parameters of a listing; nothing constrains their values. */
  datatype PaginationParams = PaginationParams(page: int, pageSize: int)

  /** The `skip` property: the rows of the pages before this one. */
  function Skip(p: PaginationParams): int
  {
    (p.page - 1) * p.pageSize
  }

  /** Python's `//`: the quotient rounded toward minus infinity. */
  function FloorDiv(a: int, b: int): (q: int)
    requires b != 0
    ensures b > 0 ==> q * b <= a < q * b + b
    ensures b < 0 ==> q * b >= a > q * b + b
  {
    if b > 0 then a / b else (-a) / (-b)
  }

  /** The rows `OFFSET offset LIMIT limit` returns from the rows in id order;
      `None` where the database refuses a negative offset or limit. */
  function Window<T>(rows: seq<T>, offset: int, limit: int): (r: Option<seq<T>>)
    ensures r.Some? <==> offset >= 0 && limit >= 0
    ensures r.Some? ==> |r.value| <= limit
    ensures r.Some? ==> forall i :: 0 <= i < |r.value| ==> offset + i < |rows| && r.value[i] == rows[offset + i]
    ensures r.Some? ==> |r.value| == limit || offset + |r.value| >= |rows|
  {
    if offset < 0 || limit < 0 then None
    else if offset >= |rows| then Some([])
    else if offset + limit >= |rows| then Some(rows[offset..])
    else Some(rows[offset..offset + limit])
  }

  /** The `PortfolioList` the repository returns. */
  datatype PageList<T> = PageList(items: seq<T>, total: int, page: int, pageSize: int, pages: int, hasNext: bool)

  /** Python's `items[:-1]`: everything but the last element. */
  function DropLast<T>(s: seq<T>): (r: seq<T>)
    ensures |s| > 0 ==> |r| == |s| - 1 && r == s[..|s| - 1]
    ensures |s| == 0 ==> r == []
  {
    if |s| == 0 then [] else s[..|s| - 1]
  }

  /** The ceiling-division branch once the count is known. */
  function PageCount(total: int, pageSize: int): (r: Result<int, string>)
    ensures r.Err? <==> total > 0 && pageSize == 0
    ensures total <= 0 ==> r == Ok(0)
    ensures total > 0 && pageSize > 0 ==> r.Ok? && (r.value - 1) * pageSize < total <= r.value * pageSize
  {
    if total > 0 then
      if pageSize == 0 then Err("ZeroDivisionError") else Ok(FloorDiv(total + pageSize - 1, pageSize))
    else Ok(0)
  }

  /** Everything `get_multi_paginated` does once the page query returned
      `fetched` and the count query `count`: the flag from the extra row,
      the page without it, and the counts when asked for. */
  function Paginate<T>(fetched: seq<T>, count: int, p: PaginationParams, estimateCount: bool): (r: Result<PageList<T>, string>)
    ensures r.Err? <==> estimateCount && count > 0 && p.pageSize == 0
    ensures r.Ok? ==> (r.value.hasNext <==> |fetched| > p.pageSize)
    ensures r.Ok? ==> r.value.items == if r.value.hasNext then DropLast(fetched) else fetched
    ensures r.Ok? ==> r.value.page == p.page && r.value.pageSize == p.pageSize
    ensures r.Ok? && !estimateCount ==> r.value.total == 0 && r.value.pages == 0
    ensures r.Ok? && estimateCount ==> r.value.total == count && Ok(r.value.pages) == PageCount(count, p.pageSize)
  {
    var hasNext := |fetched| > p.pageSize;
    var items := if hasNext then DropLast(fetched) else fetched;
    if !estimateCount then Ok(PageList(items, 0, p.page, p.pageSize, 0, hasNext))
    else
      match PageCount(count, p.pageSize)
      case Err(e) => Err(e)
      case Ok(pages) => Ok(PageList(items, count, p.page, p.pageSize, pages, hasNext))
  }

  /** `get_multi_paginated` over the portfolio rows in id order: the page
      query, then the count of the whole table. */
  function GetMultiPaginated<T>(rows: seq<T>, p: PaginationParams, estimateCount: bool): (r: Result<PageList<T>, string>)
    ensures r.Err? <==> Skip(p) < 0 || p.pageSize + 1 < 0 || (estimateCount && |rows| > 0 && p.pageSize == 0)
  {
    match Window(rows, Skip(p), p.pageSize + 1)
    case None => Err("negative OFFSET or LIMIT")
    case Some(fetched) => Paginate(fetched, |rows|, p, estimateCount)
  }

  /** A page of a listing with a positive page size holds the rows from the
      page's offset on, at most a page of them, and a next page is announced
      exactly when rows remain after it. */
  lemma PageContents<T>(rows: seq<T>, p: PaginationParams, estimateCount: bool)
    requires p.page >= 1 && p.pageSize >= 1
    ensures var r := GetMultiPaginated(rows, p, estimateCount);
      && r.Ok?
      && (r.value.hasNext <==> |rows| > Skip(p) + p.pageSize)
      && |r.value.items| <= p.pageSize
      && r.value.items == rows[Min(Skip(p), |rows|)..Min(Skip(p) + p.pageSize, |rows|)]
  {
    var skip := Skip(p);
    assert skip >= 0 by { NonNegativeProduct(p.page - 1, p.pageSize); }
    var fetched := Window(rows, skip, p.pageSize + 1).value;
    var r := Paginate(fetched, |rows|, p, estimateCount);
    var lo, hi := Min(skip, |rows|), Min(skip + p.pageSize, |rows|);
    assert |fetched| == Min(skip + p.pageSize + 1, |rows|) - lo;
    if r.value.hasNext {
      assert |fetched| == p.pageSize + 1;
      assert r.value.items == fetched[..p.pageSize];
    } else {
      assert skip + |fetched| >= |rows|;
    }
    assert |r.value.items| == hi - lo;
    forall i | 0 <= i < |r.value.items| ensures r.value.items[i] == rows[lo..hi][i] {
      assert r.value.items[i] == fetched[i];
    }
  }

  function Min(a: int, b: int): int { if a < b then a else b }

  lemma NonNegativeProduct(a: int, b: int)
    requires a >= 0 && b >= 0
    ensures a * b >= 0
  {
  }

  /** The pages follow each other: page `k + 1` begins where page `k` ends,
      and there is nothing after a page that announces no next one. */
  lemma NextPageContinues<T>(rows: seq<T>, k: int, pageSize: int, estimateCount: bool)
    requires k >= 1 && pageSize >= 1
    ensures var a, b := GetMultiPaginated(rows, PaginationParams(k, pageSize), estimateCount),
                        GetMultiPaginated(rows, PaginationParams(k + 1, pageSize), estimateCount);
      var start := (k - 1) * pageSize;
      && a.Ok? && b.Ok?
      && (a.value.hasNext ==> a.value.items + b.value.items == rows[start..Min(start + 2 * pageSize, |rows|)])
      && (!a.value.hasNext ==> b.value.items == [] && !b.value.hasNext)
  {
    var p, q := PaginationParams(k, pageSize), PaginationParams(k + 1, pageSize);
    SkipNext(k, pageSize);
    PageContents(rows, p, estimateCount);
    PageContents(rows, q, estimateCount);
    var a, b := GetMultiPaginated(rows, p, estimateCount), GetMultiPaginated(rows, q, estimateCount);
    JoinPages(rows, Skip(p), pageSize, a.value.hasNext, a.value.items, b.value.items, b.value.hasNext);
  }

  lemma SkipNext(k: int, pageSize: int)
    ensures Skip(PaginationParams(k + 1, pageSize)) == Skip(PaginationParams(k, pageSize)) + pageSize
    ensures Skip(PaginationParams(k, pageSize)) == (k - 1) * pageSize
  {
  }

  /** Two consecutive windows of a page each. */
  lemma JoinPages<T>(rows: seq<T>, start: int, size: int, more: bool, a: seq<T>, b: seq<T>, moreAfter: bool)
    requires 0 <= start && size >= 1
    requires more <==> |rows| > start + size
    requires a == rows[Min(start, |rows|)..Min(start + size, |rows|)]
    requires b == rows[Min(start + size, |rows|)..Min(start + 2 * size, |rows|)]
    requires moreAfter <==> |rows| > start + 2 * size
    ensures more ==> a + b == rows[start..Min(start + 2 * size, |rows|)]
    ensures !more ==> b == [] && !moreAfter
  {
    if more {
      SlicesJoin(rows, start, start + size, Min(start + 2 * size, |rows|));
    }
  }

  lemma SlicesJoin<T>(s: seq<T>, i: int, j: int, k: int)
    requires 0 <= i <= j <= k <= |s|
    ensures s[i..j] + s[j..k] == s[i..k]
  {
  }
}
