/**
 * `paginate(data, page, limit, last_page, total)`: the page record built
 * around an already fetched list of rows, chosen by an ordered chain of
 * conditions on the page arithmetic.
 */
module Paginate {
  import opened Wrappers
  import opened Responses

  /** `Math.ceil(a / b)` for integers, `b` non-zero. */
  function CeilDiv(a: int, b: int): (q: int)
    requires b != 0
    ensures b > 0 ==> b * (q - 1) < a <= b * q
    ensures b < 0 ==> b * q <= a < b * (q - 1)
  {
    if b > 0 then
      var q := if a % b == 0 then a / b else a / b + 1;
      assert b * (q - 1) == b * q - b;
      q
    else
      var q := a / b;
      assert b * (q - 1) == b * q - b;
      q
  }

  /** A `{page, limit}` link; an empty object `{}` is None. */
  datatype Link = Link(page: int, limit: int)

  datatype PageResult<T> =
    | NotFound(message: Message)
    | Page(totalCount: nat, totalPage: int, currentPage: int, next: Option<Link>,
           currentCountPerPage: nat, range: int, previous: Option<Link>,
           last: Option<Link>, result: seq<T>)

  /**
   * The branch chain: a negative page is refused; page 1 (not last) links the
   * next page; a page whose end lies before the total (not last) links the
   * next; a page with a positive start (not last) links the previous; the last
   * page links itself; anything else is not found.
   */
  function Paginate<T>(data: seq<T>, page: int, limit: int, lastPage: bool, total: nat): (r: PageResult<T>)
    requires limit != 0
    ensures page < 0 ==> r == PageResult.NotFound(NoNegativePageValue)
    ensures r.NotFound? ==> r.message in {NoNegativePageValue, NoResource}
    ensures r.Page? ==> r.result == data && r.currentCountPerPage == |data|
    ensures r.Page? ==> r.totalCount == total && r.totalPage == CeilDiv(total, limit)
    ensures r.Page? ==> (r.next.Some? || r.previous.Some?) != r.last.Some?
  {
    var startIndex := (page - 1) * limit;
    var endIndex := page * limit;
    var totalPage := CeilDiv(total, limit);
    var currentPage := page;
    if page < 0 then PageResult.NotFound(NoNegativePageValue)
    else if page == 1 && !lastPage then
      Page(total, totalPage, currentPage, Some(Link(page + 1, limit)), |data|, currentPage * limit, None, None, data)
    else if endIndex < total && !lastPage then
      Page(total, totalPage, currentPage, Some(Link(page + 1, limit)), |data|, currentPage * limit, None, None, data)
    else if startIndex > 0 && !lastPage then
      Page(total, totalPage, currentPage, None, |data|, currentPage * limit, Some(Link(page - 1, limit)), None, data)
    else if lastPage && page == totalPage then
      Page(total, totalPage, totalPage, None, |data|, total, None, Some(Link(totalPage, limit)), data)
    else PageResult.NotFound(NoResource)
  }

  /** When a page is served, independently of which branch serves it. */
  predicate Served(page: int, limit: int, lastPage: bool, total: nat)
    requires limit != 0
  {
    && page >= 0
    && if lastPage then page == CeilDiv(total, limit)
       else page == 1 || page * limit < total || (page - 1) * limit > 0
  }

  /** Paginate serves a page exactly for the inputs Served describes. */
  lemma ServedExactly<T>(data: seq<T>, page: int, limit: int, lastPage: bool, total: nat)
    requires limit != 0
    ensures Paginate(data, page, limit, lastPage, total).Page? <==> Served(page, limit, lastPage, total)
  {
  }

  /** With a positive limit, every non-last page from 1 on is served. */
  lemma {:induction false} EveryEarlierPageServed<T>(data: seq<T>, page: int, limit: int, total: nat)
    requires limit > 0 && page >= 1
    ensures Paginate(data, page, limit, false, total).Page?
  {
    if page > 1 {
      assert (page - 1) * limit >= limit by {
        assert (page - 1) * limit == (page - 2) * limit + limit;
        assert (page - 2) * limit >= 0;
      }
    }
  }

  /** Page 1, not last: the next link is page 2 and the range is one page. */
  lemma FirstPageLinksNext<T>(data: seq<T>, limit: int, total: nat)
    requires limit != 0
    ensures Paginate(data, 1, limit, false, total)
         == Page(total, CeilDiv(total, limit), 1, Some(Link(2, limit)), |data|, limit, None, None, data)
  {
  }

  /** A later page whose end is before the total links the next page. */
  lemma MiddlePageLinksNext<T>(data: seq<T>, page: int, limit: int, total: nat)
    requires limit != 0 && page >= 0 && page != 1 && page * limit < total
    ensures Paginate(data, page, limit, false, total)
         == Page(total, CeilDiv(total, limit), page, Some(Link(page + 1, limit)), |data|, page * limit, None, None, data)
  {
  }

  /** A page past the total's end but with a positive start links the previous page. */
  lemma TrailingPageLinksPrevious<T>(data: seq<T>, page: int, limit: int, total: nat)
    requires limit != 0 && page >= 0 && page != 1 && page * limit >= total && (page - 1) * limit > 0
    ensures Paginate(data, page, limit, false, total)
         == Page(total, CeilDiv(total, limit), page, None, |data|, page * limit, Some(Link(page - 1, limit)), None, data)
  {
  }

  /** The last page: current page is the page count, the last link points at it, range is the total. */
  lemma LastPageLinksItself<T>(data: seq<T>, limit: int, total: nat)
    requires limit != 0 && CeilDiv(total, limit) >= 0
    ensures var r := Paginate(data, CeilDiv(total, limit), limit, true, total);
      && r.Page? && r.currentPage == r.totalPage
      && r.last == Some(Link(r.totalPage, limit)) && r.range == total
      && r.next.None? && r.previous.None?
  {
  }

  /** The last-page flag at any other page is not found. */
  lemma LastPageElsewhereNotFound<T>(data: seq<T>, page: int, limit: int, total: nat)
    requires limit != 0 && page != CeilDiv(total, limit)
    ensures Paginate(data, page, limit, true, total).NotFound?
  {
  }

  /** An empty table has no pages, so asking for page 1 as the last page is not found. */
  lemma EmptyLastPageNotFound<T>(data: seq<T>, limit: int)
    requires limit > 0
    ensures Paginate(data, 1, limit, true, 0) == PageResult.NotFound(NoResource)
  {
    assert CeilDiv(0, limit) == 0;
  }

  /** `a <= b` scales by a non-negative factor. */
  lemma MulMonotone(a: int, b: int, c: int)
    requires a <= b && c >= 0
    ensures a * c <= b * c
  {
    assert b * c - a * c == (b - a) * c;
  }

  /** With a positive limit the page count is the least number of pages that holds the total. */
  lemma PageCountIsLeast(total: nat, limit: int)
    requires limit > 0
    ensures CeilDiv(total, limit) >= 0
    ensures total <= CeilDiv(total, limit) * limit
    ensures forall k: int :: 0 <= k < CeilDiv(total, limit) ==> k * limit < total
  {
    var q := CeilDiv(total, limit);
    if q < 0 {
      MulMonotone(q, -1, limit);
    }
    forall k: int | 0 <= k < q ensures k * limit < total {
      MulMonotone(k, q - 1, limit);
    }
  }

  /** The page arithmetic every list endpoint does before querying. */
  datatype Window = Window(currentPage: int, limit: int, skip: int, totalPages: int, hasPrevious: bool, hasNext: bool)

  /**
   * `pageNumber` and `pageSize` as parsed, None when missing or empty
   * (defaults 1 and 20); `total` is the count of matching rows.
   */
  function QueryWindow(pageNumber: Option<int>, pageSize: Option<int>, total: nat): (w: Window)
    requires pageSize != Some(0)
    ensures w.limit != 0 && w.currentPage == pageNumber.GetOr(1) && w.limit == pageSize.GetOr(20)
    ensures w.skip == w.limit * (w.currentPage - 1)
    ensures w.totalPages == CeilDiv(total, w.limit)
    ensures w.hasNext <==> w.currentPage < w.totalPages
    ensures w.hasPrevious <==> w.currentPage > 1 && w.totalPages > 1
  {
    var currentPage := pageNumber.GetOr(1);
    var limit := pageSize.GetOr(20);
    var totalPages := CeilDiv(total, limit);
    Window(currentPage, limit, limit * (currentPage - 1), totalPages, currentPage > 1 && totalPages > 1, currentPage < totalPages)
  }

  /** With a positive page size there is a next page exactly when rows lie beyond the current one. */
  lemma HasNextMeansMoreRows(pageNumber: Option<int>, pageSize: Option<int>, total: nat)
    requires pageSize.GetOr(20) > 0
    ensures var w := QueryWindow(pageNumber, pageSize, total);
      w.hasNext <==> w.currentPage * w.limit < total
  {
    var w := QueryWindow(pageNumber, pageSize, total);
    var q, c, l := w.totalPages, w.currentPage, w.limit;
    assert l * (q - 1) < total <= l * q;
    if c < q {
      MulMonotone(c, q - 1, l);
    } else {
      MulMonotone(q, c, l);
    }
  }
}
