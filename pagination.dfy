/** Page arithmetic shared by the list endpoints, `createPage`, and the bounds
    and defaults of `paginationSchema` (src/types/pagination.ts). */
module Pagination {
  import opened Common

  const DefaultPageNumber: int := 1
  const DefaultPageSize: int := 10
  const MaxPageSize: int := 100

  /** `Math.ceil(n / d)` for a positive divisor: the least `r` with `r * d >= n`. */
  function CeilDiv(n: int, d: int): (r: int)
    requires d >= 1
    ensures (r - 1) * d < n <= r * d
  {
    var q := (-n) / d;
    assert -n == q * d + (-n) % d;
    -q
  }

  /** Multiplying by a positive factor reflects strict order. */
  lemma MulCancelLess(a: int, b: int, d: int)
    requires d >= 1 && a * d < b * d
    ensures a < b
  {
    assert (b - a) * d == b * d - a * d;
  }

  /** Multiplying by a positive factor preserves order. */
  lemma MulMono(a: int, b: int, d: int)
    requires d >= 1 && a <= b
    ensures a * d <= b * d
  {
    assert b * d - a * d == (b - a) * d;
  }

  /** The two inequalities of `CeilDiv` pin its value down. */
  lemma CeilDivUnique(n: int, d: int, r: int)
    requires d >= 1
    requires (r - 1) * d < n <= r * d
    ensures r == CeilDiv(n, d)
  {
    var c := CeilDiv(n, d);
    MulCancelLess(r - 1, c, d);
    MulCancelLess(c - 1, r, d);
  }

  /** A non-negative count has zero pages exactly when it is zero. */
  lemma CeilDivZero(n: int, d: int)
    requires n >= 0 && d >= 1
    ensures CeilDiv(n, d) >= 0
    ensures CeilDiv(n, d) == 0 <==> n == 0
  {
    var r := CeilDiv(n, d);
    MulCancelLess(-1, r, d);
    if n == 0 {
      MulCancelLess(r - 1, 0, d);
    } else {
      MulCancelLess(0, r, d);
    }
  }

  /** `t` is the number of pages of size `d` needed for `n` rows, that is
      `Math.ceil(n / d)`. */
  predicate IsPageCount(t: int, n: int, d: int) {
    (t - 1) * d < n <= t * d
  }

  /** The JSON body every list endpoint returns. */
  datatype Page<T> = Page(items: seq<T>, pageNumber: int, pageSize: int, totalPages: int, totalCount: int)

  /** `createPage`: passes its arguments through and adds the page count.
      Page numbers and sizes are integers here, as the list endpoints make them. */
  function CreatePage<T>(items: seq<T>, totalCount: int, pageNumber: int, pageSize: int): (p: Page<T>)
    requires pageSize >= 1
    ensures p.items == items && p.totalCount == totalCount
    ensures p.pageNumber == pageNumber && p.pageSize == pageSize
    ensures IsPageCount(p.totalPages, totalCount, pageSize)
  {
    Page(items, pageNumber, pageSize, CeilDiv(totalCount, pageSize), totalCount)
  }

  /** First row index of page `pn` when pages hold `pz` rows. */
  function PageStart(pn: int, pz: int): int {
    (pn - 1) * pz
  }

  /** The tail shared by the list endpoints: count the filtered rows, slice
      `[(pn - 1) * pz, (pn - 1) * pz + pz)` out of them, and build the page. */
  function PageOf<T>(rows: seq<T>, pn: int, pz: int): (p: Page<T>)
    requires pz >= 1
    ensures p.totalCount == |rows| && p.pageNumber == pn && p.pageSize == pz
    ensures IsPageCount(p.totalPages, |rows|, pz)
    ensures |p.items| <= pz
    ensures p.items == JsSlice(rows, PageStart(pn, pz), PageStart(pn, pz) + pz)
  {
    var start := PageStart(pn, pz);
    CreatePage(JsSlice(rows, start, start + pz), |rows|, pn, pz)
  }

  /** From page 1 on, item `i` of page `pn` is row `(pn - 1) * pz + i`. */
  lemma PageItemAt<T>(rows: seq<T>, pn: int, pz: int, i: int)
    requires pn >= 1 && pz >= 1
    requires 0 <= i < |PageOf(rows, pn, pz).items|
    ensures PageStart(pn, pz) + i < |rows|
    ensures PageOf(rows, pn, pz).items[i] == rows[PageStart(pn, pz) + i]
  {
    MulMono(0, pn - 1, pz);
  }

  /** The arithmetic behind `PageNonEmptyIff`, on plain integers: `start` is
      the first index of page `pn` and `t` the page count of `n` rows. */
  lemma PageWindow(n: int, t: int, pn: int, pz: int, start: int)
    requires pn >= 1 && pz >= 1 && start == (pn - 1) * pz
    requires IsPageCount(t, n, pz)
    ensures start < n <==> pn <= t
    ensures pn < t ==> start + pz < n
  {
    if pn <= t {
      MulMono(pn - 1, t - 1, pz);
    } else {
      MulMono(t, pn - 1, pz);
    }
    if pn < t {
      MulMono(pn, t - 1, pz);
      assert start + pz == pn * pz;
    }
  }

  /** For a page number from 1 on, the page has items exactly when its number
      is at most the page count, and it is full unless it is the last page. */
  lemma PageNonEmptyIff<T>(rows: seq<T>, pn: int, pz: int)
    requires pn >= 1 && pz >= 1
    ensures var p := PageOf(rows, pn, pz);
      (|p.items| > 0 <==> pn <= p.totalPages) &&
      (pn < p.totalPages ==> |p.items| == pz)
  {
    var p := PageOf(rows, pn, pz);
    var start := PageStart(pn, pz);
    assert |p.items| == Max(0, Min(start + pz, |rows|) - start) by {
      MulMono(0, pn - 1, pz);
    }
    PageWindow(|rows|, p.totalPages, pn, pz, start);
  }

  /** `parseInt(pageNumber || '1', 10)` of the list endpoints: an absent or
      empty query value takes the default page number. */
  function PageNumberOr(pageNumber: Option<int>): int {
    if pageNumber.Some? then pageNumber.value else DefaultPageNumber
  }

  /** `parseInt(pageSize || '10', 10)`: an absent or empty query value takes
      the default page size. */
  function PageSizeOr(pageSize: Option<int>): int {
    if pageSize.Some? then pageSize.value else DefaultPageSize
  }

  /** The query parameters after `paginationSchema` accepted them. */
  datatype PageRequest = PageRequest(pageNumber: real, pageSize: real)

  predicate PageNumberValid(x: Option<JsNumber>) {
    x.None? || (x.value.Num? && x.value.value >= DefaultPageNumber as real)
  }

  predicate PageSizeValid(x: Option<JsNumber>) {
    x.None? || (x.value.Num? && 1.0 <= x.value.value <= MaxPageSize as real)
  }

  /** `paginationSchema.parse`: an absent field takes its default; a present one
      must be a number of at least 1 (the page size also at most 100). On
      failure the error lists the offending fields in schema order. */
  function ParsePagination(pageNumber: Option<JsNumber>, pageSize: Option<JsNumber>): (r: Result<PageRequest, seq<string>>)
    ensures r.Ok? <==> PageNumberValid(pageNumber) && PageSizeValid(pageSize)
    ensures r.Ok? ==> r.value.pageNumber >= 1.0 && 1.0 <= r.value.pageSize <= 100.0
    ensures r.Ok? && pageNumber.None? ==> r.value.pageNumber == 1.0
    ensures r.Ok? && pageSize.None? ==> r.value.pageSize == 10.0
    ensures r.Ok? && pageNumber.Some? ==> r.value.pageNumber == pageNumber.value.value
    ensures r.Ok? && pageSize.Some? ==> r.value.pageSize == pageSize.value.value
    ensures r.Err? ==> ("pageNumber" in r.error <==> !PageNumberValid(pageNumber))
    ensures r.Err? ==> ("pageSize" in r.error <==> !PageSizeValid(pageSize))
  {
    var numberOk, sizeOk := PageNumberValid(pageNumber), PageSizeValid(pageSize);
    if numberOk && sizeOk then
      Ok(PageRequest(
        if pageNumber.None? then DefaultPageNumber as real else pageNumber.value.value,
        if pageSize.None? then DefaultPageSize as real else pageSize.value.value))
    else
      Err((if numberOk then [] else ["pageNumber"]) + (if sizeOk then [] else ["pageSize"]))
  }
}
