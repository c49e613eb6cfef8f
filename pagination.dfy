/**
 * The pagination arithmetic of the two backends: `NewPaginatedOutput`
 * (backend/internal/core/dto/output.go), which fills the page block of a list
 * response, and the legacy `Filter` (internal/core/dto/filter.go), whose
 * `ApplyPagination` gives the query's offset and limit and whose `CalcPages`
 * counts the pages. Go's 64-bit integers are modelled with their wrap-around,
 * `uint` conversions with their two's-complement reading, and `/` with its
 * truncation toward zero.
 */
module Pagination {
  import opened Wrappers

  const TwoTo64: int := 0x1_0000_0000_0000_0000
  const MaxInt64: int := 0x7FFF_FFFF_FFFF_FFFF
  const MinInt64: int := -0x8000_0000_0000_0000

  /** Go's `int` and `int64` on a 64-bit platform. */
  type Int64 = x: int | MinInt64 <= x <= MaxInt64

  /** Go's `uint`. */
  type Uint64 = x: int | 0 <= x < TwoTo64

  /** The 64-bit two's-complement result of an exact integer result. */
  function Wrap(x: int): (r: Int64)
    ensures MinInt64 <= x <= MaxInt64 ==> r == x
    ensures (x - r) % TwoTo64 == 0
  {
    var m := x % TwoTo64;
    if m > MaxInt64 then m - TwoTo64 else m
  }

  /** `uint(x)`: a negative value reads as its two's-complement bit pattern. */
  function ToUint(x: Int64): (r: Uint64)
    ensures x >= 0 ==> r == x
    ensures x < 0 ==> r == x + TwoTo64
  {
    if x >= 0 then x else x + TwoTo64
  }

  /** Go's integer division, which truncates toward zero. */
  function Quot(a: int, b: int): (q: int)
    requires b != 0
  {
    var m := (if a < 0 then -a else a) / (if b < 0 then -b else b);
    if (a < 0) != (b < 0) then -m else m
  }

  /** On non-negative operands Go's division is the Euclidean one. */
  lemma QuotNonNegative(a: int, b: int)
    requires a >= 0 && b > 0
    ensures Quot(a, b) == a / b
  {
  }

  /** Truncation toward zero, unlike Euclidean division: -4 divided by 2 is -2, 2 divided by -2 is -1. */
  lemma QuotTruncates()
    ensures Quot(-4, 2) == -2 && Quot(2, -2) == -1 && Quot(-3, 2) == -1
    ensures -3 / 2 == -2
  {
  }

  /** The number of pages of `limit` items that hold `total` items, as the ceiling of their quotient. */
  predicate IsPageCount(pages: int, total: int, limit: int)
    requires limit > 0
  {
    (pages - 1) * limit < total <= pages * limit
  }

  /** `(total + limit - 1) / limit` counts the pages when the sum does not overflow. */
  lemma CeilingQuotient(total: int, limit: int)
    requires total > 0 && limit > 0
    ensures IsPageCount((total + limit - 1) / limit, total, limit)
    ensures (total + limit - 1) / limit >= 1
  {
    var q := (total + limit - 1) / limit;
    var r := (total + limit - 1) % limit;
    assert total + limit - 1 == q * limit + r && 0 <= r < limit;
    assert (q - 1) * limit == q * limit - limit;
  }

  /** Multiplying by a non-negative factor keeps the order. */
  lemma MulMonotone(a: int, b: int, c: int)
    requires a <= b && c >= 0
    ensures a * c <= b * c
  {
    assert b * c - a * c == (b - a) * c;
  }

  /** The same through Go's wrapping sum and truncating division, when the sum does not overflow. */
  lemma WrappedCeiling(total: int, limit: int)
    ensures total > 0 && limit > 0 && total + limit - 1 <= MaxInt64 ==>
      var q := Quot(Wrap(total + limit - 1), limit);
      IsPageCount(q, total, limit) && 1 <= q <= total
  {
    if total > 0 && limit > 0 && total + limit - 1 <= MaxInt64 {
      QuotNonNegative(total + limit - 1, limit);
      CeilingQuotient(total, limit);
      var q := (total + limit - 1) / limit;
      MulMonotone(1, limit, q - 1);
    }
  }

  /** The page count is unique: two counts satisfying the ceiling bounds are equal. */
  lemma PageCountUnique(p: int, q: int, total: int, limit: int)
    requires limit > 0 && IsPageCount(p, total, limit) && IsPageCount(q, total, limit)
    ensures p == q
  {
    if p < q {
      MulMonotone(p, q - 1, limit);
    } else if q < p {
      MulMonotone(q, p - 1, limit);
    }
  }

  /** `PaginationOutput`: every field is a Go `uint`. */
  datatype PaginationOutput = PaginationOutput(page: Uint64, limit: Uint64, totalItems: Uint64, totalPages: Uint64)

  datatype PaginatedOutput<T> = PaginatedOutput(items: seq<T>, pagination: PaginationOutput)

  /**
   * `NewPaginatedOutput`: pages are the ceiling of items over limit, one page
   * when there are items and no positive limit, none without items; page 0
   * reads as page 1 and limit 0 as the number of items given.
   */
  function NewPaginatedOutput<T>(items: seq<T>, page: Int64, limit: Int64, totalItems: Int64): (r: PaginatedOutput<T>)
    requires |items| <= MaxInt64
    ensures r.items == items
    ensures totalItems <= 0 ==> r.pagination.totalPages == 0
    ensures totalItems > 0 && limit <= 0 ==> r.pagination.totalPages == 1
    ensures totalItems > 0 && limit > 0 && totalItems + limit - 1 <= MaxInt64 ==>
      IsPageCount(r.pagination.totalPages, totalItems, limit)
    ensures page == 0 ==> r.pagination.page == 1
    ensures page > 0 ==> r.pagination.page == page
    ensures limit == 0 ==> r.pagination.limit == |items|
    ensures limit > 0 ==> r.pagination.limit == limit
    ensures totalItems >= 0 ==> r.pagination.totalItems == totalItems
  {
    var totalPages :=
      if limit > 0 && totalItems > 0 then ToUint(Quot(Wrap(totalItems + limit - 1), limit))
      else if totalItems > 0 then 1
      else 0;
    var actualPage := if ToUint(page) == 0 then 1 else ToUint(page);
    var actualLimit := if ToUint(limit) == 0 then |items| else ToUint(limit);
    WrappedCeiling(totalItems, limit);
    PaginatedOutput(items, PaginationOutput(actualPage, actualLimit, ToUint(totalItems), totalPages))
  }

  /**
   * A negative page or limit is not rejected: it reaches the response as its
   * `uint` bit pattern.
   */
  lemma NegativePageWraps(items: seq<int>)
    requires |items| <= MaxInt64
    ensures NewPaginatedOutput(items, -1, 10, 5).pagination.page == TwoTo64 - 1
    ensures NewPaginatedOutput(items, 1, -1, 5).pagination.limit == TwoTo64 - 1
  {
  }

  /** The legacy list filter; only the page and the limit take part in pagination. */
  datatype Filter = Filter(search: string, id: Option<nat>, page: Int64, limit: Int64, sort: string, order: string)

  /** The result of `ApplyPagination`: whether to paginate, the offset and the limit. */
  datatype Window = Window(enabled: bool, offset: Int64, limit: Int64)

  /**
   * `ApplyPagination`: enabled exactly when page and limit are positive, and
   * then page `p` starts after the `p - 1` full pages before it; disabled
   * gives zero offset and limit.
   */
  function ApplyPagination(f: Filter): (r: Window)
    ensures r.enabled <==> f.page > 0 && f.limit > 0
    ensures !r.enabled ==> r.offset == 0 && r.limit == 0
    ensures r.enabled ==> r.limit == f.limit
    ensures r.enabled && (f.page - 1) * f.limit <= MaxInt64 ==>
      r.offset == (f.page - 1) * f.limit && r.offset % r.limit == 0 && r.offset / r.limit == f.page - 1
  {
    if f.page > 0 && f.limit > 0 then
      var offset := Wrap((f.page - 1) * f.limit);
      LemmaMulDiv(f.page - 1, f.limit);
      Window(true, offset, f.limit)
    else Window(false, 0, 0)
  }

  /** Multiplying then dividing by a positive divisor gives back a non-negative factor, without remainder. */
  lemma LemmaMulDiv(q: int, d: int)
    ensures q >= 0 && d > 0 ==> (q * d) % d == 0 && (q * d) / d == q
  {
    if q >= 0 && d > 0 {
      var x := q * d;
      var qq, rr := x / d, x % d;
      assert (q - qq) * d == rr by {
        assert x == qq * d + rr;
        assert (q - qq) * d == q * d - qq * d;
      }
      MulBound(q - qq, d);
    }
  }

  /** A non-zero multiple of a positive number is at least that number away from zero. */
  lemma MulBound(k: int, d: int)
    requires d > 0
    ensures k >= 1 ==> k * d >= d
    ensures k <= -1 ==> k * d <= -d
  {
    if k >= 1 {
      MulMonotone(1, k, d);
    }
    if k <= -1 {
      MulMonotone(k, -1, d);
    }
  }

  /** Consecutive pages of the same limit are adjacent windows: each starts where the previous one ends. */
  lemma ConsecutiveWindows(f: Filter)
    requires 0 < f.page < MaxInt64 && f.limit > 0 && f.page * f.limit <= MaxInt64
    ensures var a := ApplyPagination(f);
      var b := ApplyPagination(f.(page := f.page + 1));
      b.enabled && a.enabled && b.offset == a.offset + a.limit
  {
    MulMonotone(0, f.page - 1, f.limit);
    assert (f.page - 1) * f.limit + f.limit == f.page * f.limit;
  }

  /**
   * `CalcPages` as written: a zero count, limit or page gives one page when
   * there are items and none otherwise; anything else divides, truncating.
   */
  function CalcPages(f: Filter, count: Int64): (r: Int64)
    ensures count == 0 ==> r == 0
    ensures count > 0 && (f.limit == 0 || f.page == 0) ==> r == 1
    ensures count > 0 && f.limit > 0 && f.page != 0 && count + f.limit - 1 <= MaxInt64 ==>
      IsPageCount(r, count, f.limit)
  {
    if count == 0 || f.limit == 0 || f.page == 0 then
      if count > 0 then 1 else 0
    else
      WrappedCeiling(count, f.limit);
      Wrap(Quot(Wrap(count + f.limit - 1), f.limit))
  }

  /**
   * `CalcPages` tests for zero where `ApplyPagination` tests for positive: a
   * negative limit with page 1 and five items gives -1 pages, although the
   * query is not paginated and returns every item on one page.
   */
  lemma CalcPagesNegativeLimit()
    ensures var f := Filter("", None, 1, -2, "", "");
      !ApplyPagination(f).enabled && CalcPages(f, 5) == -1
  {
    assert Quot(2, -2) == -1;
  }

  /**
   * The page count the filter evidently intends: one page whenever
   * pagination is disabled and there are items, the ceiling otherwise.
   */
  function CalcPagesFixed(f: Filter, count: Int64): (r: Int64)
  {
    if count <= 0 then 0
    else if !ApplyPagination(f).enabled then 1
    else Wrap(Quot(Wrap(count + f.limit - 1), f.limit))
  }

  /** The corrected count agrees with the query window: never negative, one page when the query is not paginated, the ceiling when it is. */
  lemma CalcPagesFixedAgrees(f: Filter, count: Int64)
    ensures count + f.limit - 1 <= MaxInt64 ==> CalcPagesFixed(f, count) >= 0
    ensures count > 0 && !ApplyPagination(f).enabled ==> CalcPagesFixed(f, count) == 1
    ensures count > 0 && ApplyPagination(f).enabled && count + f.limit - 1 <= MaxInt64 ==>
      IsPageCount(CalcPagesFixed(f, count), count, f.limit)
    ensures count <= 0 ==> CalcPagesFixed(f, count) == 0
  {
    WrappedCeiling(count, f.limit);
  }

  /** Where both backends paginate the same count by the same positive limit, they report the same number of pages. */
  lemma BackendsAgree<T>(items: seq<T>, f: Filter, count: Int64)
    requires |items| <= MaxInt64
    requires count > 0 && f.page > 0 && f.limit > 0 && count + f.limit - 1 <= MaxInt64
    ensures NewPaginatedOutput(items, f.page, f.limit, count).pagination.totalPages == CalcPages(f, count)
  {
    var a := NewPaginatedOutput(items, f.page, f.limit, count).pagination.totalPages;
    PageCountUnique(a, CalcPages(f, count), count, f.limit);
  }
}
