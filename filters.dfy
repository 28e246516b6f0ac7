/** Pagination and sorting parameters of list queries (internal/models/filters.go).
    Page and PageSize are Go `int`s, 64 bits wide, and Offset's arithmetic wraps
    around as Go's does. */
module Filters {
  import opened Text
  import V = Validator

  type Int64 = n: int | MinInt64 <= n <= MaxInt64

  datatype Filters = Filters(page: Int64, pageSize: Int64, sort: string, sortSafeList: seq<string>)

  /** Two's-complement wrap-around of Go's 64-bit integer arithmetic. */
  function Wrap64(x: int): (r: Int64)
    ensures IsInt64(x) ==> r == x
    ensures (r - x) % 0x1_0000_0000_0000_0000 == 0
  {
    (x - MinInt64) % 0x1_0000_0000_0000_0000 + MinInt64
  }

  /** The column sortColumn puts in ORDER BY: a safelisted Sort with one leading
      "-" removed, and "id" for anything not on the safelist. */
  function SortColumnOf(f: Filters): (column: string)
    ensures f.sort in f.sortSafeList && HasPrefix(f.sort, "-") ==> "-" + column == f.sort
    ensures f.sort in f.sortSafeList && !HasPrefix(f.sort, "-") ==> column == f.sort
    ensures f.sort !in f.sortSafeList ==> column == "id"
  {
    if f.sort in f.sortSafeList then TrimPrefix(f.sort, "-") else "id"
  }

  /** sortColumn: scans the safelist and returns at the first entry equal to Sort. */
  method SortColumn(f: Filters) returns (column: string)
    ensures column == SortColumnOf(f)
  {
    var i := 0;
    while i < |f.sortSafeList|
      invariant 0 <= i <= |f.sortSafeList|
      invariant forall j :: 0 <= j < i ==> f.sortSafeList[j] != f.sort
    {
      if f.sort == f.sortSafeList[i] {
        return TrimPrefix(f.sort, "-");
      }
      i := i + 1;
    }
    return "id";
  }

  /** sortDirection: "DESC" exactly when Sort starts with "-", safelisted or not. */
  function SortDirection(f: Filters): (direction: string)
    ensures direction == "DESC" <==> HasPrefix(f.sort, "-")
    ensures direction == "ASC" <==> !HasPrefix(f.sort, "-")
  {
    if HasPrefix(f.sort, "-") then "DESC" else "ASC"
  }

  /** The direction depends on Sort alone, never on the safelist. */
  lemma SortDirectionIgnoresSafeList(f: Filters, safeList: seq<string>)
    ensures SortDirection(f.(sortSafeList := safeList)) == SortDirection(f)
  {
  }

  function Limit(f: Filters): Int64 {
    f.pageSize
  }

  /** Offset: (Page - 1) * PageSize, each step in wrapping 64-bit arithmetic. */
  function Offset(f: Filters): Int64 {
    Wrap64(Wrap64(f.page - 1) * f.pageSize)
  }

  /** The first page starts at row 0; without overflow the offset is the product
      and is non-negative for Page >= 1 and PageSize >= 0. */
  lemma OffsetWithoutOverflow(f: Filters)
    ensures f.page == 1 ==> Offset(f) == 0
    ensures IsInt64((f.page - 1) * f.pageSize) ==> Offset(f) == (f.page - 1) * f.pageSize
    ensures IsInt64((f.page - 1) * f.pageSize) && f.page >= 1 && f.pageSize >= 0 ==> Offset(f) >= 0
  {
    var p: int, q: int := f.page - 1, f.pageSize;
    if p >= MinInt64 {
      assert Wrap64(p) == p;
    } else if q > 0 {
      assert p * q <= p by { MulMonotone(-p, 1, q); }
    } else if q < 0 {
      assert p * q >= -p by { MulMonotone(-p, 1, -q); }
    }
    if f.page >= 1 && q >= 0 {
      MulMonotone(q, 0, p);
    }
  }

  lemma MulMonotone(a: int, b: int, c: int)
    requires 0 <= a && b <= c
    ensures a * b <= a * c
  {
  }

  /** Within the bounds ValidateFilters is meant to enforce, consecutive pages
      tile the result set: page n+1 starts where page n's Limit rows end. */
  lemma PagesTile(f: Filters)
    requires 1 <= f.page < 10_000_000 && 0 <= f.pageSize <= 100
    ensures Offset(f.(page := f.page + 1)) == Offset(f) + Limit(f)
    ensures 0 <= Offset(f)
  {
    var g := f.(page := f.page + 1);
    MulBound(f.page - 1, f.pageSize, 10_000_000, 100);
    MulBound(g.page - 1, g.pageSize, 10_000_000, 100);
    OffsetWithoutOverflow(f);
    OffsetWithoutOverflow(g);
    assert (g.page - 1) * g.pageSize == (f.page - 1) * f.pageSize + f.pageSize;
  }

  lemma MulBound(a: int, b: int, bigA: int, bigB: int)
    requires 0 <= a <= bigA && 0 <= b <= bigB
    ensures 0 <= a * b <= bigA * bigB
  {
    assert a * b <= bigA * b;
    assert bigA * b <= bigA * bigB;
  }

  /** Outside those bounds a Page >= 1 and PageSize >= 0 can still give a
      negative offset: (2^61 + 1 - 1) * 4 = 2^63 wraps to -2^63. */
  lemma OffsetCanWrapNegative()
    ensures var f := Filters(0x2000_0000_0000_0001, 4, "", []);
            f.page >= 1 && f.pageSize >= 0 && Offset(f) < 0
  {
  }

  /** The errors ValidateFilters records, as written: each Check is passed the
      condition under which the value is acceptable. */
  function FilterErrors(errors: V.FieldErrors, f: Filters): V.FieldErrors {
    var e1 := V.WithCheck(errors, f.page <= 10_000_000 && f.page >= 1, "page", "page must be between 1 and 10,000,000");
    var e2 := V.WithCheck(e1, f.pageSize <= 100 && f.page >= 1, "page_size", "page size must be between 1 and 100");
    V.WithCheck(e2, V.PermittedValue(f.sort, f.sortSafeList), "sort", "invalid sort value")
  }

  method ValidateFilters(v: V.Validator, f: Filters)
    modifies v
    ensures v.fieldErrors == FilterErrors(old(v.fieldErrors), f)
  {
    v.Check(f.page <= 10_000_000 && f.page >= 1, "page", "page must be between 1 and 10,000,000");
    v.Check(f.pageSize <= 100 && f.page >= 1, "page_size", "page size must be between 1 and 100");
    v.Check(V.PermittedValue(f.sort, f.sortSafeList), "sort", "invalid sort value");
  }

  /** On a fresh validator, as written: "page" is flagged exactly when Page is in
      range, "page_size" depends on PageSize <= 100 and on Page >= 1 (never on
      PageSize >= 1), and "sort" is flagged exactly when Sort is safelisted. So
      well-formed filters are rejected and malformed ones pass. */
  lemma ValidateFiltersAsWritten(f: Filters)
    ensures var e := FilterErrors(map[], f);
            && ("page" in e <==> 1 <= f.page <= 10_000_000)
            && ("page_size" in e <==> f.pageSize <= 100 && f.page >= 1)
            && ("sort" in e <==> f.sort in f.sortSafeList)
            && e.Keys <= {"page", "page_size", "sort"}
            && (e == map[] <==> !(1 <= f.page <= 10_000_000) && !(f.pageSize <= 100 && f.page >= 1) && f.sort !in f.sortSafeList)
  {
  }
}
