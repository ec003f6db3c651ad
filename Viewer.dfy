/** The raw-data browser: the year and program selectors, the four filters applied together,
    the page of rows shown, and the page the view is on as the user filters and pages. */
module Viewer {
  import opened Wrappers
  import opened Text
  import opened Numbers
  import opened Collections
  import opened BudgetRows

  /** The year selector: "All", then each year of the data once, latest first. */
  function YearOptions(data: seq<BudgetRow>): (r: seq<string>)
    ensures |r| >= 1 && r[0] == "All"
    ensures forall y :: y in r[1..] <==> exists i :: 0 <= i < |data| && data[i].year == y
    ensures NoDuplicates(r[1..])
    ensures forall i, j :: 1 <= i < j < |r| ==> StrLe(r[j], r[i])
  {
    var r := ["All"] + Years(data);
    assert r[1..] == Years(data);
    YearsListed(data);
    YearsDescending(data);
    r
  }

  function ProgramsOf(data: seq<BudgetRow>): (ps: seq<string>)
    ensures |ps| == |data| && forall i :: 0 <= i < |data| ==> ps[i] == data[i].program
  {
    seq(|data|, i requires 0 <= i < |data| => data[i].program)
  }

  /** The program selector: "All", then the first twenty of the sorted distinct programs:
      twenty of them, or every one when there are fewer. */
  function ProgramOptions(data: seq<BudgetRow>): (r: seq<string>)
    ensures |r| >= 1 && r[0] == "All"
    ensures var n := |Distinct(ProgramsOf(data))|; |r| == 1 + (if n < 20 then n else 20)
  {
    var d := Distinct(ProgramsOf(data));
    var s := SortStrings(d);
    assert |s| == |d| by {
      assert |multiset(s)| == |multiset(d)|;
    }
    ["All"] + Take(s, 20)
  }

  /** The programs offered are programs of the data, each once and in ascending order; a
      program that is not offered sorts after every one that is, so the offered ones are the
      smallest twenty, and when the data has at most twenty programs all of them are offered. */
  lemma ProgramOptionsListed(data: seq<BudgetRow>)
    ensures var ps := ProgramOptions(data)[1..];
            SortedStrings(ps) && NoDuplicates(ps) &&
            (forall p :: p in ps ==> exists i :: 0 <= i < |data| && data[i].program == p)
    ensures forall i :: 0 <= i < |data| && data[i].program !in ProgramOptions(data)[1..] ==>
              forall j :: 1 <= j < |ProgramOptions(data)| ==> StrLe(ProgramOptions(data)[j], data[i].program)
    ensures |Distinct(ProgramsOf(data))| <= 20 ==>
              forall i :: 0 <= i < |data| ==> data[i].program in ProgramOptions(data)
  {
    var d := Distinct(ProgramsOf(data));
    var s := SortStrings(d);
    var ps := ProgramOptions(data)[1..];
    assert ps == Take(s, 20);
    SortedMembers(d);
    SortedDistinct(d);
    TakeSorted(s, 20);
    OfferedFromData(data, ps);
    forall i | 0 <= i < |data| && data[i].program !in ps
      ensures forall j :: 1 <= j < |ProgramOptions(data)| ==> StrLe(ProgramOptions(data)[j], data[i].program)
    {
      assert ProgramsOf(data)[i] == data[i].program;
      NotTakenAfter(s, 20, data[i].program);
    }
    if |d| <= 20 {
      assert ps == s by {
        assert |s| == |d| by {
          assert |multiset(s)| == |multiset(d)|;
        }
      }
      forall i | 0 <= i < |data|
        ensures data[i].program in ProgramOptions(data)
      {
        assert ProgramsOf(data)[i] == data[i].program;
        assert data[i].program in ps;
      }
    }
  }

  /** A prefix of a sorted list without repeats is sorted and has no repeats. */
  lemma TakeSorted(s: seq<string>, n: nat)
    requires SortedStrings(s) && NoDuplicates(s)
    ensures SortedStrings(Take(s, n)) && NoDuplicates(Take(s, n))
  {
    assert forall j :: 0 <= j < |Take(s, n)| ==> Take(s, n)[j] == s[j];
  }

  /** A value of a sorted list that its first `n` leave out sorts after each of them. */
  lemma NotTakenAfter(s: seq<string>, n: nat, x: string)
    requires SortedStrings(s) && x in s && x !in Take(s, n)
    ensures forall j :: 0 <= j < |Take(s, n)| ==> StrLe(Take(s, n)[j], x)
  {
    var q :| 0 <= q < |s| && s[q] == x;
    var r := Take(s, n);
    assert forall j :: 0 <= j < |r| ==> r[j] == s[j];
    assert q >= |r|;
  }

  /** Every program offered is the program of some row. */
  lemma OfferedFromData(data: seq<BudgetRow>, ps: seq<string>)
    requires forall p :: p in ps ==> p in ProgramsOf(data)
    ensures forall p :: p in ps ==> exists i :: 0 <= i < |data| && data[i].program == p
  {
    forall p | p in ps
      ensures exists i :: 0 <= i < |data| && data[i].program == p
    {
      var i :| 0 <= i < |ProgramsOf(data)| && ProgramsOf(data)[i] == p;
    }
  }

  /** The type selector. */
  const TypeOptions := ["All", "Expense", "Revenue"]

  /** The page sizes the size selector offers, and the one it starts with. */
  const PageSizes := {25, 50, 100}
  const InitialPageSize := 50

  datatype Filters = Filters(search: string, year: string, program: string, kind: string)

  const NoFilters := Filters("", "All", "All", "All")

  /** An empty search matches every row; otherwise some field must contain the term, compared
      in lower case. */
  predicate MatchesSearch(row: BudgetRow, term: string) {
    term == "" || exists v :: v in Values(row) && Contains(ToLower(v), ToLower(term))
  }

  /** `isRevenue`: tagged "Revenues", or an amount that reads as a negative number. */
  predicate IsRevenue(row: BudgetRow) {
    var a := CommaFreeAmount(row.amount);
    row.kind == "Revenues" || (a.Some? && a.value < 0.0)
  }

  /** `isExpense`: tagged "Expenses", or an amount that reads as a number of at least zero. */
  predicate IsExpense(row: BudgetRow) {
    var a := CommaFreeAmount(row.amount);
    row.kind == "Expenses" || (a.Some? && a.value >= 0.0)
  }

  predicate MatchesType(row: BudgetRow, kind: string) {
    kind == "All" || (kind == "Expense" && IsExpense(row)) || (kind == "Revenue" && IsRevenue(row))
  }

  /** The conjunction `filteredData` applies to each row. */
  predicate Shown(row: BudgetRow, f: Filters) {
    MatchesSearch(row, f.search) && (f.year == "All" || row.year == f.year)
    && (f.program == "All" || row.program == f.program) && MatchesType(row, f.kind)
  }

  /** `filteredData`: the rows that pass every filter, in their order. */
  function FilteredData(data: seq<BudgetRow>, f: Filters): (r: seq<BudgetRow>)
    ensures forall row :: row in r <==> row in data && Shown(row, f)
  {
    Filter(data, (row: BudgetRow) => Shown(row, f))
  }

  /** With every filter at its default, every row is shown. */
  lemma NoFiltersShowAll(data: seq<BudgetRow>)
    ensures forall row :: row in FilteredData(data, NoFilters) <==> row in data
  {
  }

  /** A row whose amount reads as a number is a revenue row, an expense row or both; a row
      whose amount does not read as a number is neither unless its tag says so. */
  lemma TypeCovers(row: BudgetRow)
    ensures CommaFreeAmount(row.amount).Some? ==> IsRevenue(row) || IsExpense(row)
    ensures CommaFreeAmount(row.amount).None? ==>
              (IsRevenue(row) <==> row.kind == "Revenues") && (IsExpense(row) <==> row.kind == "Expenses")
  {
  }

  /** The search ignores the case of the term. */
  lemma SearchIgnoresTermCase(row: BudgetRow, term: string)
    ensures MatchesSearch(row, term) <==> MatchesSearch(row, ToLower(term))
  {
    ToLowerIdempotent(term);
    if term != "" {
      assert ToLower(term) != "";
    } else {
      assert ToLower(term) == "";
    }
  }

  /** A row shows its search term: a field that equals the term makes the row match. */
  lemma SearchFindsField(row: BudgetRow, term: string)
    requires term in Values(row)
    ensures MatchesSearch(row, term)
  {
    ContainsInfix([], ToLower(term), []);
    assert [] + ToLower(term) + [] == ToLower(term);
  }

  /** `xs.slice(start, end)`: a negative bound counts from the end; both bounds are clamped to
      the sequence. */
  function JsSlice<T>(xs: seq<T>, start: int, end: int): (r: seq<T>)
    ensures |r| <= |xs|
  {
    var n := |xs|;
    var s := if start < 0 then (if n + start < 0 then 0 else n + start) else if start > n then n else start;
    var e := if end < 0 then (if n + end < 0 then 0 else n + end) else if end > n then n else end;
    if s >= e then [] else xs[s..e]
  }

  /** `paginatedData` for page `page`. */
  function PageRows(rows: seq<BudgetRow>, page: int, size: nat): seq<BudgetRow> {
    JsSlice(rows, (page - 1) * size, (page - 1) * size + size)
  }

  /** Page `p` holds the rows from `(p - 1) * size` on, in order, at most `size` of them. */
  lemma PageContents(rows: seq<BudgetRow>, page: int, size: nat)
    requires page >= 1
    ensures var r := PageRows(rows, page, size);
            var start := (page - 1) * size;
            |r| <= size &&
            |r| == (if |rows| <= start then 0 else if |rows| - start < size then |rows| - start else size) &&
            forall k :: 0 <= k < |r| ==> r[k] == rows[start + k]
  {
    var start := (page - 1) * size;
    assert start >= 0 by {
      assert page - 1 >= 0;
    }
  }

  /** `Math.ceil(count / size)`. */
  function TotalPages(count: nat, size: nat): (t: nat)
    requires size > 0
    ensures t * size >= count
    ensures t > 0 ==> (t - 1) * size < count
    ensures t == 0 <==> count == 0
  {
    (count + size - 1) / size
  }

  /** Every row is on some page between 1 and the page count. */
  lemma PagesCover(rows: seq<BudgetRow>, size: nat, i: nat)
    requires size > 0 && i < |rows|
    ensures var page := i / size + 1;
            1 <= page <= TotalPages(|rows|, size) && rows[i] in PageRows(rows, page, size)
  {
    var q := i / size;
    var start := q * size;
    PageOf(i, size, |rows|);
    assert (q + 1 - 1) * size == start;
    PageContents(rows, q + 1, size);
    var r := PageRows(rows, q + 1, size);
    assert r[i - start] == rows[i];
  }

  /** Row `i` starts no later than itself and is within `size` of its page's first row, and its
      page is no later than the last. */
  lemma PageOf(i: nat, size: nat, count: nat)
    requires size > 0 && i < count
    ensures (i / size) * size <= i < (i / size) * size + size
    ensures i / size < TotalPages(count, size)
  {
    var q, m := i / size, i % size;
    assert q * size + m == i && 0 <= m < size;
    MulCancel(q, TotalPages(count, size), size);
  }

  lemma MulCancel(a: nat, b: nat, c: nat)
    requires a * c < b * c
    ensures a < b
  {
  }

  /** The first row number of "Showing … to … of …". */
  function ShowingFrom(page: int, size: nat): int {
    (page - 1) * size + 1
  }

  /** The Previous button: disabled on page 1, otherwise one page back, never below 1. */
  function PreviousPage(page: int): (p: int)
    ensures page != 1 ==> p == if page - 1 < 1 then 1 else page - 1
    ensures page == 1 ==> p == page
    ensures page >= 1 ==> p >= 1
  {
    if page == 1 then page else if page - 1 < 1 then 1 else page - 1
  }

  /** The Next button as written: disabled when the page equals the page count, otherwise
      `Math.min(totalPages, page + 1)`. */
  function NextPageAsWritten(page: int, totalPages: nat): int {
    if page == totalPages then page else if totalPages < page + 1 then totalPages else page + 1
  }

  /** With no matching rows the page count is 0, Next stays enabled on page 1 and moves to
      page 0, and the view then reports its first row as number -49. */
  lemma NextPastEmptyResult()
    ensures TotalPages(0, InitialPageSize) == 0
    ensures NextPageAsWritten(1, TotalPages(0, InitialPageSize)) == 0
    ensures ShowingFrom(NextPageAsWritten(1, TotalPages(0, InitialPageSize)), InitialPageSize) == -49
  {
  }

  /** The Next button with the page count floored at 1, so that an empty result stays on
      page 1. */
  function NextPage(page: int, totalPages: nat): (p: int)
    requires 1 <= page <= (if totalPages < 1 then 1 else totalPages)
    ensures 1 <= p <= (if totalPages < 1 then 1 else totalPages)
    ensures page < totalPages ==> p == page + 1
    ensures page >= totalPages ==> p == page
    ensures totalPages > 0 ==> p == NextPageAsWritten(page, totalPages)
  {
    var last := if totalPages < 1 then 1 else totalPages;
    if page == last then page else page + 1
  }

  /** The view's state: the filters, the page size and the page it is on, over fixed data. */
  class DataView {
    const data: seq<BudgetRow>
    var filters: Filters
    var pageSize: nat
    var currentPage: int

    function Filtered(): seq<BudgetRow>
      reads this
    {
      FilteredData(data, filters)
    }

    function PageCount(): nat
      reads this
      requires pageSize > 0
    {
      TotalPages(|Filtered()|, pageSize)
    }

    /** The page size is one the selector offers and the page is one that exists, or 1 when
        nothing matches. */
    predicate Valid()
      reads this
    {
      pageSize in PageSizes && 1 <= currentPage && currentPage <= (if PageCount() < 1 then 1 else PageCount())
    }

    function Visible(): seq<BudgetRow>
      reads this
    {
      PageRows(Filtered(), currentPage, pageSize)
    }

    constructor (data: seq<BudgetRow>)
      ensures Valid()
      ensures this.data == data && filters == NoFilters && pageSize == InitialPageSize && currentPage == 1
    {
      this.data := data;
      filters := NoFilters;
      pageSize := InitialPageSize;
      currentPage := 1;
    }

    /** A change to any filter: the new filters apply and the view goes back to page 1. */
    method SetFilters(f: Filters)
      requires Valid()
      modifies this
      ensures Valid()
      ensures filters == f && currentPage == 1 && pageSize == old(pageSize)
    {
      filters := f;
      currentPage := 1;
    }

    method SetSearch(term: string)
      requires Valid()
      modifies this
      ensures Valid()
      ensures filters == old(filters).(search := term) && currentPage == 1 && pageSize == old(pageSize)
    {
      SetFilters(filters.(search := term));
    }

    method SetYear(year: string)
      requires Valid()
      modifies this
      ensures Valid()
      ensures filters == old(filters).(year := year) && currentPage == 1 && pageSize == old(pageSize)
    {
      SetFilters(filters.(year := year));
    }

    method SetProgram(program: string)
      requires Valid()
      modifies this
      ensures Valid()
      ensures filters == old(filters).(program := program) && currentPage == 1 && pageSize == old(pageSize)
    {
      SetFilters(filters.(program := program));
    }

    method SetType(kind: string)
      requires Valid()
      modifies this
      ensures Valid()
      ensures filters == old(filters).(kind := kind) && currentPage == 1 && pageSize == old(pageSize)
    {
      SetFilters(filters.(kind := kind));
    }

    method SetPageSize(size: nat)
      requires Valid() && size in PageSizes
      modifies this
      ensures Valid()
      ensures pageSize == size && currentPage == 1 && filters == old(filters)
    {
      pageSize := size;
      currentPage := 1;
    }

    method Previous()
      requires Valid()
      modifies this
      ensures Valid()
      ensures currentPage == PreviousPage(old(currentPage))
      ensures filters == old(filters) && pageSize == old(pageSize)
    {
      if currentPage != 1 {
        currentPage := if currentPage - 1 < 1 then 1 else currentPage - 1;
      }
    }

    method Next()
      requires Valid()
      modifies this
      ensures Valid()
      ensures filters == old(filters) && pageSize == old(pageSize) && PageCount() == old(PageCount())
      ensures currentPage == NextPage(old(currentPage), PageCount())
    {
      currentPage := NextPage(currentPage, PageCount());
    }
  }
}
