/** The budget-allocation view: the year selector, the rows of the selected year, the
    ten largest programs and eight largest categories by positive amount, the revenue and
    expense totals and the surplus or deficit they give. */
module Dispensations {
  import opened Wrappers
  import opened Text
  import opened Numbers
  import opened Collections
  import opened BudgetRows

  /** The year selected when the view opens. */
  const InitialYear := "2024"

  /** `data.filter(d => d.Year === selectedYear)`. */
  function YearData(data: seq<BudgetRow>, selected: string): (r: seq<BudgetRow>)
    ensures forall x :: x in r <==> x in data && x.year == selected
  {
    Filter(data, (x: BudgetRow) => x.year == selected)
  }

  /** `row.Program || 'Unknown'`. */
  function ProgramKey(row: BudgetRow): string {
    if row.program == "" then "Unknown" else row.program
  }

  /** `row['Category Name'] || 'Unknown'`. */
  function CategoryKey(row: BudgetRow): string {
    if row.category == "" then "Unknown" else row.category
  }

  /** The amount a row offers to its group: the comma-free reading of its amount. */
  function RowAmount(row: BudgetRow): Option<real> {
    CommaFreeAmount(row.amount)
  }

  /** The Map after the `forEach` over `items`: an item whose amount reads as a number
      greater than zero adds it to the total of its key. */
  function Tally<T>(items: seq<T>, key: T -> string, amount: T -> Option<real>): (t: Totals)
    ensures ValidTotals(t)
    ensures forall k :: k in t.sums ==> t.sums[k] > 0.0
    decreases |items|
  {
    if |items| == 0 then EmptyTotals
    else
      var n := |items| - 1;
      var t := Tally(items[..n], key, amount);
      var a := amount(items[n]);
      if a.Some? && a.value > 0.0 then AddTo(t, key(items[n]), a.value) else t
  }

  /** Whether an item adds to the total of `k`. */
  predicate Counts<T>(x: T, key: T -> string, amount: T -> Option<real>, k: string) {
    key(x) == k && amount(x).Some? && amount(x).value > 0.0
  }

  /** The positive amounts of the items of one group, added up item by item. */
  function GroupSum<T>(items: seq<T>, key: T -> string, amount: T -> Option<real>, k: string): real
    decreases |items|
  {
    if |items| == 0 then 0.0
    else
      var n := |items| - 1;
      GroupSum(items[..n], key, amount, k) + (if Counts(items[n], key, amount, k) then amount(items[n]).value else 0.0)
  }

  /** Each group's total is the sum of its items' positive amounts, and a group is listed
      exactly when one of its items has a positive amount. */
  lemma {:induction false} TallySum<T>(items: seq<T>, key: T -> string, amount: T -> Option<real>, k: string)
    ensures Get(Tally(items, key, amount), k) == GroupSum(items, key, amount, k)
    ensures k in Tally(items, key, amount).keys <==>
            exists i :: 0 <= i < |items| && Counts(items[i], key, amount, k)
    decreases |items|
  {
    if |items| > 0 {
      var n := |items| - 1;
      var p := items[..n];
      TallySum(p, key, amount, k);
      if k in Tally(items, key, amount).keys && !Counts(items[n], key, amount, k) {
        var i :| 0 <= i < n && Counts(p[i], key, amount, k);
        assert items[i] == p[i];
      }
      if exists i :: 0 <= i < |items| && Counts(items[i], key, amount, k) {
        var i :| 0 <= i < |items| && Counts(items[i], key, amount, k);
        if i < n {
          assert p[i] == items[i];
        }
      }
    }
  }

  /** The `forEach` that fills the Map. */
  method Accumulate(rows: seq<BudgetRow>, key: BudgetRow -> string) returns (t: Totals)
    ensures t == Tally(rows, key, RowAmount)
  {
    t := EmptyTotals;
    var i := 0;
    while i < |rows|
      invariant 0 <= i <= |rows|
      invariant t == Tally(rows[..i], key, RowAmount)
    {
      assert rows[..i + 1][..i] == rows[..i];
      var amount := CommaFreeAmount(rows[i].amount);
      if amount.Some? && amount.value > 0.0 {
        t := AddTo(t, key(rows[i]), amount.value);
      }
      i := i + 1;
    }
    assert rows[..i] == rows;
  }

  /** The totals of the rows by key: a group is listed exactly when one of its rows has a
      positive amount, and its total is the sum of those amounts. */
  function GroupTotals(rows: seq<BudgetRow>, key: BudgetRow -> string): (t: Totals)
    ensures ValidTotals(t)
    ensures forall k :: k in t.keys <==> exists i :: 0 <= i < |rows| && Counts(rows[i], key, RowAmount, k)
    ensures forall k :: k in t.keys ==> t.sums[k] == GroupSum(rows, key, RowAmount, k) && t.sums[k] > 0.0
  {
    var t := Tally(rows, key, RowAmount);
    forall k
      ensures (k in t.keys <==> exists i :: 0 <= i < |rows| && Counts(rows[i], key, RowAmount, k))
      ensures k in t.keys ==> t.sums[k] == GroupSum(rows, key, RowAmount, k)
    {
      TallySum(rows, key, RowAmount, k);
    }
    t
  }

  /** `r` is what sorting the entries of `t` largest first and keeping `limit` of them gives:
      as many entries as the limit allows, largest first, each a distinct group with its
      total, and no group left out larger than any group listed. */
  predicate TopOf(t: Totals, limit: nat, r: seq<(string, real)>)
    requires ValidTotals(t)
  {
    && |r| == (if |t.keys| < limit then |t.keys| else limit)
    && Descending(r)
    && (forall i, j :: 0 <= i < j < |r| ==> r[i].0 != r[j].0)
    && (forall e :: e in r ==> e.0 in t.keys && e.1 == t.sums[e.0])
    && (forall e :: e in Entries(t) && e !in r ==> forall j :: 0 <= j < |r| ==> e.1 <= r[j].1)
  }

  /** The entries of valid totals, largest first, at most `limit` of them. */
  function Top(t: Totals, limit: nat): (r: seq<(string, real)>)
    requires ValidTotals(t)
    ensures TopOf(t, limit, r)
  {
    var sorted := SortDesc(Entries(t));
    TakeTop(t, limit, sorted);
    Take(sorted, limit)
  }

  /** Keeping the first `limit` of the entries sorted largest first gives the top entries. */
  lemma TakeTop(t: Totals, limit: nat, sorted: seq<(string, real)>)
    requires ValidTotals(t) && Descending(sorted) && multiset(sorted) == multiset(Entries(t))
    ensures TopOf(t, limit, Take(sorted, limit))
  {
    var r := Take(sorted, limit);
    assert |sorted| == |t.keys| by {
      assert |multiset(sorted)| == |multiset(Entries(t))|;
    }
    assert forall j :: 0 <= j < |r| ==> r[j] == sorted[j];
    SortedEntries(t, sorted);
    SortedKeysDistinct(t, sorted);
    TakeLeftOut(t, limit, sorted);
  }

  /** Every entry of a permutation of the entries is a key with its total. */
  lemma SortedEntries(t: Totals, sorted: seq<(string, real)>)
    requires ValidTotals(t) && multiset(sorted) == multiset(Entries(t))
    ensures forall e :: e in sorted ==> e.0 in t.keys && e.1 == t.sums[e.0]
  {
    var es := Entries(t);
    forall e | e in sorted
      ensures e.0 in t.keys && e.1 == t.sums[e.0]
    {
      assert e in multiset(sorted);
      var i :| 0 <= i < |es| && es[i] == e;
    }
  }

  /** An entry the first `limit` of a descending permutation leave out sits after all of them,
      so it is no larger. */
  lemma TakeLeftOut(t: Totals, limit: nat, sorted: seq<(string, real)>)
    requires ValidTotals(t) && Descending(sorted) && multiset(sorted) == multiset(Entries(t))
    ensures var r := Take(sorted, limit);
            forall e :: e in Entries(t) && e !in r ==> forall j :: 0 <= j < |r| ==> e.1 <= r[j].1
  {
    var r := Take(sorted, limit);
    forall e | e in Entries(t) && e !in r
      ensures forall j :: 0 <= j < |r| ==> e.1 <= r[j].1
    {
      assert e in multiset(sorted);
      var p :| 0 <= p < |sorted| && sorted[p] == e;
      assert p >= |r|;
      assert forall j :: 0 <= j < |r| ==> r[j] == sorted[j];
    }
  }

  /** A permutation of the entries names each group once. */
  lemma SortedKeysDistinct(t: Totals, sorted: seq<(string, real)>)
    requires ValidTotals(t) && multiset(sorted) == multiset(Entries(t))
    ensures forall i, j :: 0 <= i < j < |sorted| ==> sorted[i].0 != sorted[j].0
  {
    var es := Entries(t);
    assert NoDuplicates(es) by {
      forall i, j | 0 <= i < j < |es|
        ensures es[i] != es[j]
      {
        assert es[i].0 == t.keys[i] && es[j].0 == t.keys[j];
      }
    }
    forall i, j | 0 <= i < j < |sorted|
      ensures sorted[i].0 != sorted[j].0
    {
      if sorted[i].0 == sorted[j].0 {
        assert sorted[i] in multiset(es) && sorted[j] in multiset(es);
        assert sorted[i] == sorted[j];
        TwoOccurrences(sorted, i, j);
        CountDistinct(es, sorted[i]);
      }
    }
  }

  /** `r` lists the largest groups of the rows: `limit` of them, or all when there are fewer,
      largest total first, each group once with the sum of its positive amounts, and every
      group left out no larger than each one listed. */
  predicate LargestGroups(rows: seq<BudgetRow>, key: BudgetRow -> string, limit: nat, r: seq<(string, real)>) {
    var groups := GroupTotals(rows, key).keys;
    && |r| == (if |groups| < limit then |groups| else limit)
    && Descending(r)
    && (forall i, j :: 0 <= i < j < |r| ==> r[i].0 != r[j].0)
    && (forall e :: e in r ==> e.0 in groups && e.1 == GroupSum(rows, key, RowAmount, e.0) && e.1 > 0.0)
    && (forall k :: k in groups && (forall j :: 0 <= j < |r| ==> r[j].0 != k) ==>
          forall j :: 0 <= j < |r| ==> GroupSum(rows, key, RowAmount, k) <= r[j].1)
  }

  /** The groups of the rows, largest total first, at most `limit` of them. */
  function TopGroups(rows: seq<BudgetRow>, key: BudgetRow -> string, limit: nat): (r: seq<(string, real)>)
    ensures LargestGroups(rows, key, limit, r)
  {
    TopIsLargest(rows, key, limit);
    Top(GroupTotals(rows, key), limit)
  }

  /** The top entries of the group totals are the largest groups. */
  lemma TopIsLargest(rows: seq<BudgetRow>, key: BudgetRow -> string, limit: nat)
    ensures LargestGroups(rows, key, limit, Top(GroupTotals(rows, key), limit))
  {
    var t := GroupTotals(rows, key);
    var r := Top(t, limit);
    assert TopOf(t, limit, r);
    forall e | e in r
      ensures e.0 in t.keys && e.1 == GroupSum(rows, key, RowAmount, e.0) && e.1 > 0.0
    {
    }
    forall k | k in t.keys && (forall j :: 0 <= j < |r| ==> r[j].0 != k)
      ensures forall j :: 0 <= j < |r| ==> GroupSum(rows, key, RowAmount, k) <= r[j].1
    {
      LeftOut(t, limit, r, k);
    }
  }

  /** A key that the top entries do not name has a total no larger than any of them. */
  lemma LeftOut(t: Totals, limit: nat, r: seq<(string, real)>, k: string)
    requires ValidTotals(t) && TopOf(t, limit, r)
    requires k in t.keys && forall j :: 0 <= j < |r| ==> r[j].0 != k
    ensures forall j :: 0 <= j < |r| ==> t.sums[k] <= r[j].1
  {
    var i :| 0 <= i < |t.keys| && t.keys[i] == k;
    var e := Entries(t)[i];
    assert e in Entries(t) && e.0 == k && e.1 == t.sums[k];
  }

  /** `programSummary`: the ten programs with the largest totals, largest first. */
  function ProgramSummary(yearData: seq<BudgetRow>): (r: seq<(string, real)>)
    ensures LargestGroups(yearData, ProgramKey, 10, r)
  {
    TopGroups(yearData, ProgramKey, 10)
  }

  /** `categoryBreakdown`: the eight categories with the largest totals, largest first. */
  function CategoryBreakdown(yearData: seq<BudgetRow>): (r: seq<(string, real)>)
    ensures LargestGroups(yearData, CategoryKey, 8, r)
  {
    TopGroups(yearData, CategoryKey, 8)
  }

  /** An entry of the summary is a program with a positive total, which is the sum of the
      positive amounts of its rows. */
  lemma SummaryEntryIsSum(yearData: seq<BudgetRow>, e: (string, real))
    requires e in ProgramSummary(yearData)
    ensures e.1 == GroupSum(yearData, ProgramKey, RowAmount, e.0) && e.1 > 0.0
  {
    TallySum(yearData, ProgramKey, RowAmount, e.0);
  }

  /** A category with a positive amount in the year appears in the breakdown when it is among
      the eight largest: when at most eight categories have one, every one of them is listed. */
  lemma BreakdownComplete(yearData: seq<BudgetRow>, k: string, i: nat)
    requires i < |yearData| && Counts(yearData[i], CategoryKey, RowAmount, k)
    requires |GroupTotals(yearData, CategoryKey).keys| <= 8
    ensures (k, GroupSum(yearData, CategoryKey, RowAmount, k)) in CategoryBreakdown(yearData)
  {
    var t := GroupTotals(yearData, CategoryKey);
    TallySum(yearData, CategoryKey, RowAmount, k);
    assert k in t.keys;
    var j :| 0 <= j < |t.keys| && t.keys[j] == k;
    var e := Entries(t)[j];
    assert e == (k, GroupSum(yearData, CategoryKey, RowAmount, k));
    TopAll(t, 8, e);
  }

  /** When there are no more groups than the limit, every entry makes the list. */
  lemma TopAll(t: Totals, limit: nat, e: (string, real))
    requires ValidTotals(t) && |t.keys| <= limit && e in Entries(t)
    ensures e in Top(t, limit)
  {
    var sorted := SortDesc(Entries(t));
    assert |multiset(sorted)| == |multiset(Entries(t))|;
    assert Top(t, limit) == sorted;
    assert e in multiset(Entries(t));
  }

  /** Rows without a program are summed under "Unknown". */
  lemma UnknownProgram(rows: seq<BudgetRow>, i: nat)
    requires i < |rows| && rows[i].program == "" && Counts(rows[i], ProgramKey, RowAmount, "Unknown")
    ensures "Unknown" in GroupTotals(rows, ProgramKey).keys
  {
    TallySum(rows, ProgramKey, RowAmount, "Unknown");
  }

  /** The position after the first line terminator at or after `i`, or the end. */
  function LineEnd(s: string, i: nat): (e: nat)
    requires i <= |s|
    ensures i <= e <= |s|
    ensures forall k :: i <= k < e ==> !IsLineTerminator(s[k])
    ensures e < |s| ==> IsLineTerminator(s[e])
    decreases |s| - i
  {
    if i == |s| || IsLineTerminator(s[i]) then i else LineEnd(s, i + 1)
  }

  /** The last ")" in `s[i..e]`. */
  function LastClose(s: string, i: nat, e: nat): (r: Option<nat>)
    requires i <= e <= |s|
    ensures r.Some? ==> i <= r.value < e && s[r.value] == ')'
    ensures r.Some? ==> forall k :: r.value < k < e ==> s[k] != ')'
    ensures r.None? ==> forall k :: i <= k < e ==> s[k] != ')'
    decreases e - i
  {
    if e == i then None
    else if s[e - 1] == ')' then Some(e - 1)
    else LastClose(s, i, e - 1)
  }

  /** Where `/\((.*)\)/` matches in `s` from position `i` on: the leftmost "(" that a ")" follows
      on the same line, and the last such ")". */
  function ParenMatch(s: string, i: nat): (r: Option<(nat, nat)>)
    requires i <= |s|
    ensures r.Some? ==> i <= r.value.0 < r.value.1 < |s| && s[r.value.0] == '(' && s[r.value.1] == ')'
    decreases |s| - i
  {
    if i == |s| then None
    else if s[i] == '(' && LastClose(s, i + 1, LineEnd(s, i + 1)).Some? then
      Some((i, LastClose(s, i + 1, LineEnd(s, i + 1)).value))
    else ParenMatch(s, i + 1)
  }

  /** `s.replace(/\((.*)\)/, '-$1')`: the first match is rewritten to its inside behind a minus. */
  function ParenToMinus(s: string): string {
    match ParenMatch(s, 0)
    case None => s
    case Some((a, b)) => s[..a] + "-" + s[a + 1..b] + s[b + 1..]
  }

  /** An amount in accounting form on one line becomes a minus sign and its inside. */
  lemma ParenToMinusWhole(s: string)
    requires |s| >= 2 && s[0] == '(' && s[|s| - 1] == ')'
    requires forall k :: 0 <= k < |s| ==> !IsLineTerminator(s[k])
    ensures ParenToMinus(s) == ['-'] + s[1..|s| - 1]
  {
    assert LineEnd(s, 1) == |s|;
    assert LastClose(s, 1, |s|) == Some(|s| - 1);
    var last: nat := |s| - 1;
    assert ParenMatch(s, 0) == Some((0, last));
    assert s[|s|..] == [];
  }

  /** The amount the revenue and expense totals use. */
  function SignedAmount(amount: string): real {
    OrZero(ParseFloat(ParenToMinus(RemoveChars(amount, {'$', ','}))))
  }

  /** "($1,234)" reads as -1234. */
  lemma AccountingAmount(amount: string)
    requires var c := RemoveChars(amount, {'$', ','});
             |c| >= 3 && c[0] == '(' && c[|c| - 1] == ')' && AllDigits(c[1..|c| - 1])
    ensures SignedAmount(amount) == -(DigitsValue(RemoveChars(amount, {'$', ','})[1..|RemoveChars(amount, {'$', ','})| - 1]) as real)
  {
    var c := RemoveChars(amount, {'$', ','});
    var d := c[1..|c| - 1];
    forall k | 0 <= k < |c|
      ensures !IsLineTerminator(c[k])
    {
      if 0 < k < |c| - 1 {
        assert c[k] == d[k - 1];
      }
    }
    ParenToMinusWhole(c);
    var m := ['-'] + d;
    assert m[1..] == d;
    ParseNegativeDigits(m);
  }

  function Magnitude(a: real): (m: real)
    ensures m >= 0.0 && (m == a || m == -a)
  {
    if a < 0.0 then -a else a
  }

  /** The revenue total after the `forEach` over `rows`. */
  function RevenueTotal(rows: seq<BudgetRow>): (r: real)
    ensures r >= 0.0
    decreases |rows|
  {
    if |rows| == 0 then 0.0
    else
      var n := |rows| - 1;
      RevenueTotal(rows[..n]) + (if rows[n].kind == "Revenues" then Magnitude(SignedAmount(rows[n].amount)) else 0.0)
  }

  /** The expense total after the `forEach` over `rows`. */
  function ExpenseTotal(rows: seq<BudgetRow>): (r: real)
    ensures r >= 0.0
    decreases |rows|
  {
    if |rows| == 0 then 0.0
    else
      var n := |rows| - 1;
      ExpenseTotal(rows[..n]) + (if rows[n].kind != "Revenues" then Magnitude(SignedAmount(rows[n].amount)) else 0.0)
  }

  /** `revenueVsExpenses`: a row tagged exactly "Revenues" adds its magnitude to the revenue,
      every other row to the expenses. */
  method RevenueVsExpenses(rows: seq<BudgetRow>) returns (totalRevenue: real, totalExpenses: real)
    ensures totalRevenue == RevenueTotal(rows) && totalExpenses == ExpenseTotal(rows)
  {
    totalRevenue, totalExpenses := 0.0, 0.0;
    var i := 0;
    while i < |rows|
      invariant 0 <= i <= |rows|
      invariant totalRevenue == RevenueTotal(rows[..i]) && totalExpenses == ExpenseTotal(rows[..i])
    {
      assert rows[..i + 1][..i] == rows[..i];
      var amount := SignedAmount(rows[i].amount);
      if rows[i].kind == "Revenues" {
        totalRevenue := totalRevenue + Magnitude(amount);
      } else {
        totalExpenses := totalExpenses + Magnitude(amount);
      }
      i := i + 1;
    }
    assert rows[..i] == rows;
  }

  /** Every row's magnitude goes to exactly one of the two totals: together they add up the
      magnitudes of all rows. */
  lemma {:induction false} TotalsPartition(rows: seq<BudgetRow>)
    ensures RevenueTotal(rows) + ExpenseTotal(rows) == MagnitudeSum(rows)
    decreases |rows|
  {
    if |rows| > 0 {
      TotalsPartition(rows[..|rows| - 1]);
    }
  }

  /** The magnitudes of all rows' amounts, added up. */
  function MagnitudeSum(rows: seq<BudgetRow>): real
    decreases |rows|
  {
    if |rows| == 0 then 0.0 else MagnitudeSum(rows[..|rows| - 1]) + Magnitude(SignedAmount(rows[|rows| - 1].amount))
  }

  /** A row counts toward revenue only when tagged exactly "Revenues". */
  lemma RevenueOnlyByTag(rows: seq<BudgetRow>, row: BudgetRow)
    ensures row.kind == "Revenues" ==>
              RevenueTotal(rows + [row]) == RevenueTotal(rows) + Magnitude(SignedAmount(row.amount)) &&
              ExpenseTotal(rows + [row]) == ExpenseTotal(rows)
    ensures row.kind != "Revenues" ==>
              RevenueTotal(rows + [row]) == RevenueTotal(rows) &&
              ExpenseTotal(rows + [row]) == ExpenseTotal(rows) + Magnitude(SignedAmount(row.amount))
  {
    assert (rows + [row])[..|rows|] == rows;
  }

  datatype Balance = Surplus(amount: real) | Deficit(amount: real)

  /** The label and figure of the third card. */
  function BalanceOf(revenue: real, expenses: real): (b: Balance)
    ensures b.Surplus? <==> revenue - expenses >= 0.0
    ensures b.amount >= 0.0 && (b.amount == revenue - expenses || b.amount == expenses - revenue)
  {
    var diff := revenue - expenses;
    if diff >= 0.0 then Surplus(diff) else Deficit(-diff)
  }

  /** The unit `formatCurrency` writes a figure in: billions, millions, thousands or dollars,
      with the divisor that brings the figure into that unit. */
  datatype Unit = Unit(divisor: real, suffix: string)

  function CurrencyUnit(value: real): (u: Unit)
    ensures u.divisor > 0.0
    ensures value >= 1000.0 ==> value / u.divisor >= 1.0
    ensures value < 1000000000.0 ==> value / u.divisor < 1000.0
    ensures u.suffix == "" <==> value < 1000.0
  {
    if value >= 1000000000.0 then Unit(1000000000.0, "B")
    else if value >= 1000000.0 then Unit(1000000.0, "M")
    else if value >= 1000.0 then Unit(1000.0, "K")
    else Unit(1.0, "")
  }
}
