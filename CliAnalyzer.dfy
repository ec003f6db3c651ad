/** The command-line budget analyser: the cleaning of each CSV field as it is parsed, the
    year-range filter, the routing of a question to an answer, and the year-by-year trend of
    one category. */
module CliAnalyzer {
  import opened Wrappers
  import opened Text
  import opened Numbers
  import opened Collections
  import opened BudgetRows
  import CsvToSqlite

  /** A record after cleaning: text fields, the amount as a number (`None` is NaN) and the year
      as a whole number (`None` is null). */
  datatype CliRow = CliRow(program: string, service: string, activity: string, kind: string,
                           category: string, subCategory: string, commitment: string,
                           amount: Option<real>, year: Option<int>)

  /** The characters the amount cleaner keeps: `[\d.-]`. */
  predicate AmountChar(c: char) {
    IsDigit(c) || c == '.' || c == '-'
  }

  /** The Amount field: every character but digits, "." and "-" removed (quotes and commas
      included); an empty result reads as 0, anything else through `parseFloat`. */
  function CleanAmount(value: string): (r: Option<real>)
    ensures KeepChars(value, AmountChar) == "" ==> r == Some(0.0)
    ensures KeepChars(value, AmountChar) != "" ==> r == ParseFloat(KeepChars(value, AmountChar))
  {
    var cleaned := KeepChars(value, AmountChar);
    if cleaned == "" then Some(0.0) else ParseFloat(cleaned)
  }

  /** The Year field: `parseInt(value, 10)`, with NaN as null. */
  function CleanYear(value: string): Option<int> {
    ParseInt(value, false)
  }

  /** `value.replace(/^"|"$/g, '')`: one double quote removed at each end where present. */
  function StripQuotes(value: string): (r: string)
    ensures |r| <= |value|
  {
    var s := if |value| > 0 && value[0] == '"' then value[1..] else value;
    if |s| > 0 && s[|s| - 1] == '"' then s[..|s| - 1] else s
  }

  /** Every other field: the outer quotes stripped, then trimmed. */
  function CleanText(value: string): (r: string)
    ensures r == "" || (!IsWhite(r[0]) && !IsWhite(r[|r| - 1]))
  {
    Trim(StripQuotes(value))
  }

  /** A quoted field is read as its trimmed inside. */
  lemma QuotedField(s: string)
    ensures CleanText(['"'] + s + ['"']) == Trim(s)
  {
    var q := ['"'] + s + ['"'];
    assert q[1..] == s + ['"'];
    assert (s + ['"'])[..|s|] == s;
  }

  /** The transform applied to each field of a record. */
  function CleanRow(raw: BudgetRow): CliRow {
    CliRow(CleanText(raw.program), CleanText(raw.service), CleanText(raw.activity), CleanText(raw.kind),
           CleanText(raw.category), CleanText(raw.subCategory), CleanText(raw.commitment),
           CleanAmount(raw.amount), CleanYear(raw.year))
  }

  /** The filter on parsed rows: a truthy year from 2019 to 2024. */
  predicate InRange(row: CliRow) {
    row.year.Some? && row.year.value != 0 && 2019 <= row.year.value <= 2024
  }

  /** The year test reduces to the range: a zero year is outside it anyway. */
  lemma InRangeIsRange(row: CliRow)
    ensures InRange(row) <==> row.year.Some? && 2019 <= row.year.value <= 2024
  {
  }

  /** `validData`: the cleaned records whose year is in range, in order. */
  function ValidData(raws: seq<BudgetRow>): (rows: seq<CliRow>)
    ensures forall r :: r in rows <==> r in CleanRows(raws) && InRange(r)
  {
    Filter(CleanRows(raws), InRange)
  }

  function CleanRows(raws: seq<BudgetRow>): (rows: seq<CliRow>)
    ensures |rows| == |raws| && forall i :: 0 <= i < |raws| ==> rows[i] == CleanRow(raws[i])
  {
    seq(|raws|, i requires 0 <= i < |raws| => CleanRow(raws[i]))
  }

  /** A digit string keeps all of its characters. */
  lemma {:induction false} KeepDigits(d: string)
    requires AllDigits(d)
    ensures KeepChars(d, AmountChar) == d
    decreases |d|
  {
    if |d| > 0 {
      KeepDigits(d[1..]);
      assert [d[0]] + d[1..] == d;
    }
  }

  /** An amount in accounting form loses its parentheses here and stays positive:
      "(1234)" reads as 1234. */
  lemma ParenthesesDropped(raw: string)
    requires |raw| >= 3 && raw[0] == '(' && raw[|raw| - 1] == ')' && AllDigits(raw[1..|raw| - 1])
    ensures CleanAmount(raw) == Some(DigitsValue(raw[1..|raw| - 1]) as real)
  {
    var d := raw[1..|raw| - 1];
    KeepParenthesised(raw);
    assert CleanAmount(raw) == ParseFloat(d);
    ParseDigits(d, false);
  }

  lemma KeepParenthesised(raw: string)
    requires |raw| >= 3 && raw[0] == '(' && raw[|raw| - 1] == ')' && AllDigits(raw[1..|raw| - 1])
    ensures KeepChars(raw, AmountChar) == raw[1..|raw| - 1]
  {
    var d := raw[1..|raw| - 1];
    Bracketed(raw);
    KeepDigits(d);
    KeepBracketed(raw, AmountChar);
  }

  /** The two loaders read an amount in accounting form with opposite signs: "(1234)" is 1234
      here and -1234 in the SQLite loader. */
  lemma ParenthesesConventionsDisagree(raw: string)
    requires |raw| >= 3 && raw[0] == '(' && raw[|raw| - 1] == ')' && AllDigits(raw[1..|raw| - 1])
    ensures CleanAmount(raw) == Some(DigitsValue(raw[1..|raw| - 1]) as real)
    ensures CsvToSqlite.ParseAmount(Some(raw)) == -(DigitsValue(raw[1..|raw| - 1]) as real)
  {
    var d := raw[1..|raw| - 1];
    ParenthesesDropped(raw);
    assert raw == ['('] + d + [')'];
    RemoveCharsAppend(['('] + d, [')'], CsvToSqlite.AmountNoise);
    RemoveCharsAppend(['('], d, CsvToSqlite.AmountNoise);
    RemoveCharsNone(d, CsvToSqlite.AmountNoise);
    assert RemoveChars(raw, CsvToSqlite.AmountNoise) == d;
    CsvToSqlite.ParenthesisedDigits(raw);
  }

  // Routing a question

  /** Where `/(20\d{2})/` matches: "20" followed by two digits. */
  predicate YearAt(q: string, i: nat) {
    i + 4 <= |q| && q[i] == '2' && q[i + 1] == '0' && IsDigit(q[i + 2]) && IsDigit(q[i + 3])
  }

  /** The first match at or after position `i`. */
  function FirstYearFrom(q: string, i: nat): (p: Option<nat>)
    requires i <= |q|
    ensures p.Some? ==> i <= p.value && YearAt(q, p.value) && forall k :: i <= k < p.value ==> !YearAt(q, k)
    ensures p.None? ==> forall k :: i <= k <= |q| ==> !YearAt(q, k)
    decreases |q| - i
  {
    if YearAt(q, i) then Some(i) else if i == |q| then None else FirstYearFrom(q, i + 1)
  }

  /** The year the question mentions first, if any, read by `parseInt`. */
  function YearMention(q: string): (y: Option<int>)
    ensures y.Some? ==> 2000 <= y.value <= 2099
  {
    match FirstYearFrom(q, 0)
    case None => None
    case Some(p) => Some(2000 + 10 * DigitValue(q[p + 2]) + DigitValue(q[p + 3]))
  }

  /** The year is what `parseInt` reads from the matched four digits. */
  lemma YearMentionParses(q: string, p: nat)
    requires FirstYearFrom(q, 0) == Some(p)
    ensures YearMention(q) == ParseInt(q[p..p + 4], false)
  {
    YearWindow(q, p);
    TwentiethCenturyYear(q[p..p + 4]);
  }

  /** The four characters of a match are digits, the first two "20". */
  lemma YearWindow(q: string, p: nat)
    requires YearAt(q, p)
    ensures var w := q[p..p + 4];
      |w| == 4 && AllDigits(w) && w[0] == '2' && w[1] == '0' && w[2] == q[p + 2] && w[3] == q[p + 3]
  {
    var w := q[p..p + 4];
    assert w[0] == '2' && w[1] == '0' && w[2] == q[p + 2] && w[3] == q[p + 3];
  }

  /** "20" and two more digits read as a year of 2000 to 2099. */
  lemma TwentiethCenturyYear(w: string)
    requires |w| == 4 && AllDigits(w) && w[0] == '2' && w[1] == '0'
    ensures ParseInt(w, false) == Some(2000 + 10 * DigitValue(w[2]) + DigitValue(w[3]))
  {
    FourDigits(w);
    ParseDigits(w, false);
  }

  lemma FourDigits(w: string)
    requires |w| == 4 && AllDigits(w)
    ensures DigitsValue(w) == 1000 * DigitValue(w[0]) + 100 * DigitValue(w[1]) + 10 * DigitValue(w[2]) + DigitValue(w[3])
  {
    var a, b, c := w[..3], w[..2], w[..1];
    assert a[..2] == b && b[..1] == c && c[..0] == [];
    assert DigitsValue(c) == DigitValue(w[0]);
    assert DigitsValue(b) == 10 * DigitValue(w[0]) + DigitValue(w[1]);
    assert DigitsValue(a) == 10 * DigitsValue(b) + DigitValue(w[2]);
  }

  /** Where a question is sent. */
  datatype Answer =
    | YearlyExpenses(year: int)
    | HydroTrend
    | CategoryTrend(category: string)
    | DataSummary
    | AiFallback
    | HelpText

  /** The categories tried, in order, when no named trend matched. */
  const TrendTerms := ["equipment", "benefits", "salaries", "energy"]

  /** Whether `terms[i]` is what `terms.find(term => clean.includes(term))` returns: it is
      contained and no earlier term is. */
  predicate FirstContained(clean: string, terms: seq<string>, i: int) {
    0 <= i < |terms| && Contains(clean, terms[i]) && forall j :: 0 <= j < i ==> !Contains(clean, terms[j])
  }

  /** The first of `terms` that `clean` contains. */
  function FirstTerm(clean: string, terms: seq<string>): (t: Option<string>)
    ensures t.Some? ==> exists i :: FirstContained(clean, terms, i) && terms[i] == t.value
    ensures t.None? ==> forall x :: x in terms ==> !Contains(clean, x)
    decreases |terms|
  {
    if |terms| == 0 then None
    else if Contains(clean, terms[0]) then
      assert FirstContained(clean, terms, 0);
      Some(terms[0])
    else
      var t := FirstTerm(clean, terms[1..]);
      if t.Some? then
        var i :| FirstContained(clean, terms[1..], i) && terms[1..][i] == t.value;
        assert FirstContained(clean, terms, i + 1);
        t
      else
        assert forall x :: x in terms ==> x == terms[0] || x in terms[1..];
        t
  }

  /** The trend branch: `None` when no trend category is named and the question falls through.
      Hydro is tried first, then natural gas or gas, then water, then the first trend term the
      question contains. */
  function TrendRoute(clean: string): (r: Option<Answer>)
    ensures Contains(clean, "hydro") ==> r == Some(HydroTrend)
    ensures !Contains(clean, "hydro") && (Contains(clean, "natural gas") || Contains(clean, "gas")) ==>
              r == Some(CategoryTrend("Natural Gas"))
    ensures (!Contains(clean, "hydro") && !Contains(clean, "natural gas") && !Contains(clean, "gas") &&
             Contains(clean, "water")) ==> r == Some(CategoryTrend("Water"))
    ensures (!Contains(clean, "hydro") && !Contains(clean, "natural gas") && !Contains(clean, "gas") &&
             !Contains(clean, "water")) ==>
              (r.None? <==> forall t :: t in TrendTerms ==> !Contains(clean, t)) &&
              forall i :: FirstContained(clean, TrendTerms, i) ==> r == Some(CategoryTrend(TrendTerms[i]))
  {
    if Contains(clean, "hydro") then Some(HydroTrend)
    else if Contains(clean, "natural gas") || Contains(clean, "gas") then Some(CategoryTrend("Natural Gas"))
    else if Contains(clean, "water") then Some(CategoryTrend("Water"))
    else
      var t := FirstTerm(clean, TrendTerms);
      FirstContainedUnique(clean, TrendTerms);
      if t.Some? then
        var i :| FirstContained(clean, TrendTerms, i) && TrendTerms[i] == t.value;
        assert TrendTerms[i] in TrendTerms;
        Some(CategoryTrend(t.value))
      else
        assert forall i :: 0 <= i < |TrendTerms| ==> TrendTerms[i] in TrendTerms;
        None
  }

  /** At most one position holds the first contained term. */
  lemma FirstContainedUnique(clean: string, terms: seq<string>)
    ensures forall i, j :: FirstContained(clean, terms, i) && FirstContained(clean, terms, j) ==> i == j
  {
  }

  /** The OpenAI fallback runs only with a key that is set, not empty and not the placeholder. */
  predicate HasApiKey(apiKey: Option<string>) {
    apiKey.Some? && apiKey.value != "" && apiKey.value != "your-api-key-here"
  }

  /** `askQuestion`'s choice of answer: the yearly expenses for a year mentioned with
      "expense" or "cost"; otherwise a trend for "trend" or "change" with a category the trend
      branch knows; otherwise the summary for "tell me", "overview" or "summary"; otherwise the
      model with a usable key, and the help text without one. */
  function AskQuestion(question: string, apiKey: Option<string>): (r: Answer)
    ensures var clean := Cleaned(question);
            r.YearlyExpenses? <==> YearMention(question).Some? && AsksCost(clean)
    ensures r.YearlyExpenses? ==> YearMention(question) == Some(r.year)
    ensures var clean := Cleaned(question);
            var yearly := YearMention(question).Some? && AsksCost(clean);
            (r.HydroTrend? || r.CategoryTrend?) <==> !yearly && AsksTrend(clean) && TrendRoute(clean).Some?
    ensures r.HydroTrend? || r.CategoryTrend? ==> TrendRoute(Cleaned(question)) == Some(r)
    ensures var clean := Cleaned(question);
            var yearly := YearMention(question).Some? && AsksCost(clean);
            var trend := AsksTrend(clean) && TrendRoute(clean).Some?;
            r.DataSummary? <==> !yearly && !trend && AsksOverview(clean)
    ensures var clean := Cleaned(question);
            var yearly := YearMention(question).Some? && AsksCost(clean);
            var trend := AsksTrend(clean) && TrendRoute(clean).Some?;
            var other := !yearly && !trend && !AsksOverview(clean);
            (r.AiFallback? <==> other && HasApiKey(apiKey)) && (r.HelpText? <==> other && !HasApiKey(apiKey))
  {
    var clean := Cleaned(question);
    var year := YearMention(question);
    if year.Some? && AsksCost(clean) then YearlyExpenses(year.value)
    else if AsksTrend(clean) && TrendRoute(clean).Some? then TrendRoute(clean).value
    else if AsksOverview(clean) then DataSummary
    else if HasApiKey(apiKey) then AiFallback
    else HelpText
  }

  /** `question.toLowerCase().trim()`. */
  function Cleaned(question: string): string {
    Trim(ToLower(question))
  }

  /** The question asks about spending: it contains "expense" or "cost". */
  predicate AsksCost(clean: string) {
    Contains(clean, "expense") || Contains(clean, "cost")
  }

  /** The question asks about a trend: it contains "trend" or "change". */
  predicate AsksTrend(clean: string) {
    Contains(clean, "trend") || Contains(clean, "change")
  }

  /** The question asks for an overview: "tell me", "overview" or "summary". */
  predicate AsksOverview(clean: string) {
    Contains(clean, "tell me") || Contains(clean, "overview") || Contains(clean, "summary")
  }

  /** A year and "expense" or "cost" win over every trend word. */
  lemma YearBeforeTrend(question: string, apiKey: Option<string>)
    requires YearMention(question).Some?
    requires Contains(Trim(ToLower(question)), "cost")
    ensures AskQuestion(question, apiKey) == YearlyExpenses(YearMention(question).value)
  {
  }

  /** Hydro is tried before gas and water. */
  lemma HydroFirst(question: string, apiKey: Option<string>)
    requires YearMention(question).None?
    requires var clean := Trim(ToLower(question));
             Contains(clean, "trend") && Contains(clean, "hydro")
    ensures AskQuestion(question, apiKey) == HydroTrend
  {
  }

  /** "natural gas" is one case of "gas": any question naming natural gas names gas. */
  lemma NaturalGasIsGas(clean: string)
    requires Contains(clean, "natural gas")
    ensures Contains(clean, "gas")
  {
    ContainsIffOccurs(clean, "natural gas");
    var k :| 0 <= k <= |clean| - |"natural gas"| && StartsWith(clean[k..], "natural gas");
    assert clean[k..k + 11] == "natural gas";
    assert clean[k + 8..k + 11] == "gas";
    assert clean[k + 8..][..3] == "gas";
    ContainsSuffix(clean, k + 8, "gas");
  }

  /** A trend question that names no known category falls through to the overview test. */
  lemma TrendFallsThrough(question: string, apiKey: Option<string>)
    requires YearMention(question).None?
    requires var clean := Trim(ToLower(question));
             Contains(clean, "trend") && Contains(clean, "overview") &&
             !Contains(clean, "hydro") && !Contains(clean, "gas") && !Contains(clean, "water") &&
             forall t :: t in TrendTerms ==> !Contains(clean, t)
    ensures AskQuestion(question, apiKey) == DataSummary
  {
    var clean := Trim(ToLower(question));
    assert !Contains(clean, "natural gas") by {
      if Contains(clean, "natural gas") {
        NaturalGasIsGas(clean);
      }
    }
  }

  /** Without a usable key, a question no rule takes gets the help text; the placeholder key
      counts as no key. */
  lemma PlaceholderKeyGivesHelp(question: string)
    requires AskQuestion(question, None) == HelpText
    ensures AskQuestion(question, Some("your-api-key-here")) == HelpText
    ensures AskQuestion(question, Some("")) == HelpText
  {
  }

  // The trend of one category

  /** Whether a field mentions the category, ignoring case. */
  predicate Mentions(field: string, category: string) {
    Contains(ToLower(field), ToLower(category))
  }

  /** The rows `analyzeTrend` sums: those whose sub-category mentions the category, or, when
      there are none, those whose category does. */
  function Matching(rows: seq<CliRow>, category: string): (r: seq<CliRow>)
    ensures (exists x :: x in rows && Mentions(x.subCategory, category)) ==>
              forall x :: x in r <==> x in rows && Mentions(x.subCategory, category)
    ensures (forall x :: x in rows ==> !Mentions(x.subCategory, category)) ==>
              forall x :: x in r <==> x in rows && Mentions(x.category, category)
  {
    var bySub := Filter(rows, (x: CliRow) => Mentions(x.subCategory, category));
    if |bySub| > 0 then
      assert bySub[0] in bySub;
      bySub
    else
      assert forall x :: x in rows ==> !Mentions(x.subCategory, category);
      Filter(rows, (x: CliRow) => Mentions(x.category, category))
  }

  /** The years of the rows; a row without a year (there is none after `ValidData`) is
      filed under 0. */
  function YearOf(row: CliRow): int {
    if row.year.Some? then row.year.value else 0
  }

  function RowYears(rows: seq<CliRow>): (ys: seq<int>)
    ensures |ys| == |rows| && forall i :: 0 <= i < |rows| ==> ys[i] == YearOf(rows[i])
  {
    seq(|rows|, i requires 0 <= i < |rows| => YearOf(rows[i]))
  }

  /** The sum of the amounts of one year's rows; NaN amounts count as 0. */
  function YearSum(rows: seq<CliRow>, year: int): real
    decreases |rows|
  {
    if |rows| == 0 then 0.0
    else
      var n := |rows| - 1;
      YearSum(rows[..n], year) + (if YearOf(rows[n]) == year then OrZero(rows[n].amount) else 0.0)
  }

  /** `trendData`: one entry per year of the rows, ascending, with that year's sum. */
  function TrendPoints(rows: seq<CliRow>): (ps: seq<(int, real)>)
    ensures forall i, j :: 0 <= i < j < |ps| ==> ps[i].0 < ps[j].0
    ensures forall y :: (exists i :: 0 <= i < |ps| && ps[i].0 == y) <==> y in RowYears(rows)
    ensures forall i :: 0 <= i < |ps| ==> ps[i].1 == YearSum(rows, ps[i].0)
  {
    var ys := SortedSet(RowYears(rows));
    var ps := seq(|ys|, i requires 0 <= i < |ys| => (ys[i], YearSum(rows, ys[i])));
    assert forall y :: y in ys <==> exists i :: 0 <= i < |ps| && ps[i].0 == y by {
      forall y | y in ys
        ensures exists i :: 0 <= i < |ps| && ps[i].0 == y
      {
        var i :| 0 <= i < |ys| && ys[i] == y;
        assert ps[i].0 == y;
      }
    }
    ps
  }

  datatype Trend =
    | NoData(suggestions: seq<string>)
    | Points(points: seq<(int, real)>, change: Option<real>)

  function SubCategories(rows: seq<CliRow>): (ss: seq<string>)
    ensures |ss| == |rows| && forall i :: 0 <= i < |rows| ==> ss[i] == rows[i].subCategory
  {
    seq(|rows|, i requires 0 <= i < |rows| => rows[i].subCategory)
  }

  /** `analyzeTrend`: no match offers the first five distinct sub-categories of all rows;
      otherwise the yearly sums, ascending, and the change from the first year to the last
      when there is more than one year. */
  function AnalyzeTrend(rows: seq<CliRow>, category: string): (t: Trend)
    ensures t.NoData? <==> Matching(rows, category) == []
    ensures t.NoData? ==> t.suggestions == Take(Distinct(SubCategories(rows)), 5)
    ensures t.NoData? ==> |t.suggestions| <= 5 && NoDuplicates(t.suggestions)
    ensures t.Points? ==> |t.points| >= 1 && t.points == TrendPoints(Matching(rows, category))
    ensures t.Points? ==> (t.change.Some? <==> |t.points| > 1)
    ensures t.Points? && t.change.Some? ==> t.change.value == t.points[|t.points| - 1].1 - t.points[0].1
  {
    var m := Matching(rows, category);
    if m == [] then
      var d := Distinct(SubCategories(rows));
      var s := Take(d, 5);
      assert forall i :: 0 <= i < |s| ==> s[i] == d[i];
      NoData(s)
    else
      var ps := TrendPoints(m);
      assert m[0] in m;
      assert RowYears(m)[0] in RowYears(m);
      var change := if |ps| > 1 then Some(ps[|ps| - 1].1 - ps[0].1) else None;
      Points(ps, change)
  }

  /** When any sub-category mentions the category, only sub-category matches are summed. */
  lemma SubCategoryFirst(rows: seq<CliRow>, category: string, i: nat)
    requires i < |rows| && Mentions(rows[i].subCategory, category)
    ensures forall x :: x in Matching(rows, category) ==> Mentions(x.subCategory, category)
  {
    assert rows[i] in rows;
  }

  /** A single-year trend reports no change. */
  lemma OneYearNoChange(rows: seq<CliRow>, category: string)
    requires Matching(rows, category) != []
    requires forall x :: x in Matching(rows, category) ==> x.year == Some(2024)
    ensures AnalyzeTrend(rows, category).Points?
    ensures AnalyzeTrend(rows, category).change.None?
  {
    var m := Matching(rows, category);
    var ps := TrendPoints(m);
    assert forall y :: y in RowYears(m) ==> y == 2024 by {
      forall y | y in RowYears(m)
        ensures y == 2024
      {
        var i :| 0 <= i < |RowYears(m)| && RowYears(m)[i] == y;
        assert m[i] in m;
      }
    }
    var ys := seq(|ps|, i requires 0 <= i < |ps| => ps[i].0);
    forall i | 0 <= i < |ys|
      ensures ys[i] in {2024}
    {
      assert ps[i].0 in RowYears(m);
    }
    IncreasingWithin(ys, {2024});
  }

  /** The report text: the heading, one line per year and, over several years, the change.
      Numbers are written by `money` (`toLocaleString('en-CA')`) and `percent` (`toFixed(1)`),
      which are parameters here. */
  function ChangeText(ps: seq<(int, real)>, money: real -> string, percent: real -> string): string
    requires |ps| > 1
  {
    var first := ps[0].1;
    var change := ps[|ps| - 1].1 - first;
    var pct := if first != 0.0 then percent(change / first * 100.0) else "N/A";
    "\nOverall change: $" + money(change) + " (" + pct + "%) from " + YearText(ps[0].0)
    + " to " + YearText(ps[|ps| - 1].0)
  }

  /** `${year}` for a whole number. */
  function YearText(y: int): string {
    if y < 0 then "-" + NatToString(-y) else NatToString(y)
  }

  function PointLine(p: (int, real), money: real -> string): string {
    "- " + YearText(p.0) + ": $" + money(p.1) + "\n"
  }

  function LineOf(money: real -> string): ((int, real)) -> string {
    p => PointLine(p, money)
  }

  /** The lines of the points, in order. */
  function PointLines(ps: seq<(int, real)>, money: real -> string): string {
    Lines(ps, LineOf(money))
  }

  /** The response `analyzeTrend` builds for matched rows: the heading, a line appended for
      each year in turn, then the change. */
  method TrendReport(points: seq<(int, real)>, category: string, money: real -> string, percent: real -> string)
    returns (response: string)
    ensures response == Heading(category) + PointLines(points, money) + Closing(points, money, percent)
  {
    response := AppendLines(Heading(category), points, LineOf(money));
    if |points| > 1 {
      response := response + ChangeText(points, money, percent);
    } else {
      assert Closing(points, money, percent) == "";
    }
  }

  function Heading(category: string): string {
    category + " Cost Trends:\n"
  }

  /** The change line, present only over more than one year. */
  function Closing(ps: seq<(int, real)>, money: real -> string, percent: real -> string): string {
    if |ps| > 1 then ChangeText(ps, money, percent) else ""
  }
}
