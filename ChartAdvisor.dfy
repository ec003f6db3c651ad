/** `analyzeVisualizationNeeds` of the chart component: from the question text and the shape
    of the result rows, recommend a line, bar or pie chart with its axes, or no chart. */
module ChartAdvisor {
  import opened Wrappers
  import opened Text
  import opened QueryStore
  import opened Collections
  import Numbers

  /** Every chart kind the chart component can draw. */
  datatype ChartType = Line | Bar | Pie | Area | Comparison

  /** Axis fields may be `undefined` when the first row has too few columns. */
  datatype ChartConfig = ChartConfig(xField: Option<string>, yField: Option<string>, title: string)

  datatype Analysis = Analysis(shouldVisualize: bool, chartType: Option<ChartType>, chartConfig: Option<ChartConfig>)

  const NoChart := Analysis(false, None, None)

  const TrendPatterns: seq<string> := ["trend", "over time", "yearly", "annual", "growth", "change"]
  const ComparisonPatterns: seq<string> := ["compare", "vs", "versus", "difference", "between"]
  const RankingPatterns: seq<string> := ["top", "bottom", "highest", "lowest", "most", "least"]
  const DistributionPatterns: seq<string> := ["breakdown", "distribution", "share", "percentage"]

  /** `patterns.some(p => q.includes(p))`. */
  predicate MentionsAny(q: string, patterns: seq<string>) {
    exists i :: 0 <= i < |patterns| && Contains(q, patterns[i])
  }

  predicate IsYearColumn(col: string) {
    Contains(ToLower(col), "year")
  }

  predicate IsAmountColumn(col: string) {
    Contains(ToLower(col), "amount") || Contains(ToLower(col), "total")
  }

  predicate IsLabelColumn(col: string) {
    !IsAmountColumn(col)
  }

  /** Position of the first column satisfying `p`. */
  function FindIndex(cols: seq<string>, p: string -> bool): (r: Option<nat>)
    ensures r.Some? ==> r.value < |cols| && p(cols[r.value])
    ensures r.Some? ==> forall j :: 0 <= j < r.value ==> !p(cols[j])
    ensures r.None? ==> forall j :: 0 <= j < |cols| ==> !p(cols[j])
  {
    if |cols| == 0 then None
    else if p(cols[0]) then Some(0)
    else
      match FindIndex(cols[1..], p)
      case None => None
      case Some(k) => Some(k + 1)
  }

  /** `cols.find(p)`: the first column satisfying `p`. */
  function Find(cols: seq<string>, p: string -> bool): (r: Option<string>)
    ensures r.Some? <==> exists i :: 0 <= i < |cols| && p(cols[i])
    ensures r.Some? ==> p(r.value) && exists i :: 0 <= i < |cols| && cols[i] == r.value
                                                 && forall j :: 0 <= j < i ==> !p(cols[j])
  {
    match FindIndex(cols, p)
    case None => None
    case Some(i) => Some(cols[i])
  }

  /** `found || cols[k]`: a found column unless it is missing or the empty name (which
      JavaScript treats as false), otherwise the k-th column, or `undefined`. */
  function OrColumn(found: Option<string>, cols: seq<string>, k: nat): Option<string> {
    if found.Some? && found.value != "" then found
    else if k < |cols| then Some(cols[k])
    else None
  }

  /** The axes of the bar and pie charts: a label column across, an amount column up. */
  function LabelAmountConfig(cols: seq<string>, title: string): ChartConfig {
    ChartConfig(OrColumn(Find(cols, IsLabelColumn), cols, 0), OrColumn(Find(cols, IsAmountColumn), cols, 1), title)
  }

  /** The recommendation for `question` and the rows `data` (`None` when absent); the query
      type is accepted and ignored. */
  function Analyze(question: string, queryType: string, data: Option<seq<Row>>): (r: Analysis)
    ensures r.shouldVisualize ==> r.chartType.Some? && r.chartType.value in {Line, Bar, Pie} && r.chartConfig.Some?
    ensures !r.shouldVisualize ==> r == NoChart
    ensures data.None? || |data.value| < 2 ==> r == NoChart
    ensures r.chartType == Some(Pie) ==> |data.value| <= 8
  {
    var q := ToLower(question);
    if data.None? || |data.value| < 2 then NoChart
    else
      var cols := FirstColumns(data.value);
      var hasYear := exists i :: 0 <= i < |cols| && IsYearColumn(cols[i]);
      var hasAmount := exists i :: 0 <= i < |cols| && IsAmountColumn(cols[i]);
      if MentionsAny(q, TrendPatterns) && hasYear && hasAmount then
        Analysis(true, Some(Line), Some(ChartConfig(OrColumn(Find(cols, IsYearColumn), cols, 0),
                                                    OrColumn(Find(cols, IsAmountColumn), cols, 1),
                                                    "Spending Trend Over Time")))
      else if MentionsAny(q, ComparisonPatterns) && hasAmount then
        Analysis(true, Some(Bar), Some(LabelAmountConfig(cols, "Comparison Analysis")))
      else if MentionsAny(q, RankingPatterns) && |data.value| <= 10 then
        Analysis(true, Some(Bar), Some(LabelAmountConfig(cols, "Top Rankings")))
      else if MentionsAny(q, DistributionPatterns) && |data.value| <= 8 then
        Analysis(true, Some(Pie), Some(LabelAmountConfig(cols, "Distribution Breakdown")))
      else NoChart
  }

  /** `Object.keys(data[0] || {})`: the column names of the first row, which every
      structural test inspects; none without rows. `KeysShape` states their order. */
  function FirstColumns(data: seq<Row>): (cols: seq<string>)
    ensures |data| == 0 ==> cols == []
    ensures |data| > 0 ==> |cols| <= |data[0]|
  {
    if |data| == 0 then [] else ObjectKeys(data[0])
  }

  /** A property name that JavaScript treats as an array index: the canonical decimal
      form of an integer below 2^32 - 1 ("0" and "2023", but not "07" or "-1"). */
  predicate IsArrayIndex(name: string) {
    |name| > 0 && Numbers.AllDigits(name) && (name[0] != '0' || |name| == 1) &&
    Numbers.DigitsValue(name) < 0xFFFF_FFFF
  }

  predicate IsPlainName(name: string) {
    !IsArrayIndex(name)
  }

  /** The column names of a row, one per field; a name may repeat. */
  function Names(row: Row): (names: seq<string>)
    ensures |names| == |row| && forall i :: 0 <= i < |row| ==> names[i] == row[i].name
  {
    seq(|row|, i requires 0 <= i < |row| => row[i].name)
  }

  /** `Object.keys` of the object a result row becomes, built one field at a time: a
      repeated name is one property at the place of its first occurrence. */
  function ObjectKeys(row: Row): (keys: seq<string>)
    ensures |keys| <= |row|
    decreases |row|
  {
    if |row| == 0 then [] else AddKey(ObjectKeys(row[..|row| - 1]), row[|row| - 1].name)
  }

  /** The keys after a property `name` is created: unchanged when it exists; an
      array-index name goes among the array-index keys by numeric value, any other
      name goes last. */
  function AddKey(keys: seq<string>, name: string): (r: seq<string>)
    ensures |r| <= |keys| + 1
  {
    if name in keys then keys
    else if IsArrayIndex(name) then InsertIndex(name, keys)
    else keys + [name]
  }

  /** Inserts the array-index name `k` before the first key that is not an array index
      or has a larger value. */
  function InsertIndex(k: string, keys: seq<string>): (r: seq<string>)
    requires IsArrayIndex(k)
    ensures |r| == |keys| + 1
    decreases |keys|
  {
    if |keys| == 0 || !IsArrayIndex(keys[0]) || Numbers.DigitsValue(k) <= Numbers.DigitsValue(keys[0])
    then [k] + keys
    else [keys[0]] + InsertIndex(k, keys[1..])
  }

  /** The array-index keys come first, in ascending numeric order. */
  predicate IndexAscending(keys: seq<string>) {
    forall i, j :: 0 <= i < j < |keys| && IsArrayIndex(keys[j]) ==>
      IsArrayIndex(keys[i]) && Numbers.DigitsValue(keys[i]) <= Numbers.DigitsValue(keys[j])
  }

  /** The keys that are not array indices, in their order. */
  function Plain(keys: seq<string>): seq<string>
    decreases |keys|
  {
    if |keys| == 0 then []
    else (if IsPlainName(keys[0]) then [keys[0]] else []) + Plain(keys[1..])
  }

  /** The names that are not array indices, each once, in the order of their first
      occurrence (`FirstPlainNamesDistinct` relates it to `Distinct` and `Filter`). */
  function FirstPlainNames(names: seq<string>): seq<string>
    decreases |names|
  {
    if |names| == 0 then []
    else
      var p, last := FirstPlainNames(names[..|names| - 1]), names[|names| - 1];
      if IsPlainName(last) && last !in p then p + [last] else p
  }

  /** The keys of a row: each of its names once, the array-index names first in ascending
      numeric order, then the other names in the order of their first field. */
  lemma {:induction false} KeysShape(row: Row)
    ensures forall x :: x in ObjectKeys(row) <==> x in Names(row)
    ensures NoDuplicates(ObjectKeys(row))
    ensures IndexAscending(ObjectKeys(row))
    ensures Plain(ObjectKeys(row)) == FirstPlainNames(Names(row))
    decreases |row|
  {
    if |row| > 0 {
      var n := |row| - 1;
      KeysShape(row[..n]);
      NamesSnoc(row);
      AddKeyShape(ObjectKeys(row[..n]), Names(row[..n]), row[n].name);
    }
  }

  lemma NamesSnoc(row: Row)
    requires |row| > 0
    ensures Names(row) == Names(row[..|row| - 1]) + [row[|row| - 1].name]
  {
  }

  /** Creating one more property keeps the shape of `KeysShape`. */
  lemma AddKeyShape(keys: seq<string>, names: seq<string>, name: string)
    requires forall x :: x in keys <==> x in names
    requires NoDuplicates(keys) && IndexAscending(keys)
    requires Plain(keys) == FirstPlainNames(names)
    ensures forall x :: x in AddKey(keys, name) <==> x in names + [name]
    ensures NoDuplicates(AddKey(keys, name))
    ensures IndexAscending(AddKey(keys, name))
    ensures Plain(AddKey(keys, name)) == FirstPlainNames(names + [name])
  {
    var all := names + [name];
    assert all[..|names|] == names;
    PlainMembers(keys);
    if name in keys {
    } else if IsArrayIndex(name) {
      InsertIndexMembers(name, keys);
      InsertIndexAscending(name, keys);
      InsertIndexPlain(name, keys);
    } else {
      PlainAppend(keys, name);
      AppendPlainAscending(keys, name);
    }
  }

  /** The plain keys are the keys that are not array indices. */
  lemma {:induction false} PlainMembers(keys: seq<string>)
    ensures forall x :: x in Plain(keys) <==> x in keys && IsPlainName(x)
    decreases |keys|
  {
    if |keys| > 0 {
      PlainMembers(keys[1..]);
      assert keys == [keys[0]] + keys[1..];
    }
  }

  /** `FirstPlainNames` is `[...new Set(names.filter(isPlain))]`. */
  lemma {:induction false} FirstPlainNamesDistinct(names: seq<string>)
    ensures FirstPlainNames(names) == Distinct(Filter(names, IsPlainName))
    decreases |names|
  {
    if |names| > 0 {
      var n := |names| - 1;
      FirstPlainNamesDistinct(names[..n]);
      var f := Filter(names[..n], IsPlainName);
      assert Filter(names, IsPlainName) == f + (if IsPlainName(names[n]) then [names[n]] else []);
      if IsPlainName(names[n]) {
        var g := f + [names[n]];
        assert g[..|g| - 1] == f && g[|g| - 1] == names[n];
      } else {
        assert Filter(names, IsPlainName) == f;
      }
    }
  }

  lemma {:induction false} InsertIndexMembers(k: string, keys: seq<string>)
    requires IsArrayIndex(k)
    ensures forall x :: x in InsertIndex(k, keys) <==> x == k || x in keys
    ensures NoDuplicates(keys) && k !in keys ==> NoDuplicates(InsertIndex(k, keys))
    decreases |keys|
  {
    if |keys| > 0 && IsArrayIndex(keys[0]) && Numbers.DigitsValue(k) > Numbers.DigitsValue(keys[0]) {
      InsertIndexMembers(k, keys[1..]);
      assert keys == [keys[0]] + keys[1..];
      if NoDuplicates(keys) && k !in keys {
        assert NoDuplicates(keys[1..]) && keys[0] !in keys[1..];
      }
    } else {
      assert forall x :: x in [k] + keys <==> x == k || x in keys;
    }
  }

  lemma {:induction false} InsertIndexAscending(k: string, keys: seq<string>)
    requires IsArrayIndex(k) && IndexAscending(keys)
    ensures IndexAscending(InsertIndex(k, keys))
    decreases |keys|
  {
    if |keys| > 0 {
      if !IsArrayIndex(keys[0]) || Numbers.DigitsValue(k) <= Numbers.DigitsValue(keys[0]) {
        var r := [k] + keys;
        forall i, j | 0 <= i < j < |r| && IsArrayIndex(r[j])
          ensures IsArrayIndex(r[i]) && Numbers.DigitsValue(r[i]) <= Numbers.DigitsValue(r[j])
        {
          if i == 0 && j > 1 {
            assert r[j] == keys[j - 1];
          }
        }
      } else {
        var rest := InsertIndex(k, keys[1..]);
        InsertIndexAscending(k, keys[1..]);
        InsertIndexMembers(k, keys[1..]);
        var r := [keys[0]] + rest;
        forall i, j | 0 <= i < j < |r| && IsArrayIndex(r[j])
          ensures IsArrayIndex(r[i]) && Numbers.DigitsValue(r[i]) <= Numbers.DigitsValue(r[j])
        {
          if i == 0 {
            assert r[j] in rest;
            if r[j] != k {
              var m :| 0 <= m < |keys[1..]| && keys[1..][m] == r[j];
              assert keys[m + 1] == r[j];
            }
          }
        }
      }
    }
  }

  lemma {:induction false} InsertIndexPlain(k: string, keys: seq<string>)
    requires IsArrayIndex(k)
    ensures Plain(InsertIndex(k, keys)) == Plain(keys)
    decreases |keys|
  {
    if |keys| == 0 || !IsArrayIndex(keys[0]) || Numbers.DigitsValue(k) <= Numbers.DigitsValue(keys[0]) {
      assert ([k] + keys)[1..] == keys;
    } else {
      InsertIndexPlain(k, keys[1..]);
      assert ([keys[0]] + InsertIndex(k, keys[1..]))[1..] == InsertIndex(k, keys[1..]);
    }
  }

  lemma {:induction false} PlainAppend(keys: seq<string>, name: string)
    requires IsPlainName(name)
    ensures Plain(keys + [name]) == Plain(keys) + [name]
    decreases |keys|
  {
    if |keys| == 0 {
      assert ([] + [name])[1..] == [];
    } else {
      PlainAppend(keys[1..], name);
      assert (keys + [name])[1..] == keys[1..] + [name];
    }
  }

  lemma AppendPlainAscending(keys: seq<string>, name: string)
    requires IsPlainName(name) && IndexAscending(keys)
    ensures IndexAscending(keys + [name])
  {
    var r := keys + [name];
    forall i, j | 0 <= i < j < |r| && IsArrayIndex(r[j])
      ensures IsArrayIndex(r[i]) && Numbers.DigitsValue(r[i]) <= Numbers.DigitsValue(r[j])
    {
      assert r[i] == keys[i] && r[j] == keys[j];
    }
  }

  /** For ordinary result rows, whose column names are distinct and none an array index,
      the columns are the names in field order. */
  lemma {:induction false} OrdinaryNamesInOrder(row: Row)
    requires NoDuplicates(Names(row))
    requires forall i :: 0 <= i < |row| ==> IsPlainName(row[i].name)
    ensures ObjectKeys(row) == Names(row)
    decreases |row|
  {
    if |row| > 0 {
      var n := |row| - 1;
      NamesSnoc(row);
      var names := Names(row[..n]);
      assert NoDuplicates(names) by {
        forall i, j | 0 <= i < j < |names| ensures names[i] != names[j] {
          assert names[i] == Names(row)[i] && names[j] == Names(row)[j];
        }
      }
      OrdinaryNamesInOrder(row[..n]);
      assert row[n].name !in names by {
        forall i | 0 <= i < |names| ensures names[i] != row[n].name {
          assert names[i] == Names(row)[i] && row[n].name == Names(row)[n];
        }
      }
      assert IsPlainName(row[n].name);
    }
  }

  /** A column named like a year is listed before the columns created earlier:
      `Object.keys({program: 'Fire', 2023: 5})` is `['2023', 'program']`. */
  lemma YearNamedColumnFirst(a: Cell, b: Cell)
    ensures ObjectKeys([Field("program", a), Field("2023", b)]) == ["2023", "program"]
  {
    var row := [Field("program", a), Field("2023", b)];
    assert row[..1][..0] == [];
    assert !IsArrayIndex("program") by { assert !IsDigit('p'); }
    assert ObjectKeys(row[..1]) == ["program"];
    var y := "2023";
    assert y[..3] == "202" && y[..3][..2] == "20" && y[..3][..2][..1] == "2";
    assert y[..3][..2][..1][..0] == "";
    assert Numbers.DigitsValue("2") == 2;
    assert Numbers.DigitsValue("20") == 20;
    assert Numbers.DigitsValue("202") == 202;
    assert Numbers.DigitsValue(y) == 2023;
    assert IsArrayIndex(y);
  }

  predicate HasColumn(cols: seq<string>, p: string -> bool) {
    exists i :: 0 <= i < |cols| && p(cols[i])
  }

  /** A name containing a keyword is not the empty name. */
  lemma KeywordColumnNonEmpty(col: string, word: string)
    requires |word| > 0 && Contains(ToLower(col), word)
    ensures col != ""
  {
  }

  /** The query type never changes the recommendation. */
  lemma QueryTypeIgnored(question: string, t1: string, t2: string, data: Option<seq<Row>>)
    ensures Analyze(question, t1, data) == Analyze(question, t2, data)
  {
  }

  /** The keyword tests read the lower-cased question, so letter case never matters. */
  lemma CaseInsensitive(question: string, queryType: string, data: Option<seq<Row>>)
    ensures Analyze(ToLower(question), queryType, data) == Analyze(question, queryType, data)
  {
    ToLowerIdempotent(question);
  }

  /** A trend keyword, a year-like column and an amount-like column give a line chart whose
      axes are the first year-like and the first amount-like columns. */
  lemma TrendGivesLine(question: string, queryType: string, data: seq<Row>)
    requires |data| >= 2
    requires MentionsAny(ToLower(question), TrendPatterns)
    requires HasColumn(FirstColumns(data), IsYearColumn) && HasColumn(FirstColumns(data), IsAmountColumn)
    ensures Analyze(question, queryType, Some(data)).chartType == Some(Line)
    ensures Analyze(question, queryType, Some(data)).chartConfig ==
            Some(ChartConfig(Find(FirstColumns(data), IsYearColumn), Find(FirstColumns(data), IsAmountColumn),
                             "Spending Trend Over Time"))
  {
    var cols := FirstColumns(data);
    var y := Find(cols, IsYearColumn).value;
    var a := Find(cols, IsAmountColumn).value;
    KeywordColumnNonEmpty(y, "year");
    if Contains(ToLower(a), "amount") {
      KeywordColumnNonEmpty(a, "amount");
    } else {
      KeywordColumnNonEmpty(a, "total");
    }
  }

  /** Without a trend chart, a comparison keyword and an amount-like column give a bar chart,
      however many rows there are. */
  lemma ComparisonGivesBar(question: string, queryType: string, data: seq<Row>)
    requires |data| >= 2
    requires !(MentionsAny(ToLower(question), TrendPatterns) && HasColumn(FirstColumns(data), IsYearColumn))
    requires MentionsAny(ToLower(question), ComparisonPatterns) && HasColumn(FirstColumns(data), IsAmountColumn)
    ensures Analyze(question, queryType, Some(data)) ==
            Analysis(true, Some(Bar), Some(LabelAmountConfig(FirstColumns(data), "Comparison Analysis")))
  {
  }

  /** A ranking keyword with at most ten rows gives a bar chart even when no column is
      amount-like, once the trend and comparison families have not applied. */
  lemma RankingGivesBar(question: string, queryType: string, data: seq<Row>)
    requires 2 <= |data| <= 10
    requires !HasColumn(FirstColumns(data), IsAmountColumn)
    requires MentionsAny(ToLower(question), RankingPatterns)
    ensures Analyze(question, queryType, Some(data)) ==
            Analysis(true, Some(Bar), Some(LabelAmountConfig(FirstColumns(data), "Top Rankings")))
  {
  }

  /** A distribution keyword with at most eight rows gives a pie chart when no earlier family
      applies. */
  lemma DistributionGivesPie(question: string, queryType: string, data: seq<Row>)
    requires 2 <= |data| <= 8
    requires !MentionsAny(ToLower(question), TrendPatterns) && !MentionsAny(ToLower(question), ComparisonPatterns)
    requires !MentionsAny(ToLower(question), RankingPatterns)
    requires MentionsAny(ToLower(question), DistributionPatterns)
    ensures Analyze(question, queryType, Some(data)) ==
            Analysis(true, Some(Pie), Some(LabelAmountConfig(FirstColumns(data), "Distribution Breakdown")))
  {
  }

  /** A family whose structural test fails falls through: a trend question without a year
      column and with no other family's keyword gets no chart. */
  lemma TrendWithoutYearFallsThrough(question: string, queryType: string, data: seq<Row>)
    requires |data| >= 2 && !HasColumn(FirstColumns(data), IsYearColumn)
    requires !MentionsAny(ToLower(question), ComparisonPatterns) && !MentionsAny(ToLower(question), RankingPatterns)
    requires !MentionsAny(ToLower(question), DistributionPatterns)
    ensures Analyze(question, queryType, Some(data)) == NoChart
  {
  }

  /** Each kind of chart is produced only by its own family's keywords and structure. */
  lemma ChartOnlyFromItsFamily(question: string, queryType: string, data: seq<Row>)
    requires |data| >= 2
    ensures var r := Analyze(question, queryType, Some(data));
            var q := ToLower(question);
            (r.chartType == Some(Line) ==> MentionsAny(q, TrendPatterns) && HasColumn(FirstColumns(data), IsYearColumn)
                                           && HasColumn(FirstColumns(data), IsAmountColumn)) &&
            (r.chartType == Some(Bar) ==> (MentionsAny(q, ComparisonPatterns) && HasColumn(FirstColumns(data), IsAmountColumn))
                                          || (MentionsAny(q, RankingPatterns) && |data| <= 10)) &&
            (r.chartType == Some(Pie) ==> MentionsAny(q, DistributionPatterns) && |data| <= 8)
  {
  }

  /** "vs" is matched inside any word: "devs" makes a comparison. */
  lemma VsInsideWord(before: string, after: string, queryType: string, data: seq<Row>)
    requires |data| >= 2 && HasColumn(FirstColumns(data), IsAmountColumn) && !HasColumn(FirstColumns(data), IsYearColumn)
    ensures Analyze(before + "devs" + after, queryType, Some(data)).chartType == Some(Bar)
  {
    var q := ToLower(before + "devs" + after);
    assert q == ToLower(before) + "devs" + ToLower(after);
    assert "devs" == "de" + "vs";
    assert q == (ToLower(before) + "de") + "vs" + ToLower(after);
    ContainsInfix(ToLower(before) + "de", "vs", ToLower(after));
    assert Contains(q, ComparisonPatterns[1]);
  }
}
