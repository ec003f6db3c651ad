/** The loader that turns the combined budget CSV into the SQLite table `budget_data`: the
    amount and year parsing of each record, the inserted and error counters of the insert
    loop, and the key-value `metadata` table written with INSERT OR REPLACE. */
module CsvToSqlite {
  import opened Wrappers
  import opened Text
  import opened Numbers
  import Collections

  /** A record as the CSV parser hands it over in header mode; a field is `None` when the
      row is too short to have it. */
  datatype RawRecord = RawRecord(year: Option<string>, program: Option<string>, service: Option<string>,
                                 activity: Option<string>, amount: Option<string>)

  /** A row of `budget_data` (the identifier and timestamp columns are filled by SQLite). */
  datatype StoredRow = StoredRow(year: Option<int>, program: string, service: string, activity: string,
                                 amount: real, amountRaw: string)

  /** The characters the amount cleaner removes. */
  const AmountNoise: set<char> := {'$', ',', '(', ')'}

  /** An amount written in accounting form, "(…)". */
  predicate Parenthesised(raw: string) {
    StartsWith(raw, "(") && EndsWith(raw, ")")
  }

  /** The amount text with every "$", ",", "(" and ")" removed, then trimmed. */
  function CleanAmount(raw: string): (r: string)
    ensures forall i :: 0 <= i < |r| ==> r[i] !in AmountNoise
  {
    var removed := RemoveChars(raw, AmountNoise);
    var r := Trim(removed);
    assert forall i :: 0 <= i < |r| ==> r[i] == removed[LeadingWhite(removed) + i];
    r
  }

  /** The `amount` column: 0 for a missing or blank field; otherwise the cleaned text's value
      (0 when it is not a number), made non-positive when the raw text is parenthesised. */
  function ParseAmount(amount: Option<string>): (v: real)
    ensures amount.None? || IsBlank(amount.value) ==> v == 0.0
    ensures amount.Some? && Parenthesised(amount.value) ==> v <= 0.0
    ensures amount.Some? && !Parenthesised(amount.value) && !IsBlank(amount.value) ==>
              v == OrZero(ParseFloat(CleanAmount(amount.value)))
  {
    if amount.None? || IsBlank(amount.value) then 0.0
    else
      var x := OrZero(ParseFloat(CleanAmount(amount.value)));
      if Parenthesised(amount.value) then (if x < 0.0 then x else -x) else x
  }

  /** `value || ''`: a missing field becomes the empty string. */
  function OrEmpty(o: Option<string>): (r: string)
    ensures o.Some? ==> r == o.value
    ensures o.None? ==> r == ""
  {
    if o.Some? then o.value else ""
  }

  /** `parseInt(Year) || null`: NaN and 0 both become null. */
  function ParseYear(year: Option<string>): (r: Option<int>)
    ensures r.Some? ==> r.value != 0 && year.Some? && ParseInt(year.value, true) == r
    ensures r.None? ==> year.None? || ParseInt(year.value, true) in {None, Some(0)}
  {
    if year.None? then None
    else
      match ParseInt(year.value, true)
      case None => None
      case Some(n) => if n == 0 then None else Some(n)
  }

  /** The row `insert.run` writes for one record. */
  function ToStored(r: RawRecord): StoredRow {
    StoredRow(ParseYear(r.year), OrEmpty(r.program), OrEmpty(r.service), OrEmpty(r.activity),
              ParseAmount(r.amount), OrEmpty(r.amount))
  }

  /** Every record converted to its row, in order. */
  function Converted(records: seq<RawRecord>): (rows: seq<StoredRow>)
    ensures |rows| == |records|
  {
    Collections.Map(ToStored, records)
  }

  /** The i-th row is the i-th record converted: nothing is reordered, dropped or added. */
  lemma ConvertedRows(records: seq<RawRecord>)
    ensures forall i :: 0 <= i < |records| ==> Converted(records)[i] == ToStored(records[i])
  {
    Collections.MapIndex(ToStored, records);
  }

  /** The items whose insert was not refused (`fails[i]` tells whether the engine refused the
      i-th insert), in order. */
  function Kept<T>(items: seq<T>, fails: seq<bool>): (r: seq<T>)
    requires |fails| == |items|
    ensures |r| <= |items|
    decreases |items|
  {
    if |items| == 0 then []
    else
      var n := |items| - 1;
      Kept(items[..n], fails[..n]) + (if fails[n] then [] else [items[n]])
  }

  /** How many inserts were refused. */
  function Failures(fails: seq<bool>): nat
    decreases |fails|
  {
    if |fails| == 0 then 0 else Failures(fails[..|fails| - 1]) + (if fails[|fails| - 1] then 1 else 0)
  }

  /** One more record: it is kept unless its insert failed, and counted as a failure if it did. */
  lemma KeptStep<T>(items: seq<T>, fails: seq<bool>, i: nat)
    requires |fails| == |items| && i < |items|
    ensures Kept(items[..i + 1], fails[..i + 1]) ==
            Kept(items[..i], fails[..i]) + (if fails[i] then [] else [items[i]])
    ensures Failures(fails[..i + 1]) == Failures(fails[..i]) + (if fails[i] then 1 else 0)
  {
    assert items[..i + 1][..i] == items[..i];
    assert fails[..i + 1][..i] == fails[..i];
  }

  /** The whole list is its own longest prefix. */
  lemma KeptWhole<T>(items: seq<T>, fails: seq<bool>)
    requires |fails| == |items|
    ensures Kept(items[..|items|], fails[..|fails|]) == Kept(items, fails)
    ensures Failures(fails[..|fails|]) == Failures(fails)
  {
    assert items[..|items|] == items && fails[..|fails|] == fails;
  }

  /** Every record is either stored or counted as an error, never both. */
  lemma {:induction false} KeptPlusFailures<T>(items: seq<T>, fails: seq<bool>)
    requires |fails| == |items|
    ensures |Kept(items, fails)| + Failures(fails) == |items|
    decreases |items|
  {
    if |items| > 0 {
      var n := |items| - 1;
      KeptPlusFailures(items[..n], fails[..n]);
    }
  }

  /** When nothing is refused, every item is kept, in order. */
  lemma {:induction false} KeptAll<T>(items: seq<T>, fails: seq<bool>)
    requires |fails| == |items| && forall i :: 0 <= i < |fails| ==> !fails[i]
    ensures Kept(items, fails) == items
    decreases |items|
  {
    if |items| > 0 {
      var n := |items| - 1;
      KeptAll(items[..n], fails[..n]);
      assert items[..n] + [items[n]] == items;
    }
  }

  /** Every kept item is one of the items: a refused insert stores nothing. */
  lemma {:induction false} KeptFromItems<T>(items: seq<T>, fails: seq<bool>)
    requires |fails| == |items|
    ensures forall x :: x in Kept(items, fails) ==> x in items
    decreases |items|
  {
    if |items| > 0 {
      var n := |items| - 1;
      KeptFromItems(items[..n], fails[..n]);
    }
  }

  /** A parenthesised amount whose inside cleans to a run of digits is stored as that number,
      negated: "(1,234)" and "($1,234)" both give -1234. */
  lemma ParenthesisedDigits(raw: string)
    requires |raw| >= 2 && raw[0] == '(' && raw[|raw| - 1] == ')'
    requires var d := RemoveChars(raw, AmountNoise); |d| >= 1 && AllDigits(d)
    ensures ParseAmount(Some(raw)) == -(DigitsValue(RemoveChars(raw, AmountNoise)) as real)
  {
    var d := RemoveChars(raw, AmountNoise);
    assert IsDigit(d[0]) && IsDigit(d[|d| - 1]);
    ParenthesisedShape(raw);
    CleanUntrimmed(raw);
    ParenthesisedForm(raw);
    ParseDigits(d, true);
    var x := OrZero(ParseFloat(d));
    assert x == DigitsValue(d) as real && x >= 0.0;
  }

  /** The sign inside the parentheses is ignored: "(-1234)" is stored as -1234 too. */
  lemma InnerSignIgnored(raw: string)
    requires |raw| >= 2 && raw[0] == '(' && raw[|raw| - 1] == ')'
    requires var d := RemoveChars(raw, AmountNoise); |d| >= 2 && d[0] == '-' && AllDigits(d[1..])
    ensures ParseAmount(Some(raw)) == -(DigitsValue(RemoveChars(raw, AmountNoise)[1..]) as real)
  {
    var d := RemoveChars(raw, AmountNoise);
    ParenthesisedShape(raw);
    CleanUntrimmed(raw);
    ParenthesisedForm(raw);
    ParseNegativeDigits(d);
  }

  /** Any amount that starts with "(" and ends with ")" is stored as minus the magnitude of
      what its cleaned text reads as (0 when that is not a number). */
  lemma ParenthesisedForm(raw: string)
    requires Parenthesised(raw)
    ensures var x := OrZero(ParseFloat(CleanAmount(raw)));
            ParseAmount(Some(raw)) <= 0.0 && (ParseAmount(Some(raw)) == x || ParseAmount(Some(raw)) == -x)
  {
    assert raw[0] == raw[..1][0] && raw[|raw| - 1] == raw[|raw| - 1..][0];
    ParenthesisedShape(raw);
  }

  /** Cleaning text whose noise-free part has no white space at its ends only removes the
      noise. */
  lemma CleanUntrimmed(raw: string)
    requires var d := RemoveChars(raw, AmountNoise); |d| >= 1 && !IsWhite(d[0]) && !IsWhite(d[|d| - 1])
    ensures CleanAmount(raw) == RemoveChars(raw, AmountNoise)
  {
    TrimNoWhite(RemoveChars(raw, AmountNoise));
  }

  /** Text between parentheses is not blank and counts as parenthesised. */
  lemma ParenthesisedShape(raw: string)
    requires |raw| >= 2 && raw[0] == '(' && raw[|raw| - 1] == ')'
    ensures !IsBlank(raw) && Parenthesised(raw)
  {
    assert !IsWhite(raw[0]) && !IsWhite(raw[|raw| - 1]);
    TrimNoWhite(raw);
    assert raw[..1] == "(";
    assert raw[|raw| - 1..] == ")";
  }

  /** A minus sign without parentheses is kept: "-1234" is stored as -1234. */
  lemma LeadingMinusKept(raw: string)
    requires |raw| >= 2 && raw[0] == '-' && AllDigits(raw[1..])
    ensures ParseAmount(Some(raw)) == -(DigitsValue(raw[1..]) as real)
  {
    assert !Parenthesised(raw);
    assert forall i :: 0 <= i < |raw| ==> raw[i] !in AmountNoise;
    RemoveCharsNone(raw, AmountNoise);
    assert !IsWhite(raw[0]) && !IsWhite(raw[|raw| - 1]);
    TrimNoWhite(raw);
    ParseNegativeDigits(raw);
  }

  /** Text with no digit at all is stored as 0, and the raw text is kept beside it. */
  lemma NonNumericIsZero(r: RawRecord)
    requires r.amount.Some? && forall i :: 0 <= i < |r.amount.value| ==> !IsDigit(r.amount.value[i])
    ensures ToStored(r).amount == 0.0 && ToStored(r).amountRaw == r.amount.value
  {
    var raw := r.amount.value;
    if !IsBlank(raw) {
      NoDigitsCleaned(raw);
      assert ParseFloat(CleanAmount(raw)).None?;
    }
  }

  /** Cleaning text without digits leaves text without digits. */
  lemma NoDigitsCleaned(raw: string)
    requires forall i :: 0 <= i < |raw| ==> !IsDigit(raw[i])
    ensures forall i :: 0 <= i < |CleanAmount(raw)| ==> !IsDigit(CleanAmount(raw)[i])
  {
    var c := CleanAmount(raw);
    var removed := RemoveChars(raw, AmountNoise);
    NoDigitsRemoved(raw);
    assert forall i :: 0 <= i < |c| ==> c[i] == removed[LeadingWhite(removed) + i];
  }

  /** Removing characters brings in no digit. */
  lemma {:induction false} NoDigitsRemoved(s: string)
    requires forall i :: 0 <= i < |s| ==> !IsDigit(s[i])
    ensures forall i :: 0 <= i < |RemoveChars(s, AmountNoise)| ==> !IsDigit(RemoveChars(s, AmountNoise)[i])
    decreases |s|
  {
    if |s| > 0 {
      NoDigitsRemoved(s[1..]);
    }
  }

  /** A year printed as a positive whole number is read back; an unparsable year is null. */
  lemma YearRoundTrip(n: nat)
    requires n > 0
    ensures ParseYear(Some(NatToString(n))) == Some(n)
  {
    ParseNatToString(n, true);
  }

  const DataSource := "toronto_budget_combined_2024_to_2019.csv"
  const YearsCovered := "2019-2024"

  /** `INSERT OR REPLACE INTO metadata (key, value)`: the key is the primary key. */
  function Upsert(m: map<string, string>, key: string, value: string): (r: map<string, string>)
    ensures r.Keys == m.Keys + {key} && r[key] == value
    ensures forall k :: k in m && k != key ==> r[k] == m[k]
  {
    m[key := value]
  }

  /** The four metadata rows the loader writes, in order, over the existing table. */
  function Metadata(m: map<string, string>, inserted: nat, now: string): map<string, string> {
    var m1 := Upsert(m, "total_records", NatToString(inserted));
    var m2 := Upsert(m1, "data_source", DataSource);
    var m3 := Upsert(m2, "years_covered", YearsCovered);
    Upsert(m3, "last_updated", now)
  }

  /** The metadata holds the inserted count (as text that reads back as the count), the source
      file, the year span and the time, and leaves every other key alone. */
  lemma MetadataContents(m: map<string, string>, inserted: nat, now: string)
    ensures var r := Metadata(m, inserted, now);
            r.Keys == m.Keys + {"total_records", "data_source", "years_covered", "last_updated"}
            && ParseInt(r["total_records"], true) == Some(inserted)
            && r["data_source"] == DataSource && r["years_covered"] == YearsCovered && r["last_updated"] == now
            && forall k :: k in m && k !in {"total_records", "data_source", "years_covered", "last_updated"} ==> r[k] == m[k]
  {
    ParseNatToString(inserted, true);
  }

  /** Writing the metadata again replaces the earlier values rather than adding rows. */
  lemma MetadataRewrite(m: map<string, string>, c1: nat, t1: string, c2: nat, t2: string)
    ensures Metadata(Metadata(m, c1, t1), c2, t2) == Metadata(m, c2, t2)
  {
    RewriteFour(m, "total_records", "data_source", "years_covered", "last_updated",
                NatToString(c1), t1, NatToString(c2), t2);
  }

  /** Upserting the same four keys twice keeps only the second values. */
  lemma RewriteFour(m: map<string, string>, k1: string, k2: string, k3: string, k4: string,
                    v1: string, v4: string, w1: string, w4: string)
    ensures m[k1 := v1][k2 := DataSource][k3 := YearsCovered][k4 := v4]
             [k1 := w1][k2 := DataSource][k3 := YearsCovered][k4 := w4] ==
            m[k1 := w1][k2 := DataSource][k3 := YearsCovered][k4 := w4]
  {
  }

  /** The database the loader fills. */
  class Loader {
    var table: seq<StoredRow>
    var metadata: map<string, string>
    var insertedCount: nat
    var errorCount: nat

    /** `new Database(DB_PATH)` over whatever the file already holds (`CREATE TABLE IF NOT
        EXISTS` keeps existing rows), with both counters at 0. */
    constructor (existingTable: seq<StoredRow>, existingMetadata: map<string, string>)
      ensures table == existingTable && metadata == existingMetadata
      ensures insertedCount == 0 && errorCount == 0
    {
      table := existingTable;
      metadata := existingMetadata;
      insertedCount := 0;
      errorCount := 0;
    }

    /** `insertMany(records)`: every record is parsed and inserted; a refused insert is
        counted and the loop goes on. Parsing is pure, so the records are converted first
        and the loop runs over the converted rows. */
    method InsertMany(records: seq<RawRecord>, fails: seq<bool>)
      requires |fails| == |records|
      modifies this
      ensures table == old(table) + Kept(Converted(records), fails)
      ensures insertedCount == old(insertedCount) + |Kept(Converted(records), fails)|
      ensures errorCount == old(errorCount) + Failures(fails)
      ensures metadata == old(metadata)
    {
      InsertRows(Converted(records), fails);
    }

    /** The loop of `insertMany` over converted rows. */
    method InsertRows(rows: seq<StoredRow>, fails: seq<bool>)
      requires |fails| == |rows|
      modifies this
      ensures table == old(table) + Kept(rows, fails)
      ensures insertedCount == old(insertedCount) + |Kept(rows, fails)|
      ensures errorCount == old(errorCount) + Failures(fails)
      ensures metadata == old(metadata)
    {
      ghost var kept: seq<StoredRow> := [];
      ghost var failures: nat := 0;
      var i := 0;
      while i < |rows|
        invariant 0 <= i <= |rows|
        invariant kept == Kept(rows[..i], fails[..i]) && failures == Failures(fails[..i])
        invariant table == old(table) + kept
        invariant insertedCount == old(insertedCount) + |kept|
        invariant errorCount == old(errorCount) + failures
        invariant metadata == old(metadata)
      {
        KeptStep(rows, fails, i);
        InsertOne(rows[i], fails[i]);
        kept := kept + (if fails[i] then [] else [rows[i]]);
        failures := failures + (if fails[i] then 1 else 0);
        i := i + 1;
      }
      KeptWhole(rows, fails);
    }

    /** The body of the loop: `insert.run` stores the row and counts it, or the insert is
        refused and counted as an error. */
    method InsertOne(row: StoredRow, fail: bool)
      modifies this
      ensures table == old(table) + (if fail then [] else [row])
      ensures insertedCount == old(insertedCount) + (if fail then 0 else 1)
      ensures errorCount == old(errorCount) + (if fail then 1 else 0)
      ensures metadata == old(metadata)
    {
      if fail {
        errorCount := errorCount + 1;
      } else {
        table := table + [row];
        insertedCount := insertedCount + 1;
      }
    }

    /** The four `insertMeta.run` calls. */
    method WriteMetadata(now: string)
      modifies this
      ensures metadata == Metadata(old(metadata), insertedCount, now)
      ensures table == old(table) && insertedCount == old(insertedCount) && errorCount == old(errorCount)
    {
      metadata := Upsert(metadata, "total_records", NatToString(insertedCount));
      metadata := Upsert(metadata, "data_source", DataSource);
      metadata := Upsert(metadata, "years_covered", YearsCovered);
      metadata := Upsert(metadata, "last_updated", now);
    }
  }

  /** The whole conversion over the database as it was: the kept rows are appended to the
      existing table, and the recorded total is the number of rows this run inserted, which is
      the table's size only when the table started empty. */
  method Convert(existingTable: seq<StoredRow>, existingMetadata: map<string, string>,
                 records: seq<RawRecord>, fails: seq<bool>, now: string) returns (loader: Loader)
    requires |fails| == |records|
    ensures loader.table == existingTable + Kept(Converted(records), fails)
    ensures "total_records" in loader.metadata
    ensures ParseInt(loader.metadata["total_records"], true) == Some(|loader.table| - |existingTable|)
    ensures existingTable == [] ==> ParseInt(loader.metadata["total_records"], true) == Some(|loader.table|)
    ensures existingTable != [] ==> ParseInt(loader.metadata["total_records"], true) != Some(|loader.table|)
    ensures loader.errorCount == |records| - (|loader.table| - |existingTable|)
  {
    loader := new Loader(existingTable, existingMetadata);
    loader.InsertMany(records, fails);
    loader.WriteMetadata(now);
    MetadataContents(existingMetadata, loader.insertedCount, now);
    KeptPlusFailures(Converted(records), fails);
  }
}
