/** The script that stacks the six yearly budget CSV files (2024 first, 2019 last) into
    one combined file, counting rows per year, and previews the result. A file is its
    list of parsed CSV records, the first being the header; `None` is a file that does
    not exist. */
module CsvAppend {
  import opened Wrappers

  type Row = seq<string>

  /** A file as the CSV reader yields it, or `None` when it is missing. */
  type CsvFile = Option<seq<Row>>

  /** What the loops have built so far: the output rows, `total_rows`, `year_counts` and
      `header_written`. */
  datatype Progress = Progress(written: seq<Row>, totalRows: nat, yearCounts: map<string, nat>,
                               headerWritten: bool)

  const Start: Progress := Progress([], 0, map[], false)

  /** `year_counts[year] = year_counts.get(year, 0) + 1`. */
  function Bump(counts: map<string, nat>, year: string): (r: map<string, nat>)
    ensures r.Keys == counts.Keys + {year}
    ensures r[year] == (if year in counts then counts[year] else 0) + 1
    ensures forall y :: y in counts && y != year ==> r[y] == counts[y]
  {
    counts[year := (if year in counts then counts[year] else 0) + 1]
  }

  /** One data row: it is written and counted; when it has at least as many fields as
      the header its last field is tallied as a year (`row[-1]` fails on an empty row,
      which only an empty header lets through). */
  function AddRow(p: Progress, header: Row, row: Row): Option<Progress> {
    var q := p.(written := p.written + [row], totalRows := p.totalRows + 1);
    if |row| >= |header| then
      if |row| == 0 then None
      else Some(q.(yearCounts := Bump(p.yearCounts, row[|row| - 1])))
    else Some(q)
  }

  /** The data rows of one file, in order. */
  function AddRows(p: Progress, header: Row, rows: seq<Row>): Option<Progress>
    decreases |rows|
  {
    if |rows| == 0 then Some(p)
    else
      match AddRows(p, header, rows[..|rows| - 1])
      case None => None
      case Some(q) => AddRow(q, header, rows[|rows| - 1])
  }

  /** One file of the list: a missing file is skipped; an empty one stops the script
      (`next(reader)` raises); otherwise its header is written if none has been, and its
      data rows follow. */
  function AddFile(p: Progress, file: CsvFile): Option<Progress> {
    match file
    case None => Some(p)
    case Some(rows) =>
      if |rows| == 0 then None
      else
        var withHeader := if p.headerWritten then p
                          else p.(written := p.written + [rows[0]], headerWritten := true);
        AddRows(withHeader, rows[0], rows[1..])
  }

  /** The files of the list, processed in order from `start`. */
  function Fold(start: Option<Progress>, files: seq<CsvFile>): Option<Progress>
    decreases |files|
  {
    if |files| == 0 then start
    else
      match Fold(start, files[..|files| - 1])
      case None => None
      case Some(p) => AddFile(p, files[|files| - 1])
  }

  /** The outcome of `append_toronto_budget_files_csv`; `None` when it raises. */
  function Combine(files: seq<CsvFile>): Option<Progress> {
    Fold(Some(Start), files)
  }

  // What the combined file holds, stated without the loops.

  /** The data rows of the existing files, in list order. */
  function DataRows(files: seq<CsvFile>): seq<Row>
    decreases |files|
  {
    if |files| == 0 then []
    else
      var n := |files| - 1;
      DataRows(files[..n]) + (match files[n] case Some(rows) => if |rows| == 0 then [] else rows[1..]
                                              case None => [])
  }

  /** Whether any file of the list exists. */
  predicate AnyPresent(files: seq<CsvFile>)
    decreases |files|
  {
    |files| > 0 && (AnyPresent(files[..|files| - 1]) || files[|files| - 1].Some?)
  }

  /** `AnyPresent` says that some file of the list exists. */
  lemma {:induction false} AnyPresentIff(files: seq<CsvFile>)
    ensures AnyPresent(files) <==> exists i :: 0 <= i < |files| && files[i].Some?
    decreases |files|
  {
    if |files| > 0 {
      var n := |files| - 1;
      AnyPresentIff(files[..n]);
      if exists i :: 0 <= i < n && files[..n][i].Some? {
        var i :| 0 <= i < n && files[..n][i].Some?;
        assert files[i].Some?;
      }
      if i :| 0 <= i < n && files[i].Some? {
        assert files[..n][i].Some?;
      }
    }
  }

  /** The header of the first existing file. */
  function FirstHeader(files: seq<CsvFile>): Row
    decreases |files|
  {
    if |files| == 0 then []
    else
      var n := |files| - 1;
      if AnyPresent(files[..n]) then FirstHeader(files[..n])
      else match files[n]
        case Some(rows) => if |rows| > 0 then rows[0] else []
        case None => []
  }

  /** The years tallied from one file: the last field of each row at least as wide as
      the header. */
  function FileYears(header: Row, rows: seq<Row>): seq<string>
    decreases |rows|
  {
    if |rows| == 0 then []
    else
      var row := rows[|rows| - 1];
      FileYears(header, rows[..|rows| - 1]) +
      (if |row| >= |header| && |row| > 0 then [row[|row| - 1]] else [])
  }

  /** The years tallied from the whole list. */
  function Years(files: seq<CsvFile>): seq<string>
    decreases |files|
  {
    if |files| == 0 then []
    else
      var n := |files| - 1;
      Years(files[..n]) + (match files[n] case Some(rows) => if |rows| == 0 then []
                                                           else FileYears(rows[0], rows[1..])
                                          case None => [])
  }

  /** The number of times `y` occurs in `ys`. */
  function Occurrences(ys: seq<string>, y: string): nat
    decreases |ys|
  {
    if |ys| == 0 then 0
    else Occurrences(ys[..|ys| - 1], y) + (if ys[|ys| - 1] == y then 1 else 0)
  }

  /** A tally of the years seen. */
  ghost predicate Tallies(counts: map<string, nat>, ys: seq<string>) {
    (forall y :: y in counts <==> y in ys) &&
    forall y :: y in counts ==> counts[y] == Occurrences(ys, y)
  }

  lemma BumpTallies(counts: map<string, nat>, ys: seq<string>, y: string)
    requires Tallies(counts, ys)
    ensures Tallies(Bump(counts, y), ys + [y])
  {
    var zs := ys + [y];
    assert zs[..|zs| - 1] == ys;
    forall x
      ensures x in zs <==> x in ys || x == y
    {
      if x in zs && x != y {
        var i :| 0 <= i < |zs| && zs[i] == x;
        assert i < |ys|;
      }
    }
    forall x | x !in ys
      ensures Occurrences(ys, x) == 0
    {
      NotOccurring(ys, x);
    }
  }

  lemma {:induction false} NotOccurring(ys: seq<string>, y: string)
    requires y !in ys
    ensures Occurrences(ys, y) == 0
    decreases |ys|
  {
    if |ys| > 0 {
      assert forall i :: 0 <= i < |ys| - 1 ==> ys[..|ys| - 1][i] == ys[i];
      NotOccurring(ys[..|ys| - 1], y);
    }
  }

  /** The state of the loops against what the combined file holds: the rows written so
      far are the first header and the data rows, `total_rows` counts the data rows, and
      `year_counts` tallies the years. */
  ghost predicate Describes(p: Progress, header: Row, data: seq<Row>, years: seq<string>) {
    p.written == (if p.headerWritten then [header] else []) + data &&
    p.totalRows == |data| && Tallies(p.yearCounts, years) && |years| <= |data|
  }

  lemma AddRowDescribes(p: Progress, header: Row, first: Row, data: seq<Row>,
                        years: seq<string>, row: Row)
    requires p.headerWritten && Describes(p, first, data, years)
    requires AddRow(p, header, row).Some?
    ensures var q := AddRow(p, header, row).value;
      q.headerWritten && Describes(q, first, data + [row], years + FileYears(header, [row]))
  {
    var q := AddRow(p, header, row).value;
    var one := [row];
    assert one[..0] == [];
    if |row| >= |header| && |row| > 0 {
      BumpTallies(p.yearCounts, years, row[|row| - 1]);
      assert FileYears(header, one) == [row[|row| - 1]];
    } else {
      assert FileYears(header, one) == [];
      assert years + FileYears(header, one) == years;
    }
  }

  lemma {:induction false} AddRowsDescribes(p: Progress, header: Row, first: Row, data: seq<Row>,
                                            years: seq<string>, rows: seq<Row>)
    requires p.headerWritten && Describes(p, first, data, years)
    requires AddRows(p, header, rows).Some?
    ensures var q := AddRows(p, header, rows).value;
      q.headerWritten && Describes(q, first, data + rows, years + FileYears(header, rows))
    decreases |rows|
  {
    if |rows| == 0 {
      assert data + rows == data && years + FileYears(header, rows) == years;
    } else {
      var n := |rows| - 1;
      var row := rows[n];
      AddRowsDescribes(p, header, first, data, years, rows[..n]);
      var q := AddRows(p, header, rows[..n]).value;
      var ys := years + FileYears(header, rows[..n]);
      AddRowDescribes(q, header, first, data + rows[..n], ys, row);
      LastRow(p, header, data, years, rows);
      DescribesSame(AddRow(q, header, row).value, first, (data + rows[..n]) + [row], data + rows,
                    ys + FileYears(header, [row]), years + FileYears(header, rows));
    }
  }

  /** Taking the last data row off: how the rows, the years and the fold split. */
  lemma LastRow(p: Progress, header: Row, data: seq<Row>, years: seq<string>, rows: seq<Row>)
    requires |rows| > 0 && AddRows(p, header, rows[..|rows| - 1]).Some?
    ensures var n := |rows| - 1;
      && AddRows(p, header, rows) == AddRow(AddRows(p, header, rows[..n]).value, header, rows[n])
      && data + rows == (data + rows[..n]) + [rows[n]]
      && years + FileYears(header, rows) == (years + FileYears(header, rows[..n])) + FileYears(header, [rows[n]])
  {
    FileYearsLast(header, rows);
  }

  /** The years of a file's rows are those of all but the last, then the last's. */
  lemma FileYearsLast(header: Row, rows: seq<Row>)
    requires |rows| > 0
    ensures FileYears(header, rows) == FileYears(header, rows[..|rows| - 1]) + FileYears(header, [rows[|rows| - 1]])
  {
    var one := [rows[|rows| - 1]];
    assert one[..0] == [];
  }

  /** `Describes` depends only on the values of its arguments. */
  lemma DescribesSame(p: Progress, header: Row, d1: seq<Row>, d2: seq<Row>, y1: seq<string>, y2: seq<string>)
    requires d1 == d2 && y1 == y2 && Describes(p, header, d1, y1)
    ensures Describes(p, header, d2, y2)
  {
  }

  /** Once the script has failed it stays failed. */
  lemma {:induction false} FoldNone(files: seq<CsvFile>)
    ensures Fold(None, files) == None
    decreases |files|
  {
    if |files| > 0 {
      FoldNone(files[..|files| - 1]);
    }
  }

  /** Processing a list in two parts is processing it whole. */
  lemma {:induction false} FoldAppend(start: Option<Progress>, a: seq<CsvFile>, b: seq<CsvFile>)
    ensures Fold(start, a + b) == Fold(Fold(start, a), b)
    decreases |b|
  {
    if |b| == 0 {
      assert a + b == a;
    } else {
      var n := |b| - 1;
      assert (a + b)[..|a + b| - 1] == a + b[..n];
      FoldAppend(start, a, b[..n]);
    }
  }

  /** A missing file, wherever it sits in the list, changes nothing. */
  lemma MissingSkipped(a: seq<CsvFile>, b: seq<CsvFile>)
    ensures Combine(a + [None] + b) == Combine(a + b)
  {
    FoldAppend(Some(Start), a + [None], b);
    FoldAppend(Some(Start), a, [None]);
    var missing: seq<CsvFile> := [None];
    assert missing[..0] == [];
    FoldAppend(Some(Start), a, b);
  }

  /** With no file present there are no data rows and no years. */
  lemma {:induction false} NothingPresent(files: seq<CsvFile>)
    requires !AnyPresent(files)
    ensures DataRows(files) == [] && Years(files) == []
    decreases |files|
  {
    if |files| > 0 {
      NothingPresent(files[..|files| - 1]);
    }
  }

  /** When the script succeeds: the header of the first existing file is written once
      (and only if some file exists), then the data rows of every existing file in list
      order; `total_rows` is their number; `year_counts` tallies the tallied years, of
      which there are at most `total_rows`. */
  lemma {:induction false} CombineContents(files: seq<CsvFile>)
    requires Combine(files).Some?
    ensures var p := Combine(files).value;
      p.headerWritten == AnyPresent(files) &&
      Describes(p, FirstHeader(files), DataRows(files), Years(files))
    decreases |files|
  {
    if |files| > 0 {
      var n := |files| - 1;
      var before := files[..n];
      CombineContents(before);
      var p := Combine(before).value;
      assert Combine(files) == AddFile(p, files[n]);
      if !p.headerWritten {
        NothingPresent(before);
      }
      match files[n]
      case None =>
        assert DataRows(files) == DataRows(before) + [];
        assert Years(files) == Years(before) + [];
        assert Years(files) == Years(before);
        assert Combine(files) == Some(p);
      case Some(rows) =>
        var header := rows[0];
        var first := if p.headerWritten then FirstHeader(before) else header;
        var withHeader := if p.headerWritten then p
                          else p.(written := p.written + [header], headerWritten := true);
        assert Describes(withHeader, first, DataRows(before), Years(before));
        AddRowsDescribes(withHeader, header, first, DataRows(before), Years(before), rows[1..]);
    }
  }

  /** A row that stops the script stops it whatever rows follow. */
  lemma {:induction false} AddRowsPrefixNone(p: Progress, header: Row, rows: seq<Row>, j: nat)
    requires j <= |rows| && AddRows(p, header, rows[..j]).None?
    ensures AddRows(p, header, rows).None?
    decreases |rows| - j
  {
    if j < |rows| {
      assert rows[..j + 1][..j] == rows[..j];
      AddRowsPrefixNone(p, header, rows, j + 1);
    } else {
      assert rows[..j] == rows;
    }
  }

  /** A file that stops the script stops it whatever files follow. */
  lemma CombinePrefixNone(files: seq<CsvFile>, k: nat)
    requires k <= |files| && Combine(files[..k]).None?
    ensures Combine(files).None?
  {
    FoldAppend(Some(Start), files[..k], files[k..]);
    assert files[..k] + files[k..] == files;
    FoldNone(files[k..]);
  }

  /** `append_toronto_budget_files_csv`: the loop over the files and, inside it, over
      the data rows of each, returning `None` where the script raises. */
  method AppendFiles(files: seq<CsvFile>) returns (r: Option<Progress>)
    ensures r == Combine(files)
  {
    var written: seq<Row> := [];
    var totalRows: nat := 0;
    var yearCounts: map<string, nat> := map[];
    var headerWritten := false;
    var k := 0;
    while k < |files|
      invariant k <= |files|
      invariant Combine(files[..k]) == Some(Progress(written, totalRows, yearCounts, headerWritten))
    {
      assert files[..k + 1][..k] == files[..k];
      if files[k].Some? {
        var rows := files[k].value;
        if |rows| == 0 {
          CombinePrefixNone(files, k + 1);
          return None;
        }
        var header := rows[0];
        if !headerWritten {
          written := written + [header];
          headerWritten := true;
        }
        var start := Progress(written, totalRows, yearCounts, headerWritten);
        var next := AppendRows(start, header, rows[1..]);
        if next.None? {
          CombinePrefixNone(files, k + 1);
          return None;
        }
        written, totalRows, yearCounts := next.value.written, next.value.totalRows, next.value.yearCounts;
      }
      k := k + 1;
    }
    assert files[..k] == files;
    return Some(Progress(written, totalRows, yearCounts, headerWritten));
  }

  /** The inner loop of `append_toronto_budget_files_csv`: the data rows of one file,
      written and counted one by one, with `None` where `row[-1]` raises. */
  method AppendRows(start: Progress, header: Row, data: seq<Row>) returns (r: Option<Progress>)
    ensures r == AddRows(start, header, data)
    ensures r.Some? ==> r.value.headerWritten == start.headerWritten
  {
    var written, totalRows, yearCounts := start.written, start.totalRows, start.yearCounts;
    var j := 0;
    while j < |data|
      invariant j <= |data|
      invariant AddRows(start, header, data[..j]) ==
                Some(Progress(written, totalRows, yearCounts, start.headerWritten))
    {
      assert data[..j + 1][..j] == data[..j];
      var row := data[j];
      written := written + [row];
      totalRows := totalRows + 1;
      if |row| >= |header| {
        if |row| == 0 {
          AddRowsPrefixNone(start, header, data, j + 1);
          return None;
        }
        var year := row[|row| - 1];
        yearCounts := yearCounts[year := (if year in yearCounts then yearCounts[year] else 0) + 1];
      }
      j := j + 1;
    }
    assert data[..j] == data;
    return Some(Progress(written, totalRows, yearCounts, start.headerWritten));
  }

  /** What `preview_combined_file` prints: nothing when the file is missing, the header
      and the first data rows otherwise; it raises on an empty file. */
  datatype Preview = NotFound | EmptyFile | Shown(header: Row, rows: seq<Row>)

  /** The `num_rows` default. */
  const DefaultPreviewRows: int := 10

  /** `preview_combined_file`: `enumerate` stops at the first index not below `numRows`,
      so a count of zero or less shows no row. */
  method PreviewRows(file: CsvFile, numRows: int) returns (r: Preview)
    ensures file.None? <==> r.NotFound?
    ensures file.Some? && |file.value| == 0 <==> r.EmptyFile?
    ensures r.Shown? ==>
      r.header == file.value[0] &&
      |r.rows| == (if numRows <= 0 then 0 else if numRows < |file.value| - 1 then numRows
                   else |file.value| - 1) &&
      r.rows == file.value[1..][..|r.rows|]
  {
    if file.None? {
      return NotFound;
    }
    var lines := file.value;
    if |lines| == 0 {
      return EmptyFile;
    }
    var data := lines[1..];
    var shown: seq<Row> := [];
    var i := 0;
    while i < |data|
      invariant i <= |data| && (numRows <= 0 ==> i == 0) && (numRows > 0 ==> i <= numRows)
      invariant shown == data[..i]
    {
      if i >= numRows {
        break;
      }
      shown := shown + [data[i]];
      i := i + 1;
    }
    return Shown(lines[0], shown);
  }

  /** The file the main block previews: when some file exists, the first header
      followed by the data rows of the files in list order (so the preview shows that
      header and the leading data rows); when none exists it is empty and the preview
      raises. */
  lemma PreviewCombined(files: seq<CsvFile>)
    requires Combine(files).Some?
    ensures var out := Combine(files).value.written;
      (AnyPresent(files) ==> |out| > 0 && out[0] == FirstHeader(files) && out[1..] == DataRows(files)) &&
      (!AnyPresent(files) ==> out == [])
  {
    CombineContents(files);
    if !AnyPresent(files) {
      NothingPresent(files);
    }
  }
}
