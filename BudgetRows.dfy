/** A row of the budget CSV as the browser components receive it: every column is text. */
module BudgetRows {
  import opened Wrappers
  import opened Text
  import opened Numbers
  import opened Collections

  datatype BudgetRow = BudgetRow(program: string, service: string, activity: string, kind: string,
                                 category: string, subCategory: string, commitment: string,
                                 amount: string, year: string)

  /** `Object.values(row)`, in column order. */
  function Values(row: BudgetRow): (vs: seq<string>)
    ensures |vs| == 9
  {
    [row.program, row.service, row.activity, row.kind, row.category, row.subCategory, row.commitment,
     row.amount, row.year]
  }

  /** `parseFloat(row.Amount?.replace(/,/g, '') || '0')`: commas dropped, an empty amount
      read as 0; `None` is NaN. */
  function CommaFreeAmount(amount: string): (r: Option<real>)
    ensures RemoveChars(amount, {','}) == "" ==> r == Some(0.0)
    ensures RemoveChars(amount, {','}) != "" ==> r == ParseFloat(RemoveChars(amount, {','}))
  {
    var c := RemoveChars(amount, {','});
    if c == "" then
      assert "0" == NatToString(0);
      ParseNatToString(0, false);
      ParseFloat("0")
    else ParseFloat(c)
  }

  function YearsOf(data: seq<BudgetRow>): (ys: seq<string>)
    ensures |ys| == |data| && forall i :: 0 <= i < |data| ==> ys[i] == data[i].year
  {
    seq(|data|, i requires 0 <= i < |data| => data[i].year)
  }

  /** `[...new Set(data.map(d => d.Year))].sort().reverse()`: the year selector's entries. */
  function Years(data: seq<BudgetRow>): seq<string> {
    Reverse(SortStrings(Distinct(YearsOf(data))))
  }

  /** The year list holds each year of the data, and only those. */
  lemma YearsListed(data: seq<BudgetRow>)
    ensures forall y :: y in Years(data) <==> exists i :: 0 <= i < |data| && data[i].year == y
  {
    var d := Distinct(YearsOf(data));
    SortedMembers(d);
    ReverseMembers(SortStrings(d));
    forall y | y in YearsOf(data)
      ensures exists i :: 0 <= i < |data| && data[i].year == y
    {
      var i :| 0 <= i < |YearsOf(data)| && YearsOf(data)[i] == y;
    }
  }

  /** Each year is listed once, latest (greatest) first. */
  lemma YearsDescending(data: seq<BudgetRow>)
    ensures NoDuplicates(Years(data))
    ensures forall i, j :: 0 <= i < j < |Years(data)| ==> StrLe(Years(data)[j], Years(data)[i])
  {
    var d := Distinct(YearsOf(data));
    SortedDistinct(d);
    ReverseSorted(SortStrings(d));
  }
}
