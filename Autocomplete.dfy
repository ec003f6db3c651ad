/** The question box with autocompletion. Both search inputs of the site behave alike;
    they differ only in their catalogue of suggested questions and in how many matches
    they show (four on the analysis page, five on the home page). */
module Autocomplete {
  import opened Wrappers
  import opened Text
  import opened Collections

  /** A catalogue entry matches when it contains the input, both lower-cased; the input
      is not trimmed. */
  predicate Matches(input: string, suggestion: string) {
    Contains(ToLower(suggestion), ToLower(input))
  }

  /** `filteredSuggestions`: the first `limit` matching entries, in catalogue order, once
      the trimmed input is longer than two characters. */
  function Suggestions(catalogue: seq<string>, limit: nat, input: string): (r: seq<string>)
    ensures |r| <= limit
    ensures |Trim(input)| <= 2 ==> r == []
    ensures forall s :: s in r ==> s in catalogue && Matches(input, s)
    ensures |Trim(input)| > 2 && |Filter(catalogue, s => Matches(input, s))| <= limit ==>
              forall s :: s in catalogue && Matches(input, s) ==> s in r
  {
    if |Trim(input)| > 2 then
      var r := Take(Filter(catalogue, s => Matches(input, s)), limit);
      assert forall s :: s in r ==> s in Filter(catalogue, s => Matches(input, s));
      r
    else []
  }

  /** The matches among the first `k` catalogue entries are shown first, in order, as
      long as there are no more than `limit` of them. */
  lemma EarlierMatchesFirst(catalogue: seq<string>, limit: nat, input: string, k: nat)
    requires k <= |catalogue| && |Trim(input)| > 2
    requires |Filter(catalogue[..k], s => Matches(input, s))| <= limit
    ensures Filter(catalogue[..k], s => Matches(input, s)) <= Suggestions(catalogue, limit, input)
  {
    var m := s => Matches(input, s);
    FilterPrefix(catalogue, m, k);
    var all := Filter(catalogue, m);
    var r := Take(all, limit);
    assert r == Suggestions(catalogue, limit, input);
    var early := Filter(catalogue[..k], m);
    assert early == all[..|early|];
    assert r[..|early|] == all[..|early|];
  }

  /** The questions suggested on the analysis page. */
  const AnalysisCatalogue: seq<string> := [
    "How much did Toronto spend on police in 2024?",
    "How much did Toronto spend on fire services in 2024?",
    "What are the top 5 most expensive programs in 2024?",
    "What are the top 3 revenue sources in 2024?",
    "How has the budget changed from 2019 to 2024?",
    "Compare police budget 2024 vs 2023",
    "Show me Toronto's budget surplus or deficit in 2024"
  ]

  /** The questions suggested on the home page. */
  const HomeCatalogue: seq<string> := [
    "How much did Toronto spend on police in 2024?",
    "How much did Toronto spend on fire services in 2024?",
    "How much did Toronto spend on transit in 2024?",
    "How much did Toronto spend on housing in 2024?",
    "How much did Toronto spend on parks in 2024?",
    "What are the top 5 most expensive programs in 2024?",
    "What are the top 5 most expensive programs in 2023?",
    "What are the top 3 revenue sources in 2024?",
    "What was Toronto's total revenue in 2024?",
    "What was Toronto's total revenue in 2023?",
    "What was Toronto's total expenses in 2024?",
    "How has the budget changed from 2019 to 2024?",
    "How has the budget changed from 2020 to 2024?",
    "Compare police budget 2024 vs 2023",
    "Compare fire budget 2024 vs 2023",
    "Compare transit budget 2024 vs 2023",
    "Show me Toronto's budget surplus or deficit in 2024",
    "Show me Toronto's budget surplus or deficit in 2023",
    "Which programs had the biggest increases in 2024?",
    "Which programs had the biggest decreases in 2024?"
  ]

  /** ArrowDown: the next suggestion, wrapping from the last to the first. */
  function NextIndex(index: int, count: nat): (r: int)
    requires count > 0 && -1 <= index < count
    ensures 0 <= r < count
    ensures index < count - 1 ==> r == index + 1
    ensures index == count - 1 ==> r == 0
  {
    if index < count - 1 then index + 1 else 0
  }

  /** ArrowUp: the previous suggestion, going to the last one from the first or from no
      selection. */
  function PreviousIndex(index: int, count: nat): (r: int)
    requires count > 0 && -1 <= index < count
    ensures 0 <= r < count
    ensures index > 0 ==> r == index - 1
    ensures index <= 0 ==> r == count - 1
  {
    if index > 0 then index - 1 else count - 1
  }

  /** Up undoes down, and down undoes up, on every selected suggestion. */
  lemma ArrowsInverse(index: int, count: nat)
    requires count > 0 && 0 <= index < count
    ensures PreviousIndex(NextIndex(index, count), count) == index
    ensures NextIndex(PreviousIndex(index, count), count) == index
  {
  }

  /** The selection after `presses` ArrowDown presses. */
  function Downs(index: int, count: nat, presses: nat): (r: int)
    requires count > 0 && -1 <= index < count
    ensures -1 <= r < count
    decreases presses
  {
    if presses == 0 then index else NextIndex(Downs(index, count, presses - 1), count)
  }

  /** Up to `count` presses of ArrowDown move the selection forward, wrapping once past
      the last suggestion. */
  lemma {:induction false} DownsWrap(index: int, count: nat, presses: nat)
    requires count > 0 && 0 <= index < count && presses <= count
    ensures Downs(index, count, presses) ==
            if index + presses < count then index + presses else index + presses - count
    decreases presses
  {
    if presses > 0 {
      DownsWrap(index, count, presses - 1);
    }
  }

  /** Pressing ArrowDown once per suggestion comes back to the selection. */
  lemma DownCycles(index: int, count: nat)
    requires count > 0 && 0 <= index < count
    ensures Downs(index, count, count) == index
  {
    DownsWrap(index, count, count);
  }

  /** The keys the box reacts to; every other key is `Other`. */
  datatype Key = ArrowDown | ArrowUp | Enter | Escape | Other

  class SearchBox {
    const catalogue: seq<string>
    const limit: nat
    var input: string
    var showSuggestions: bool
    var selected: int

    /** The suggestions for the current input. */
    function Shown(): seq<string>
      reads this
    {
      Suggestions(catalogue, limit, input)
    }

    /** The selection is either none (-1) or one of the current suggestions. */
    predicate Valid()
      reads this
    {
      -1 <= selected < |Shown()|
    }

    /** The box of the analysis page. */
    constructor ForAnalysis()
      ensures Valid()
      ensures catalogue == AnalysisCatalogue && limit == 4
      ensures input == "" && !showSuggestions && selected == -1
    {
      catalogue := AnalysisCatalogue;
      limit := 4;
      input := "";
      showSuggestions := false;
      selected := -1;
    }

    /** The box of the home page. */
    constructor ForHome()
      ensures Valid()
      ensures catalogue == HomeCatalogue && limit == 5
      ensures input == "" && !showSuggestions && selected == -1
    {
      catalogue := HomeCatalogue;
      limit := 5;
      input := "";
      showSuggestions := false;
      selected := -1;
    }

    /** `handleInputChange`: the list shows once the trimmed text is longer than two
        characters, and the selection is cleared. */
    method InputChange(value: string)
      modifies this
      ensures Valid()
      ensures input == value && showSuggestions == (|Trim(value)| > 2) && selected == -1
    {
      input := value;
      showSuggestions := |Trim(value)| > 2;
      selected := -1;
    }

    /** `handleSubmit`: the query is handed on, and the box is cleared and closed. */
    method Submit(query: string) returns (submitted: string)
      modifies this
      ensures Valid()
      ensures submitted == query
      ensures input == "" && !showSuggestions && selected == -1
    {
      submitted := query;
      input := "";
      showSuggestions := false;
      selected := -1;
      assert Shown() == [];
    }

    /** `handleKeyDown`. */
    method KeyDown(key: Key) returns (submitted: Option<string>)
      requires Valid()
      modifies this
      ensures Valid()
      ensures (!old(showSuggestions) || |old(Shown())| == 0) ==>
        if key == Enter && !IsBlank(old(input)) then
          submitted == Some(old(input)) && input == "" && !showSuggestions && selected == -1
        else
          submitted.None? && input == old(input) && showSuggestions == old(showSuggestions) &&
          selected == old(selected)
      ensures old(showSuggestions) && |old(Shown())| > 0 ==>
        match key
        case ArrowDown =>
          submitted.None? && input == old(input) && showSuggestions &&
          selected == NextIndex(old(selected), |old(Shown())|)
        case ArrowUp =>
          submitted.None? && input == old(input) && showSuggestions &&
          selected == PreviousIndex(old(selected), |old(Shown())|)
        case Enter =>
          (old(selected) >= 0 ==> submitted == Some(old(Shown())[old(selected)])) &&
          (old(selected) < 0 && !IsBlank(old(input)) ==> submitted == Some(old(input))) &&
          (old(selected) < 0 && IsBlank(old(input)) ==>
             submitted.None? && input == old(input) && showSuggestions && selected == -1) &&
          (submitted.Some? ==> input == "" && !showSuggestions && selected == -1)
        case Escape =>
          submitted.None? && input == old(input) && !showSuggestions && selected == -1
        case Other =>
          submitted.None? && input == old(input) && showSuggestions && selected == old(selected)
    {
      var shown := Shown();
      if !showSuggestions || |shown| == 0 {
        if key == Enter && !IsBlank(input) {
          var q := Submit(input);
          return Some(q);
        }
        return None;
      }
      submitted := None;
      match key
      case ArrowDown =>
        selected := NextIndex(selected, |shown|);
      case ArrowUp =>
        selected := PreviousIndex(selected, |shown|);
      case Enter =>
        if selected >= 0 {
          var q := Submit(shown[selected]);
          submitted := Some(q);
        } else if !IsBlank(input) {
          var q := Submit(input);
          submitted := Some(q);
        }
      case Escape =>
        showSuggestions := false;
        selected := -1;
      case Other =>
    }

    /** A click outside the box closes the list; the selection is kept. */
    method ClickOutside()
      requires Valid()
      modifies this
      ensures Valid()
      ensures input == old(input) && !showSuggestions && selected == old(selected)
    {
      showSuggestions := false;
    }

    /** The search button beside the input submits non-blank input. */
    method SearchButton() returns (submitted: Option<string>)
      requires Valid()
      modifies this
      ensures Valid()
      ensures IsBlank(old(input)) ==> submitted.None? && input == old(input) &&
                                      showSuggestions == old(showSuggestions) && selected == old(selected)
      ensures !IsBlank(old(input)) ==> submitted == Some(old(input)) && input == "" &&
                                       !showSuggestions && selected == -1
    {
      if IsBlank(input) {
        return None;
      }
      var q := Submit(input);
      submitted := Some(q);
    }
  }
}
