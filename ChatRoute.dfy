/** The chat endpoint: it forwards the latest message to an MCP server and, when that
    fails, answers from a keyword table; either way the answer goes back as one chunk
    of the `0:"…"` streaming format followed by the terminator `d`. */
module ChatRoute {
  import opened Wrappers
  import opened Text

  /** The canned answers, by topic. */
  datatype Topic = TotalBudget | Police | Revenue | Trends | Departments | GettingStarted

  predicate MentionsAny(q: string, keys: seq<string>) {
    exists k :: 0 <= k < |keys| && Contains(q, keys[k])
  }

  /** The keyword groups, in the order they are tried. */
  const TotalKeys: seq<string> := ["total budget", "overall budget"]
  const PoliceKeys: seq<string> := ["police", "law enforcement"]
  const RevenueKeys: seq<string> := ["revenue", "income"]
  const TrendKeys: seq<string> := ["trend", "over time", "year over year"]
  const DepartmentKeys: seq<string> := ["department", "program"]

  /** The topic `generateBudgetResponse` answers: the first group with a keyword in the
      lower-cased query wins; with no keyword at all it is the getting-started text. */
  function TopicOf(query: string): (t: Topic)
    ensures var q := ToLower(query);
      (t == TotalBudget <==> MentionsAny(q, TotalKeys)) &&
      (t == Police <==> !MentionsAny(q, TotalKeys) && MentionsAny(q, PoliceKeys)) &&
      (t == Revenue <==> !MentionsAny(q, TotalKeys) && !MentionsAny(q, PoliceKeys) &&
                         MentionsAny(q, RevenueKeys)) &&
      (t == Trends <==> !MentionsAny(q, TotalKeys) && !MentionsAny(q, PoliceKeys) &&
                        !MentionsAny(q, RevenueKeys) && MentionsAny(q, TrendKeys)) &&
      (t == Departments <==> !MentionsAny(q, TotalKeys) && !MentionsAny(q, PoliceKeys) &&
                             !MentionsAny(q, RevenueKeys) && !MentionsAny(q, TrendKeys) &&
                             MentionsAny(q, DepartmentKeys))
  {
    var q := ToLower(query);
    if Contains(q, "total budget") || Contains(q, "overall budget") then
      assert Contains(q, TotalKeys[0]) || Contains(q, TotalKeys[1]);
      TotalBudget
    else if Contains(q, "police") || Contains(q, "law enforcement") then
      assert Contains(q, PoliceKeys[0]) || Contains(q, PoliceKeys[1]);
      Police
    else if Contains(q, "revenue") || Contains(q, "income") then
      assert Contains(q, RevenueKeys[0]) || Contains(q, RevenueKeys[1]);
      Revenue
    else if Contains(q, "trend") || Contains(q, "over time") || Contains(q, "year over year") then
      assert Contains(q, TrendKeys[0]) || Contains(q, TrendKeys[1]) || Contains(q, TrendKeys[2]);
      Trends
    else if Contains(q, "department") || Contains(q, "program") then
      assert Contains(q, DepartmentKeys[0]) || Contains(q, DepartmentKeys[1]);
      Departments
    else
      GettingStarted
  }

  /** The opening sentence of each canned answer (the Python scripts that follow it are
      not part of this model). */
  function CannedText(t: Topic): string {
    match t
    case TotalBudget =>
      "Based on the Toronto budget data from 2019-2024, the total budget has grown significantly over the years."
    case Police => "Police services represent a significant portion of Toronto's budget."
    case Revenue =>
      "Toronto's revenue comes from various sources. Revenues are negative values in the dataset."
    case Trends =>
      "To analyze budget trends over time, you can compare the same programs across different years (2019-2024)."
    case Departments =>
      "The budget data is organized by Programs (departments), Services, and Activities."
    case GettingStarted => "I can help you analyze Toronto's budget data from 2019-2024."
  }

  /** `generateBudgetResponse(query)`. */
  function BudgetResponse(query: string): string {
    CannedText(TopicOf(query))
  }

  /** Lower-casing makes the dispatch blind to the case of ASCII letters. */
  lemma DispatchIgnoresCase(query: string)
    ensures TopicOf(ToUpper(query)) == TopicOf(query)
  {
    assert ToLower(ToUpper(query)) == ToLower(query);
  }

  /** A query that names both the police and revenue is answered about the police. */
  lemma PoliceBeforeRevenue(query: string)
    requires Contains(ToLower(query), "police") && Contains(ToLower(query), "revenue")
    requires !Contains(ToLower(query), "total budget") && !Contains(ToLower(query), "overall budget")
    ensures TopicOf(query) == Police
  {
  }

  /** A query with no keyword gets the getting-started text. */
  lemma NoKeywordGetsStarted(query: string)
    requires forall k :: 0 <= k < |TotalKeys + PoliceKeys + RevenueKeys + TrendKeys + DepartmentKeys| ==>
               !Contains(ToLower(query), (TotalKeys + PoliceKeys + RevenueKeys + TrendKeys + DepartmentKeys)[k])
    ensures BudgetResponse(query) == CannedText(GettingStarted)
  {
    var all := TotalKeys + PoliceKeys + RevenueKeys + TrendKeys + DepartmentKeys;
    var q := ToLower(query);
    assert !Contains(q, all[0]) && !Contains(q, all[1]) && !Contains(q, all[2]) && !Contains(q, all[3]);
    assert !Contains(q, all[4]) && !Contains(q, all[5]) && !Contains(q, all[6]) && !Contains(q, all[7]);
    assert !Contains(q, all[8]) && !Contains(q, all[9]) && !Contains(q, all[10]);
  }

  /** A message of the request body (its optional `id` is never read here). */
  datatype ChatMessage = ChatMessage(role: string, content: string)

  /** The JSON-RPC parameters sent to the MCP server. */
  datatype McpQuery = McpQuery(query: string, context: seq<ChatMessage>)

  /** `latestMessage` is the last message and the context is every earlier one, in order;
      with no message at all reading `latestMessage.content` throws. */
  function QueryOf(messages: seq<ChatMessage>): (r: Option<McpQuery>)
    ensures r.None? <==> |messages| == 0
    ensures r.Some? ==> r.value.query == messages[|messages| - 1].content &&
                        r.value.context + [messages[|messages| - 1]] == messages
  {
    if |messages| == 0 then None
    else
      var n := |messages| - 1;
      assert messages[..n] + [messages[n]] == messages;
      Some(McpQuery(messages[n].content, messages[..n]))
  }

  /** One of the members `response`, `message` and `content` of an MCP result, as
      JSON can hold it: `Falsy` is a member that is absent or falsy (`null`, `0`,
      `false`), `Str` a string (falsy when empty) and `NonString` a truthy value that
      is not a string (a non-zero number, `true`, an object or an array). */
  datatype Member = Falsy | Str(s: string) | NonString

  /** The `result` member of an MCP reply; `json` is `JSON.stringify(result)`. */
  datatype McpResult = McpResult(response: Member, message: Member, content: Member,
                                 json: string)

  /** What the `fetch` to the MCP server came to. */
  datatype McpOutcome =
    | Threw
    | NotOk
    | Replied(result: Option<McpResult>, hasError: bool)

  /** JavaScript truthiness of a member. */
  predicate Truthy(m: Member) {
    m.NonString? || (m.Str? && m.s != "")
  }

  /** `result.response || result.message || result.content || JSON.stringify(result)`
      as the string `.replace` is then called on; `None` when the chosen member is not
      a string, where that call throws. */
  function ResultText(r: McpResult): (s: Option<string>)
    ensures Truthy(r.response) ==>
              (s.Some? <==> r.response.Str?) && (s.Some? ==> s.value == r.response.s)
    ensures !Truthy(r.response) && Truthy(r.message) ==>
              (s.Some? <==> r.message.Str?) && (s.Some? ==> s.value == r.message.s)
    ensures !Truthy(r.response) && !Truthy(r.message) && Truthy(r.content) ==>
              (s.Some? <==> r.content.Str?) && (s.Some? ==> s.value == r.content.s)
    ensures !Truthy(r.response) && !Truthy(r.message) && !Truthy(r.content) ==>
              s == Some(r.json)
  {
    if Truthy(r.response) then Chosen(r.response)
    else if Truthy(r.message) then Chosen(r.message)
    else if Truthy(r.content) then Chosen(r.content)
    else Some(r.json)
  }

  /** The text of a chosen member, when it is a string. */
  function Chosen(m: Member): Option<string> {
    if m.Str? then Some(m.s) else None
  }

  /** The server's answer is used only when the reply was OK, carried a result and no
      error. */
  predicate Answered(outcome: McpOutcome) {
    outcome.Replied? && outcome.result.Some? && !outcome.hasError
  }

  /** The text the endpoint streams back for the latest message `latest`: the server's
      text, or the keyword table's answer when the server did not answer or the
      chosen member is not a string (`responseText.replace` then throws inside the
      stream's `start`, the `ReadableStream` constructor rethrows it and the `catch`
      answers). */
  function ResponseText(latest: string, outcome: McpOutcome): (s: string)
    ensures Answered(outcome) && ResultText(outcome.result.value).Some? ==>
              s == ResultText(outcome.result.value).value
    ensures !Answered(outcome) || ResultText(outcome.result.value).None? ==>
              s == BudgetResponse(latest)
  {
    match outcome
    case Replied(Some(result), false) =>
      (match ResultText(result)
       case Some(text) => text
       case None => BudgetResponse(latest))
    case _ => BudgetResponse(latest)
  }

  /** `text.replace(/"/g, '\\"').replace(/\n/g, '\\n')`. */
  function Escape(text: string): string {
    ReplaceAll(ReplaceAll(text, "\"", "\\\""), "\n", "\\n")
  }

  /** The escape of one character. */
  function EscapeChar(c: char): (e: string)
    ensures |e| >= 1 && (c != '"' && c != '\n' <==> e == [c])
  {
    if c == '"' then "\\\"" else if c == '\n' then "\\n" else [c]
  }

  /** Escaping, character by character. */
  function EscapeChars(text: string): string
    decreases |text|
  {
    if |text| == 0 then "" else EscapeChar(text[0]) + EscapeChars(text[1..])
  }

  lemma EscapeQuote(c: char)
    ensures ReplaceAll([c], "\"", "\\\"") == if c == '"' then "\\\"" else [c]
  {
    assert [c][1..] == "";
  }

  lemma EscapeNewline(c: char)
    ensures ReplaceAll(if c == '"' then "\\\"" else [c], "\n", "\\n") == EscapeChar(c)
  {
    if c == '"' {
      var s := "\\\"";
      assert s[1..] == "\"" && s[1..][1..] == "";
    } else {
      assert [c][1..] == "";
    }
  }

  /** The two global replacements escape each character on its own. */
  lemma {:induction false} EscapeByChar(text: string)
    ensures Escape(text) == EscapeChars(text)
    decreases |text|
  {
    if |text| > 0 {
      var c, rest := text[0], text[1..];
      assert text == [c] + rest;
      ReplaceCharAppend([c], rest, '"', "\\\"");
      EscapeQuote(c);
      var q := if c == '"' then "\\\"" else [c];
      ReplaceCharAppend(q, ReplaceAll(rest, "\"", "\\\""), '\n', "\\n");
      EscapeNewline(c);
      EscapeByChar(rest);
    }
  }

  /** An escaped text holds no raw newline. */
  lemma {:induction false} EscapedHasNoNewline(text: string)
    ensures '\n' !in Escape(text)
    decreases |text|
  {
    EscapeByChar(text);
    EscapeCharsNoNewline(text);
  }

  lemma {:induction false} EscapeCharsNoNewline(text: string)
    ensures '\n' !in EscapeChars(text)
    decreases |text|
  {
    if |text| > 0 {
      EscapeCharsNoNewline(text[1..]);
    }
  }

  /** The stream line that carries `text`: `0:"<escaped text>"` and a newline. */
  function Chunk(text: string): string {
    "0:\"" + Escape(text) + "\"\n"
  }

  /** The terminator the stream ends with. */
  const Done: string := "d\n"

  /** The whole body of the streamed response, or `None` when reading the latest message
      throws (an empty message list), which the route does not catch. */
  function Respond(messages: seq<ChatMessage>, outcome: McpOutcome): (body: Option<seq<string>>)
    ensures body.None? <==> |messages| == 0
    ensures body.Some? ==>
      body.value == [Chunk(ResponseText(messages[|messages| - 1].content, outcome)), Done]
  {
    match QueryOf(messages)
    case None => None
    case Some(q) => Some([Chunk(ResponseText(q.query, outcome)), Done])
  }

  /** The first truthy member of `response`, `message`, `content` is not a string. */
  predicate FirstTruthyNonString(r: McpResult) {
    r.response.NonString? ||
    (!Truthy(r.response) && r.message.NonString?) ||
    (!Truthy(r.response) && !Truthy(r.message) && r.content.NonString?)
  }

  /** Whatever text is sent, the chunk is a single line: its only newline is the last
      character. */
  lemma ChunkIsOneLine(text: string)
    ensures var c := Chunk(text); |c| >= 4 && c[|c| - 1] == '\n' && '\n' !in c[..|c| - 1]
  {
    EscapedHasNoNewline(text);
    var c := Chunk(text);
    assert c[..|c| - 1] == "0:\"" + Escape(text) + "\"";
  }

  /** A failing MCP server, or a reply whose chosen member is not a string, gives the
      same body as the keyword table. */
  lemma FallbackWhenUnanswered(messages: seq<ChatMessage>, outcome: McpOutcome)
    requires |messages| > 0 && (outcome.Threw? || outcome.NotOk? ||
                                (outcome.Replied? && (outcome.result.None? || outcome.hasError)) ||
                                (outcome.Replied? && outcome.result.Some? &&
                                 FirstTruthyNonString(outcome.result.value)))
    ensures Respond(messages, outcome) ==
            Some([Chunk(BudgetResponse(messages[|messages| - 1].content)), Done])
  {
    if outcome.Replied? && outcome.result.Some? && !outcome.hasError {
      assert ResultText(outcome.result.value).None?;
    }
    var latest := messages[|messages| - 1].content;
    assert ResponseText(latest, outcome) == BudgetResponse(latest);
  }
}
