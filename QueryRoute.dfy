/** The question-answering endpoint: it validates the question, asks the language model for
    a SQL statement, an answer, a query type and a confidence, gates on the confidence, runs
    the statement through the guarded store and composes the reply. The model's output, the
    engine's outcome and the clock are inputs. */
module QueryRoute {
  import opened Wrappers
  import opened Text
  import opened Numbers
  import opened QueryStore

  /** The `question` member of the request body; `Unreadable` when `req.json()` throws. */
  datatype Question = Absent | NotAString | Given(s: string) | Unreadable

  datatype QueryType = Summary | Trend | ComparisonQuery | Ranking | Specific

  /** The structured object the language model returns. */
  datatype ModelOutput = ModelOutput(sql: string, answer: string, queryType: QueryType, confidence: real)

  /** The JSON reply and its HTTP status. */
  datatype Reply =
    | BadRequest(error: string)
    | Unclear(suggestion: string, confidence: real, examples: seq<string>)
    | ExecutionFailed(sql: string, suggestion: string)
    | Answered(answer: string, data: seq<Row>, sql: string, queryType: QueryType, confidence: real,
               totalRows: nat, executionTime: int)
    | InternalError(suggestion: string)

  function Status(r: Reply): nat {
    match r
    case BadRequest(_) => 400
    case ExecutionFailed(_, _) => 500
    case InternalError(_) => 500
    case _ => 200
  }

  /** The `success` member of the reply (the 400 reply has none, which reads as false). */
  predicate Success(r: Reply) {
    r.Answered?
  }

  const Examples: seq<string> := [
    "What was Toronto's total budget in 2024?",
    "How much did Toronto spend on police?",
    "Show me fire department spending trends",
    "Top 5 programs by spending in 2023",
    "Toronto's revenue in 2024"
  ]

  const ConfidenceThreshold: real := 0.5
  const NoDataAnswer := "No data found matching your query. Try asking about a different time period or department."
  const RephraseSuggestion := "Try rephrasing your question or ask about Toronto's budget, spending, or revenue."
  const SimplerSuggestion := "Please try asking a simpler question about Toronto's budget."

  /** `!question || typeof question !== 'string'`. */
  predicate ValidQuestion(q: Question) {
    q.Given? && q.s != ""
  }

  /** The program names shown to the model: ten of the twenty fetched. */
  function PromptPrograms(programs: seq<string>): (r: seq<string>)
    ensures |r| <= 10
    ensures |r| == if |programs| < 10 then |programs| else 10
    ensures r <= programs
  {
    var fetched := if |programs| <= 20 then programs else programs[..20];
    if |fetched| <= 10 then fetched else fetched[..10]
  }

  /** The answer sent with the rows: the model's answer and the row count, or a fixed text
      when nothing was found. */
  function FinalAnswer(answer: string, count: nat): (r: string)
    ensures count == 0 ==> r == NoDataAnswer
    ensures count > 0 ==> StartsWith(r, answer + "\n\nBased on ") && EndsWith(r, " records found.")
  {
    if count > 0 then answer + "\n\nBased on " + NatToString(count) + " records found."
    else NoDataAnswer
  }

  /** The count in a non-empty answer is the one `parseInt` reads back from the text between
      the fixed words. */
  lemma FinalAnswerCount(answer: string, count: nat)
    requires count > 0
    ensures var r := FinalAnswer(answer, count);
            var from := |answer + "\n\nBased on "|;
            var to := |r| - |" records found."|;
            from <= to && ParseInt(r[from..to], false) == Some(count)
  {
    var r := FinalAnswer(answer, count);
    var from := |answer + "\n\nBased on "|;
    assert r[from..|r| - |" records found."|] == NatToString(count);
    ParseNatToString(count, false);
  }

  /** `POST(req)`: an unreadable body, and a context fetch or model call that throws (`model`
      is `None`), both end in the internal-error reply; `engine` is what the store's engine
      does with the statement; `now` is `Date.now()`. */
  function Handle(question: Question, model: Option<ModelOutput>, engine: EngineOutcome, now: int): (r: Reply)
    ensures question.Unreadable? ==> r == InternalError(SimplerSuggestion) && Status(r) == 500
    ensures !question.Unreadable? && !ValidQuestion(question) ==> r == BadRequest("Question is required") && Status(r) == 400
    ensures ValidQuestion(question) && model.None? ==> r == InternalError(SimplerSuggestion) && Status(r) == 500
    ensures ValidQuestion(question) && model.Some? && model.value.confidence < ConfidenceThreshold ==>
              r == Unclear(model.value.answer, model.value.confidence, Examples) && |r.examples| == 5
    ensures ValidQuestion(question) && model.Some? && model.value.confidence >= ConfidenceThreshold ==>
              match RunQuery(model.value.sql, engine)
              case Thrown(_) => r == ExecutionFailed(model.value.sql, RephraseSuggestion) && Status(r) == 500
              case Rows(rows) => r.Answered? && r.answer == FinalAnswer(model.value.answer, |rows|) && r.data == rows && r.totalRows == |rows| && r.sql == model.value.sql
                                 && r.queryType == model.value.queryType && r.confidence == model.value.confidence
                                 && r.executionTime == now
    ensures Success(r) <==> Status(r) == 200 && !r.Unclear?
  {
    if question.Unreadable? then InternalError(SimplerSuggestion)
    else if !ValidQuestion(question) then BadRequest("Question is required")
    else if model.None? then InternalError(SimplerSuggestion)
    else
      var out := model.value;
      if out.confidence < ConfidenceThreshold then Unclear(out.answer, out.confidence, Examples)
      else
        match RunQuery(out.sql, engine)
        case Thrown(_) => ExecutionFailed(out.sql, RephraseSuggestion)
        case Rows(rows) =>
          Answered(FinalAnswer(out.answer, |rows|), rows, out.sql, out.queryType, out.confidence, |rows|, now)
  }

  /** An invalid question is refused before the model or the store is consulted. */
  lemma InvalidQuestionStopsEarly(q: Question, m1: Option<ModelOutput>, m2: Option<ModelOutput>,
                                  e1: EngineOutcome, e2: EngineOutcome, t1: int, t2: int)
    requires q.Absent? || q.NotAString? || q == Given("")
    ensures Handle(q, m1, e1, t1) == Handle(q, m2, e2, t2) == BadRequest("Question is required")
  {
  }

  /** Under the threshold the statement is never run: the engine cannot change the reply. */
  lemma LowConfidenceNeverRuns(q: Question, out: ModelOutput, e1: EngineOutcome, e2: EngineOutcome, t1: int, t2: int)
    requires ValidQuestion(q) && out.confidence < ConfidenceThreshold
    ensures Handle(q, Some(out), e1, t1) == Handle(q, Some(out), e2, t2)
    ensures !Success(Handle(q, Some(out), e1, t1))
  {
  }

  /** A confidence of exactly one half proceeds to execution. */
  lemma HalfConfidenceRuns(q: Question, out: ModelOutput, rows: seq<Row>, now: int)
    requires ValidQuestion(q) && out.confidence == 0.5 && Prohibited(out.sql).None?
    ensures Success(Handle(q, Some(out), EngineRows(rows), now))
  {
  }

  /** A statement the guard rejects ends in the execution-failure reply, which echoes it. */
  lemma ProhibitedSqlFails(q: Question, out: ModelOutput, engine: EngineOutcome, now: int)
    requires ValidQuestion(q) && out.confidence >= ConfidenceThreshold && Prohibited(out.sql).Some?
    ensures Handle(q, Some(out), engine, now) == ExecutionFailed(out.sql, RephraseSuggestion)
  {
  }

  /** The answer names the model's words and the row count exactly when rows were found. */
  lemma AnsweredText(q: Question, out: ModelOutput, rows: seq<Row>, now: int)
    requires ValidQuestion(q) && out.confidence >= ConfidenceThreshold && Prohibited(out.sql).None?
    ensures var r := Handle(q, Some(out), EngineRows(rows), now);
            r.Answered? && (|rows| == 0 ==> r.answer == NoDataAnswer)
            && (|rows| > 0 ==> StartsWith(r.answer, out.answer) && r.answer != NoDataAnswer)
  {
    var r := Handle(q, Some(out), EngineRows(rows), now);
    if |rows| > 0 {
      var pre := out.answer + "\n\nBased on ";
      assert r.answer[..|pre|] == pre;
      assert r.answer[..|out.answer|] == out.answer;
      assert r.answer != NoDataAnswer by {
        assert EndsWith(r.answer, " records found.");
        assert !EndsWith(NoDataAnswer, " records found.") by {
          assert NoDataAnswer[|NoDataAnswer| - 1] == '.';
          assert NoDataAnswer[|NoDataAnswer| - 2] == 't';
        }
      }
    }
  }
}
