/** The analysis endpoint: it pipes the question into the command-line analyzer and
    scrapes the analyzer's printed answer out of its standard output. */
module AnalyzeRoute {
  import opened Wrappers
  import opened Text
  import opened Collections

  /** The robot face that marks the analyzer's answers. */
  const Bot: char := '\U{1F916}'

  /** The line with everything up to the robot face (and the white space after it)
      removed, then trimmed. The pattern's leading `.*` stops at a line terminator, so the
      cut is at the last robot face before any line terminator; with none there, the
      line is only trimmed. */
  function CleanBotLine(line: string): (r: string)
    ensures r == Trim(r)
  {
    var r := match BotCut(line)
      case Some(j) => Trim(line[j + 1..])
      case None => Trim(line);
    TrimNoWhite(r);
    r
  }

  /** Where the pattern cuts the line: at the last robot face before any line
      terminator. */
  function BotCut(line: string): (r: Option<nat>)
    ensures r.Some? ==> r.value < |line|
  {
    LastIndexOf(line, LineRun(line), Bot)
  }

  /** On a line without a carriage return, the cut is at the last robot face. */
  lemma CutAtLastBot(line: string, j: nat)
    requires j < |line| && line[j] == Bot
    requires forall k :: j < k < |line| ==> line[k] != Bot
    requires forall k :: 0 <= k < j ==> !IsLineTerminator(line[k])
    ensures BotCut(line) == Some(j)
  {
    var n := LineRun(line);
    assert !IsLineTerminator(line[j]);
    assert n > j;
  }

  /** So the cleaned text is what follows the last robot face, trimmed. */
  lemma CleanAfterLastBot(line: string, j: nat)
    requires j < |line| && line[j] == Bot
    requires forall k :: j < k < |line| ==> line[k] != Bot
    requires forall k :: 0 <= k < j ==> !IsLineTerminator(line[k])
    ensures CleanBotLine(line) == Trim(line[j + 1..])
  {
    CutAtLastBot(line, j);
  }

  /** The state of the scan over the output lines: the text captured so far, whether a
      robot line has been seen (`foundBotResponse`), and whether the scan has stopped. */
  datatype Capture = Capture(response: string, found: bool, stopped: bool)

  /** The prompt line that ends the analyzer's answer. */
  predicate IsPrompt(line: string) {
    Trim(line) == "You:" || Contains(line, "You:")
  }

  /** One turn of the loop. */
  function Step(st: Capture, line: string): Capture {
    if st.stopped then st
    else if Contains(line, [Bot]) then
      var c := CleanBotLine(line);
      Capture(st.response + (if c != "" then c + "\n" else ""), true, false)
    else if !st.found then st
    else if IsPrompt(line) then st.(stopped := true)
    else st.(response := st.response + line + "\n")
  }

  /** The scan after the given lines. */
  function ScanLines(lines: seq<string>): (st: Capture)
    ensures !st.found ==> st == Capture("", false, false)
    decreases |lines|
  {
    if |lines| == 0 then Capture("", false, false)
    else Step(ScanLines(lines[..|lines| - 1]), lines[|lines| - 1])
  }

  /** The scan after one more line is one more turn of the loop. */
  lemma ScanStep(lines: seq<string>, i: nat)
    requires i < |lines|
    ensures ScanLines(lines[..i + 1]) == Step(ScanLines(lines[..i]), lines[i])
  {
    assert lines[..i + 1][..i] == lines[..i];
  }

  /** Once stopped, the scan ignores every further line. */
  lemma {:induction false} StoppedStays(lines: seq<string>, k: nat)
    requires k <= |lines| && ScanLines(lines[..k]).stopped
    ensures ScanLines(lines) == ScanLines(lines[..k])
    decreases |lines| - k
  {
    if k < |lines| {
      assert lines[..k + 1][..k] == lines[..k];
      StoppedStays(lines, k + 1);
    } else {
      assert lines[..k] == lines;
    }
  }

  /** Lines before the first robot line capture nothing and change nothing. */
  lemma {:induction false} NothingBeforeBot(pre: seq<string>, post: seq<string>)
    requires forall k :: 0 <= k < |pre| ==> !Contains(pre[k], [Bot])
    ensures ScanLines(pre + post) == ScanLines(post)
    decreases |post|
  {
    ConcatLast(pre, post);
    if |post| == 0 {
      NoBotIdle(pre);
    } else {
      NothingBeforeBot(pre, post[..|post| - 1]);
    }
  }

  lemma {:induction false} NoBotIdle(lines: seq<string>)
    requires forall k :: 0 <= k < |lines| ==> !Contains(lines[k], [Bot])
    ensures ScanLines(lines) == Capture("", false, false)
    decreases |lines|
  {
    if |lines| > 0 {
      NoBotIdle(lines[..|lines| - 1]);
    }
  }

  /** After capture has started, the first prompt line ends it: neither that line nor any
      later one is captured. */
  lemma PromptEndsCapture(pre: seq<string>, line: string, post: seq<string>)
    requires ScanLines(pre).found && !ScanLines(pre).stopped
    requires Contains(line, "You:") && !Contains(line, [Bot])
    ensures ScanLines(pre + [line] + post).response == ScanLines(pre).response
  {
    var all := pre + [line] + post;
    assert all[..|pre| + 1] == pre + [line];
    assert (pre + [line])[..|pre|] == pre;
    StoppedStays(all, |pre| + 1);
  }

  /** The first test of the prompt check is subsumed by the second. */
  lemma PromptIsContains(line: string)
    ensures IsPrompt(line) <==> Contains(line, "You:")
  {
    if Trim(line) == "You:" {
      var a, b := line[..LeadingWhite(line)], line[|line| - TrailingWhite(line)..];
      assert a + "You:" + b == line;
      ContainsInfix(a, "You:", b);
    }
  }

  /** During capture an ordinary line is kept verbatim, with a newline, and a later robot
      line is cleaned rather than kept verbatim. */
  lemma CaptureAppends(pre: seq<string>, line: string)
    requires ScanLines(pre).found && !ScanLines(pre).stopped
    ensures var st := ScanLines(pre + [line]);
      (!Contains(line, [Bot]) && !Contains(line, "You:") ==>
         st == Capture(ScanLines(pre).response + line + "\n", true, false)) &&
      (Contains(line, [Bot]) && CleanBotLine(line) != "" ==>
         st == Capture(ScanLines(pre).response + CleanBotLine(line) + "\n", true, false))
  {
    assert (pre + [line])[..|pre|] == pre;
    PromptIsContains(line);
  }

  /** Output lines that are not analyzer chatter. */
  predicate IsMeaningful(line: string) {
    var t := Trim(line);
    t != "" && !Contains(t, "You:") && !Contains(t, "npm start") &&
    !Contains(t, "toronto-budget-analyzer") && !Contains(t, "Ready for your questions") &&
    !Contains(t, "Analyzing...") && !Contains(t, "Loading Toronto budget data") && t != ">"
  }

  /** Lines that look like analysis results. */
  predicate IsAnalysis(line: string) {
    Contains(line, "$") || Contains(line, "Total") || Contains(line, "Expenses") ||
    Contains(line, "Revenue") || Contains(line, "Budget") || Contains(line, "records") ||
    Contains(line, "year") || Contains(line, "\U{1F4B0}") || Contains(line, "\U{1F4CA}") ||
    Contains(line, "\U{1F3C6}")
  }

  /** `xs.slice(-count)`. */
  function LastFew<T>(xs: seq<T>, count: nat): (r: seq<T>)
    ensures |r| == if |xs| < count then |xs| else count
    ensures xs[|xs| - |r|..] == r
  {
    if |xs| < count then xs else xs[|xs| - count..]
  }

  /** The response before the final trim: the captured text, or when that is blank the
      analysis lines, or failing those the last five meaningful lines. */
  function Fallback(lines: seq<string>, captured: string, meaningfulLine: string -> bool,
                    analysisLine: string -> bool): string
  {
    if !IsBlank(captured) then captured
    else
      var meaningful := Filter(lines, meaningfulLine);
      var analysis := Filter(meaningful, analysisLine);
      if |analysis| > 0 then Join(analysis, "\n")
      else if |meaningful| > 0 then Join(LastFew(meaningful, 5), "\n")
      else captured
  }

  /** The sentence returned when nothing could be scraped. */
  const NothingScraped: string := "Analysis completed. The data has been processed successfully."

  /** The `response` field of a successful analysis, from the analyzer's output. */
  function Scraped(stdout: string): (r: string)
    ensures r != ""
    ensures r == NothingScraped || (!IsWhite(r[0]) && !IsWhite(r[|r| - 1]))
  {
    var lines := Split(stdout, '\n');
    var t := Trim(Fallback(lines, ScanLines(lines).response, IsMeaningful, IsAnalysis));
    if t == "" then
      NothingScraped
    else t
  }

  /** The lines a fallback answer is built from are meaningful output lines; the analysis
      lines are preferred, and otherwise at most the last five are used. (Stated for any
      pair of line tests; the route uses `IsMeaningful` and `IsAnalysis`.) */
  lemma FallbackSources(lines: seq<string>, captured: string, meaningfulLine: string -> bool,
                        analysisLine: string -> bool)
    requires IsBlank(captured)
    ensures var meaningful := Filter(lines, meaningfulLine);
      var analysis := Filter(meaningful, analysisLine);
      var r := Fallback(lines, captured, meaningfulLine, analysisLine);
      (forall x :: x in analysis <==> x in lines && meaningfulLine(x) && analysisLine(x)) &&
      (|analysis| > 0 ==> r == Join(analysis, "\n")) &&
      (|analysis| == 0 && |meaningful| > 0 ==>
         exists tail :: r == Join(tail, "\n") && 1 <= |tail| <= 5 && |tail| <= |meaningful| &&
                        tail == meaningful[|meaningful| - |tail|..]) &&
      (|meaningful| == 0 ==> r == captured)
  {
    var meaningful := Filter(lines, meaningfulLine);
    var analysis := Filter(meaningful, analysisLine);
    if |analysis| == 0 && |meaningful| > 0 {
      var tail := LastFew(meaningful, 5);
      assert Fallback(lines, captured, meaningfulLine, analysisLine) == Join(tail, "\n");
    }
  }

  /** The loop of the scraper, with its early exit at the first prompt line after the
      answer has started. */
  method ScanResponse(lines: seq<string>) returns (response: string)
    ensures response == ScanLines(lines).response
  {
    response := "";
    var foundBotResponse := false;
    var i := 0;
    while i < |lines|
      invariant 0 <= i <= |lines|
      invariant ScanLines(lines[..i]) == Capture(response, foundBotResponse, false)
    {
      var line := lines[i];
      ScanStep(lines, i);
      if Contains(line, [Bot]) {
        foundBotResponse := true;
        var cleanLine := CleanBotLine(line);
        if cleanLine != "" {
          response := response + cleanLine + "\n";
        }
        i := i + 1;
        continue;
      }
      if foundBotResponse {
        if Trim(line) == "You:" || Contains(line, "You:") {
          StoppedStays(lines, i + 1);
          return;
        }
        response := response + line + "\n";
      }
      i := i + 1;
    }
    assert lines[..i] == lines;
  }

  /** The scraper as the route runs it: the loop over the lines, then the fallback and
      the trim. */
  method ScrapeResponse(stdout: string) returns (response: string)
    ensures response == Scraped(stdout)
  {
    var lines := Split(stdout, '\n');
    response := ScanResponse(lines);
    if IsBlank(response) {
      var meaningfulLines := Filter(lines, IsMeaningful);
      var analysisLines := Filter(meaningfulLines, IsAnalysis);
      if |analysisLines| > 0 {
        response := Join(analysisLines, "\n");
      } else if |meaningfulLines| > 0 {
        response := Join(LastFew(meaningfulLines, 5), "\n");
      }
    }
    response := Trim(response);
    if response == "" {
      response := NothingScraped;
    }
  }

  /** The `query` member of the request body: absent, a string, or a JSON value that is
      not a string (`null`, a number, a boolean, an object or an array), with its
      truthiness and its JSON text. */
  datatype Query = Absent | Text(s: string) | NotAString(truthy: bool, json: string)

  /** The request body: unreadable JSON, or an object with its `query` member. */
  datatype Request = Malformed(error: string) | Body(query: Query)

  /** What running the analyzer came to: its standard output, or the message of the
      error it raised. */
  datatype Run = Output(stdout: string) | Failed(error: Option<string>)

  /** The `query` field of an apology, which echoes `requestQuery`: a string, or the
      non-string value of the request, written as its JSON text. */
  datatype Echo = EchoText(text: string) | EchoValue(json: string)

  /** The JSON replies of the route. */
  datatype Reply =
    | QueryRequired
    | Analysis(query: string, response: string)
    | Apology(echo: Echo, error: Option<string>)

  /** The message of the `TypeError` that calling `query.trim()` on a truthy non-string
      raises, in the wording of the V8 engine that runs the route. */
  const TrimNotAFunction: string := "query.trim is not a function"

  /** HTTP status: 400 for a missing query; errors still answer 200 so that the page can
      show the apology. */
  function Status(r: Reply): (code: nat)
    ensures code == 400 <==> r.QueryRequired?
    ensures code != 400 ==> code == 200
  {
    if r.QueryRequired? then 400 else 200
  }

  /** `!query || query.trim().length === 0`: the test that answers 400; it holds for
      every falsy value and for a blank string. A truthy non-string is not refused here:
      its `trim` call throws instead. */
  predicate Refused(q: Query) {
    q.Absent? || (q.Text? && IsBlank(q.s)) || (q.NotAString? && !q.truthy)
  }

  /** The route handler. The analyzer is not started for a refused query. */
  function Handle(request: Request, run: Run): (r: Reply)
    ensures r.QueryRequired? <==> request.Body? && Refused(request.query)
    ensures r.Analysis? ==> run.Output? && r.response == Scraped(run.stdout) &&
                            request.Body? && request.query == Text(r.query)
    ensures r.Apology? ==> request.Malformed? || request.query.NotAString? || run.Failed?
    ensures request.Malformed? ==> r == Apology(EchoText("unknown"), Some(request.error))
    ensures request.Body? && request.query.NotAString? && request.query.truthy ==>
              r == Apology(EchoValue(request.query.json), Some(TrimNotAFunction))
    ensures request.Body? && request.query.Text? && !IsBlank(request.query.s) && run.Failed? ==>
              r == Apology(EchoText(request.query.s), run.error)
  {
    match request
    case Malformed(e) => Apology(EchoText("unknown"), Some(e))
    case Body(Absent) => QueryRequired
    case Body(NotAString(truthy, json)) =>
      if truthy then Apology(EchoValue(json), Some(TrimNotAFunction)) else QueryRequired
    case Body(Text(q)) =>
      if IsBlank(q) then QueryRequired
      else match run
        case Output(stdout) => Analysis(q, Scraped(stdout))
        case Failed(e) => Apology(EchoText(q), e)
  }
}
