/** The chat panel of the analysis page: it posts the conversation to the chat endpoint,
    decodes the `0:"…"` lines of the streamed answer into the assistant's message, and
    renders `**bold**` spans of a message. */
module ChatClient {
  import opened Wrappers
  import opened Text
  import ChatRoute

  // ---------------------------------------------------------------------------
  // Decoding a stream line

  /** The group `(.*)` of `line.match(/^0:"(.*)"/)`: from the opening `0:"` to the last
      `"` before any line terminator; `None` when the line does not match. */
  function Payload(line: string): (r: Option<string>)
    ensures r.Some? ==> StartsWith(line, "0:\"") &&
                        exists j :: 3 <= j < |line| && r.value == line[3..j] && line[j] == '"'
    ensures r.Some? ==> forall k :: 0 <= k < |r.value| ==> !IsLineTerminator(r.value[k])
    ensures !StartsWith(line, "0:\"") ==> r.None?
  {
    if !StartsWith(line, "0:\"") then None
    else
      var rest := line[3..];
      match LastIndexOf(rest, LineRun(rest), '"')
      case None => None
      case Some(j) =>
        assert rest[..j] == line[3..j + 3] && line[j + 3] == rest[j];
        Some(rest[..j])
  }

  /** `.replace(/\\n/g, "\n").replace(/\\"/g, '"')`. */
  function Unescape(p: string): string {
    ReplaceAll(ReplaceAll(p, "\\n", "\n"), "\\\"", "\"")
  }

  /** The text a stream line carries, if it carries one. */
  function DecodeLine(line: string): (r: Option<string>)
    ensures r.Some? <==> Payload(line).Some?
  {
    match Payload(line)
    case None => None
    case Some(p) => Some(Unescape(p))
  }

  // The round trip with the chat endpoint's encoder.

  /** Text the encoder and the decoder agree on: no backslash, and no line terminator
      other than the newline, which the encoder escapes. */
  predicate Transmittable(text: string) {
    forall k :: 0 <= k < |text| ==> text[k] != '\\' && (text[k] == '\n' || !IsLineTerminator(text[k]))
  }

  /** `text.replace(/"/g, '\\"')`, the encoder's first step. */
  function QuoteEscaped(text: string): string {
    ReplaceAll(text, "\"", "\\\"")
  }

  /** The quote replacement, one character at a time: a leading quote becomes `\"`, any other
      leading character is kept. */
  lemma QuoteEscapedCons(c: char, rest: string)
    ensures QuoteEscaped([c] + rest) ==
            (if c == '"' then "\\\"" else [c]) + QuoteEscaped(rest)
  {
    assert ([c] + rest)[1..] == rest;
  }

  /** Undoing the newline escapes gives back the text with only its quotes escaped. */
  lemma {:induction false} NewlinesRestored(text: string)
    requires Transmittable(text)
    ensures ReplaceAll(ChatRoute.EscapeChars(text), "\\n", "\n") == QuoteEscaped(text)
    decreases |text|
  {
    if |text| > 0 {
      assert text[0] != '\\';
      assert forall k :: 0 <= k < |text| - 1 ==> text[1..][k] == text[k + 1];
      NewlinesRestored(text[1..]);
      NewlineStep(text);
    }
  }

  /** One character of `NewlinesRestored`: the escape of a character other than a
      backslash comes back as the character, with a quote left escaped. */
  lemma NewlineStep(text: string)
    requires |text| > 0 && text[0] != '\\'
    ensures ReplaceAll(ChatRoute.EscapeChars(text), "\\n", "\n") ==
            (if text[0] == '"' then "\\\"" else [text[0]]) +
            ReplaceAll(ChatRoute.EscapeChars(text[1..]), "\\n", "\n")
    ensures QuoteEscaped(text) ==
            (if text[0] == '"' then "\\\"" else [text[0]]) + QuoteEscaped(text[1..])
  {
    var c := text[0];
    var e := ChatRoute.EscapeChars(text[1..]);
    assert ChatRoute.EscapeChars(text) == ChatRoute.EscapeChar(c) + e;
    if c == '"' {
      QuoteUnescaped(e);
    } else if c == '\n' {
      NewlineUnescaped(e);
    } else {
      PlainUnescaped(c, e);
    }
    assert text[..1] == [c];
  }

  /** An escaped quote is left as it is by the newline unescaping. */
  lemma QuoteUnescaped(e: string)
    ensures ReplaceAll("\\\"" + e, "\\n", "\n") == "\\\"" + ReplaceAll(e, "\\n", "\n")
  {
    var t, u := "\\\"" + e, "\"" + e;
    assert t[..2] != "\\n" && t[1..] == u && u[1..] == e;
    assert !StartsWith(u, "\\n");
    assert "\\" + ("\"" + ReplaceAll(e, "\\n", "\n")) == "\\\"" + ReplaceAll(e, "\\n", "\n");
  }

  /** An escaped newline becomes a newline again. */
  lemma NewlineUnescaped(e: string)
    ensures ReplaceAll("\\n" + e, "\\n", "\n") == "\n" + ReplaceAll(e, "\\n", "\n")
  {
    var t := "\\n" + e;
    assert StartsWith(t, "\\n") && t[2..] == e;
  }

  /** Any other character that is not a backslash is left as it is. */
  lemma PlainUnescaped(c: char, e: string)
    requires c != '\\'
    ensures ReplaceAll([c] + e, "\\n", "\n") == [c] + ReplaceAll(e, "\\n", "\n")
  {
    var t := [c] + e;
    assert t[1..] == e;
    if |t| >= 2 {
      assert t[..2][0] == c;
    }
  }

  /** Undoing the quote escapes of a backslash-free text gives the text back. */
  lemma {:induction false} QuotesRestored(text: string)
    requires Transmittable(text)
    ensures ReplaceAll(QuoteEscaped(text), "\\\"", "\"") == text
    decreases |text|
  {
    if |text| > 0 {
      var c, rest := text[0], text[1..];
      assert text == [c] + rest;
      QuoteEscapedCons(c, rest);
      QuotesRestored(rest);
      var t := QuoteEscaped(text);
      if c == '"' {
        assert StartsWith(t, "\\\"") && t[2..] == QuoteEscaped(rest);
      } else {
        assert t == [c] + QuoteEscaped(rest) && t[1..] == QuoteEscaped(rest);
      }
    }
  }

  /** Escaping adds no line terminator to a transmittable text. */
  lemma {:induction false} EscapedRunsToEnd(text: string)
    requires Transmittable(text)
    ensures forall k :: 0 <= k < |ChatRoute.EscapeChars(text)| ==>
              !IsLineTerminator(ChatRoute.EscapeChars(text)[k])
    decreases |text|
  {
    if |text| > 0 {
      EscapedRunsToEnd(text[1..]);
      var e := ChatRoute.EscapeChars(text[1..]);
      assert ChatRoute.EscapeChars(text) == ChatRoute.EscapeChar(text[0]) + e;
    }
  }

  /** The stream line the endpoint sends, without its final newline. */
  function ChunkLine(text: string): string {
    "0:\"" + ChatRoute.Escape(text) + "\""
  }

  /** Decoding the line the endpoint encodes gives back a transmittable text. */
  lemma RoundTrip(text: string)
    requires Transmittable(text)
    ensures DecodeLine(ChunkLine(text)) == Some(text)
  {
    ChatRoute.EscapeByChar(text);
    var e := ChatRoute.EscapeChars(text);
    var line := ChunkLine(text);
    var rest := line[3..];
    assert rest == e + "\"";
    EscapedRunsToEnd(text);
    LineRunAll(rest);
    assert Payload(line) == Some(e);
    NewlinesRestored(text);
    QuotesRestored(text);
  }

  // ---------------------------------------------------------------------------
  // The read loop

  /** The assistant content after one line: a decoded line replaces it. */
  function AfterLine(content: Option<string>, line: string): Option<string> {
    match DecodeLine(line)
    case Some(c) => Some(c)
    case None => content
  }

  /** The assistant content after a run of lines. */
  function AfterLines(content: Option<string>, lines: seq<string>): (r: Option<string>)
    ensures r == content || exists k :: 0 <= k < |lines| && r == DecodeLine(lines[k]) && r.Some?
    decreases |lines|
  {
    if |lines| == 0 then content
    else
      var last := |lines| - 1;
      var before := AfterLines(content, lines[..last]);
      assert forall k :: 0 <= k < last ==> lines[..last][k] == lines[k];
      AfterLine(before, lines[last])
  }

  /** The assistant content after the chunks read so far; each chunk is split on
      newlines. */
  function AfterChunks(content: Option<string>, chunks: seq<string>): Option<string>
    decreases |chunks|
  {
    if |chunks| == 0 then content
    else AfterLines(AfterChunks(content, chunks[..|chunks| - 1]), Split(chunks[|chunks| - 1], '\n'))
  }

  /** What the whole stream leaves as the assistant's text, if any line decoded. */
  function Received(chunks: seq<string>): Option<string> {
    AfterChunks(None, chunks)
  }

  /** The last decodable line wins: earlier lines are replaced, never appended to. */
  lemma {:induction false} LastLineWins(content: Option<string>, lines: seq<string>, k: nat)
    requires k < |lines| && DecodeLine(lines[k]).Some?
    requires forall m :: k < m < |lines| ==> DecodeLine(lines[m]).None?
    ensures AfterLines(content, lines) == DecodeLine(lines[k])
    decreases |lines|
  {
    var last := |lines| - 1;
    AfterLinesLast(content, lines);
    if k < last {
      forall m | k <= m < last
        ensures lines[..last][m] == lines[m]
      {
      }
      LastLineWins(content, lines[..last], k);
    }
  }

  /** The content after a run of lines is the content after all but the last, then the
      last line. */
  lemma AfterLinesLast(content: Option<string>, lines: seq<string>)
    requires |lines| > 0
    ensures AfterLines(content, lines) ==
            AfterLine(AfterLines(content, lines[..|lines| - 1]), lines[|lines| - 1])
  {
  }

  /** Reading the body the endpoint streams yields exactly the text it encoded. */
  lemma StreamRoundTrip(text: string)
    requires Transmittable(text)
    ensures Received([ChatRoute.Chunk(text), ChatRoute.Done]) == Some(text)
  {
    var chunks := [ChatRoute.Chunk(text), ChatRoute.Done];
    var one := [ChatRoute.Chunk(text)];
    assert chunks[..1] == one && one[..0] == [];
    AfterChunksLast(None, one);
    ChunkDecoded(text);
    AfterChunksLast(None, chunks);
    DoneIgnored(Some(text));
  }

  /** The content after some chunks is the content after all but the last, then the
      lines of the last. */
  lemma AfterChunksLast(content: Option<string>, chunks: seq<string>)
    requires |chunks| > 0
    ensures AfterChunks(content, chunks) ==
            AfterLines(AfterChunks(content, chunks[..|chunks| - 1]), Split(chunks[|chunks| - 1], '\n'))
  {
  }

  /** The chunk line alone yields the text it encodes. */
  lemma ChunkDecoded(text: string)
    requires Transmittable(text)
    ensures AfterLines(None, Split(ChatRoute.Chunk(text), '\n')) == Some(text)
  {
    var line := ChunkLine(text);
    ChatRoute.EscapedHasNoNewline(text);
    assert ChatRoute.Chunk(text) == line + ['\n'] + "";
    SplitAfterFree(line, '\n', "");
    RoundTrip(text);
    var first := Split(ChatRoute.Chunk(text), '\n');
    assert first == [line, ""];
    LastLineWins(None, first, 0);
  }

  /** The closing `d` line decodes to nothing and leaves the content as it is. */
  lemma DoneIgnored(content: Option<string>)
    ensures AfterLines(content, Split(ChatRoute.Done, '\n')) == content
  {
    assert ChatRoute.Done == "d" + ['\n'] + "";
    SplitAfterFree("d", '\n', "");
    assert Split(ChatRoute.Done, '\n') == ["d", ""];
    assert DecodeLine("d").None? && DecodeLine("").None?;
    AfterLinesLast(content, ["d", ""]);
    AfterLinesLast(content, ["d"]);
  }

  /** End to end: whatever transmittable text the endpoint chooses for the latest
      message reaches the panel unchanged. */
  lemma ChatRoundTrip(messages: seq<ChatRoute.ChatMessage>, outcome: ChatRoute.McpOutcome)
    requires |messages| > 0
    requires Transmittable(ChatRoute.ResponseText(messages[|messages| - 1].content, outcome))
    ensures ChatRoute.Respond(messages, outcome).Some?
    ensures Received(ChatRoute.Respond(messages, outcome).value) ==
            Some(ChatRoute.ResponseText(messages[|messages| - 1].content, outcome))
  {
    StreamRoundTrip(ChatRoute.ResponseText(messages[|messages| - 1].content, outcome));
  }

  // ---------------------------------------------------------------------------
  // Messages

  /** A message of the panel (the query evidence attached to it is not modelled). */
  datatype Message = Message(id: string, role: string, content: string)

  /** `prev.map(msg => msg.id === id ? { ...msg, content } : msg)`. */
  function WithContent(msgs: seq<Message>, id: string, content: string): (r: seq<Message>)
    ensures |r| == |msgs|
    ensures forall i :: 0 <= i < |msgs| && msgs[i].id == id ==> r[i] == msgs[i].(content := content)
    ensures forall i :: 0 <= i < |msgs| && msgs[i].id != id ==> r[i] == msgs[i]
    decreases |msgs|
  {
    if |msgs| == 0 then []
    else
      var m := msgs[0];
      [if m.id == id then m.(content := content) else m] + WithContent(msgs[1..], id, content)
  }

  /** A second update of the same message overrides the first. */
  lemma UpdateTwice(msgs: seq<Message>, id: string, a: string, b: string)
    ensures WithContent(WithContent(msgs, id, a), id, b) == WithContent(msgs, id, b)
  {
    var x, y := WithContent(WithContent(msgs, id, a), id, b), WithContent(msgs, id, b);
    assert forall i :: 0 <= i < |x| ==> x[i] == y[i];
  }

  /** When the id is that of the newest message and no other, only that message
      changes. */
  lemma UpdateNewest(msgs: seq<Message>, m: Message, content: string)
    requires forall i :: 0 <= i < |msgs| ==> msgs[i].id != m.id
    ensures WithContent(msgs + [m], m.id, content) == msgs + [m.(content := content)]
  {
    var x, y := WithContent(msgs + [m], m.id, content), msgs + [m.(content := content)];
    assert forall i :: 0 <= i < |msgs| ==> (msgs + [m])[i] == msgs[i];
    assert forall i :: 0 <= i < |x| ==> x[i] == y[i];
  }

  /** The assistant's text: empty until a line decodes. */
  function ContentOf(received: Option<string>): string {
    match received
    case Some(c) => c
    case None => ""
  }

  /** The panel's messages once the stream has delivered `received`. */
  function Shown(msgs: seq<Message>, id: string, received: Option<string>): seq<Message> {
    match received
    case None => msgs
    case Some(c) => WithContent(msgs, id, c)
  }

  /** The request body's messages: role and content of each, in order. */
  function RequestOf(msgs: seq<Message>): (r: seq<ChatRoute.ChatMessage>)
    ensures |r| == |msgs|
    ensures forall i :: 0 <= i < |msgs| ==> r[i] == ChatRoute.ChatMessage(msgs[i].role, msgs[i].content)
  {
    seq(|msgs|, i requires 0 <= i < |msgs| => ChatRoute.ChatMessage(msgs[i].role, msgs[i].content))
  }

  /** The opening of the message shown when a request fails. */
  const ErrorHelp: string :=
    "I encountered an error while processing your question. Please try again or rephrase your question.\n\n" +
    "I can help you analyze Toronto&apos;s budget data with questions like:\n" +
    "- \"What was Toronto&apos;s total budget in 2024?\"\n" +
    "- \"How much did Toronto spend on police services?\"\n" +
    "- \"Show me the trend in fire department spending over the years\"\n" +
    "- \"What are the top 5 programs by spending?\"\n" +
    "- \"How much revenue did Toronto collect last year?\"\n\n"

  /** The message shown when a request fails; `None` is a thrown value that is not an
      `Error`. */
  function ErrorText(error: Option<string>): string {
    ErrorHelp + "Error: " + (match error case Some(m) => m case None => "Unknown error")
  }

  /** The delays, in milliseconds, of the loading steps. */
  const StepDurations: seq<nat> := [1000, 1500, 1200, 800]

  /** `LOADING_STEPS.length - 1`. */
  const LastStep: nat := |StepDurations| - 1

  // ---------------------------------------------------------------------------
  // The panel's state

  class ChatPanel {
    var messages: seq<Message>
    var input: string
    var isLoading: bool
    var loadingStep: nat

    /** The loading step always names one of the steps. */
    predicate Valid()
      reads this
    {
      loadingStep <= LastStep
    }

    /** A panel opened with a query starts with that query as the user's first message. */
    constructor(query: string)
      ensures Valid()
      ensures messages == (if query != "" then [Message("1", "user", query)] else [])
      ensures input == "" && !isLoading && loadingStep == 0
    {
      messages := if query != "" then [Message("1", "user", query)] else [];
      input := "";
      isLoading := false;
      loadingStep := 0;
    }

    /** `advanceLoadingStep`: one step further unless at the last step; when it moves, the
        next advance is scheduled after the new step's duration. */
    method AdvanceLoadingStep() returns (nextDelay: Option<nat>)
      requires Valid()
      modifies this
      ensures Valid()
      ensures messages == old(messages) && input == old(input) && isLoading == old(isLoading)
      ensures old(loadingStep) < LastStep ==> loadingStep == old(loadingStep) + 1 &&
                                               nextDelay == Some(StepDurations[loadingStep])
      ensures old(loadingStep) == LastStep ==> loadingStep == LastStep && nextDelay.None?
    {
      if loadingStep < LastStep {
        loadingStep := loadingStep + 1;
        nextDelay := Some(StepDurations[loadingStep]);
      } else {
        nextDelay := None;
      }
    }

    /** The synchronous start of `handleSubmit`: ignored when the trimmed input is empty
        or a request is in flight; otherwise the user's message is added, the input
        cleared, loading starts at step 0, and the conversation to post is returned. */
    method BeginSubmit(id: string) returns (request: Option<seq<ChatRoute.ChatMessage>>)
      requires Valid()
      modifies this
      ensures Valid()
      ensures request.None? <==> IsBlank(old(input)) || old(isLoading)
      ensures request.None? ==> messages == old(messages) && input == old(input) &&
                                isLoading == old(isLoading) && loadingStep == old(loadingStep)
      ensures request.Some? ==>
        messages == old(messages) + [Message(id, "user", Trim(old(input)))] &&
        input == "" && isLoading && loadingStep == 0 &&
        request.value == RequestOf(messages)
    {
      if IsBlank(input) || isLoading {
        return None;
      }
      messages := messages + [Message(id, "user", Trim(input))];
      input := "";
      isLoading := true;
      loadingStep := 0;
      request := Some(RequestOf(messages));
    }

    /** The read loop: an empty assistant message is added, and every decodable line of
        every chunk replaces its content. */
    method ReceiveStream(id: string, chunks: seq<string>) returns (assistantContent: string)
      requires Valid()
      modifies this
      ensures Valid()
      ensures input == old(input) && isLoading == old(isLoading) && loadingStep == old(loadingStep)
      ensures assistantContent == ContentOf(Received(chunks))
      ensures messages == Shown(old(messages) + [Message(id, "assistant", "")], id, Received(chunks))
    {
      assistantContent := "";
      var base := messages + [Message(id, "assistant", "")];
      messages := base;
      var i := 0;
      while i < |chunks|
        invariant 0 <= i <= |chunks| && Valid()
        invariant input == old(input) && isLoading == old(isLoading) && loadingStep == old(loadingStep)
        invariant assistantContent == ContentOf(AfterChunks(None, chunks[..i]))
        invariant messages == Shown(base, id, AfterChunks(None, chunks[..i]))
      {
        assistantContent := ReadLines(base, id, AfterChunks(None, chunks[..i]), Split(chunks[i], '\n'),
                                      assistantContent);
        assert chunks[..i + 1][..i] == chunks[..i];
        i := i + 1;
      }
      assert chunks[..i] == chunks;
    }

    /** The inner loop, over the lines of one chunk. */
    method ReadLines(base: seq<Message>, id: string, ghost before: Option<string>, lines: seq<string>,
                     contentBefore: string) returns (content: string)
      requires Valid() && messages == Shown(base, id, before) && contentBefore == ContentOf(before)
      modifies this
      ensures Valid()
      ensures input == old(input) && isLoading == old(isLoading) && loadingStep == old(loadingStep)
      ensures content == ContentOf(AfterLines(before, lines))
      ensures messages == Shown(base, id, AfterLines(before, lines))
    {
      content := contentBefore;
      var j := 0;
      while j < |lines|
        invariant 0 <= j <= |lines| && Valid()
        invariant input == old(input) && isLoading == old(isLoading) && loadingStep == old(loadingStep)
        invariant content == ContentOf(AfterLines(before, lines[..j]))
        invariant messages == Shown(base, id, AfterLines(before, lines[..j]))
      {
        var line := lines[j];
        assert lines[..j + 1][..j] == lines[..j];
        if StartsWith(line, "0:\"") {
          var m := Payload(line);
          if m.Some? {
            ghost var was := AfterLines(before, lines[..j]);
            content := Unescape(m.value);
            if was.Some? {
              UpdateTwice(base, id, was.value, content);
            }
            messages := WithContent(messages, id, content);
          }
        }
        j := j + 1;
      }
      assert lines[..j] == lines;
    }

    /** A failed request adds the error message. */
    method Fail(id: string, error: Option<string>)
      requires Valid()
      modifies this
      ensures Valid()
      ensures messages == old(messages) + [Message(id, "assistant", ErrorText(error))]
      ensures input == old(input) && isLoading == old(isLoading) && loadingStep == old(loadingStep)
    {
      messages := messages + [Message(id, "assistant", ErrorText(error))];
    }

    /** The `finally` of `handleSubmit`: loading stops and the step returns to 0. */
    method Finish()
      requires Valid()
      modifies this
      ensures Valid()
      ensures messages == old(messages) && input == old(input)
      ensures !isLoading && loadingStep == 0
    {
      isLoading := false;
      loadingStep := 0;
    }
  }

  // ---------------------------------------------------------------------------
  // Bold spans

  /** The length of the longest prefix of `s` without a `*`. */
  function StarFreeRun(s: string): (n: nat)
    ensures n <= |s| && (n == |s| || s[n] == '*')
    ensures forall k :: 0 <= k < n ==> s[k] != '*'
    decreases |s|
  {
    if |s| == 0 || s[0] == '*' then 0 else 1 + StarFreeRun(s[1..])
  }

  /** A match of `\*\*[^*]+\*\*`. */
  predicate IsBoldToken(t: string) {
    |t| >= 5 && t[..2] == "**" && t[|t| - 2..] == "**" &&
    forall k :: 2 <= k < |t| - 2 ==> t[k] != '*'
  }

  /** The length of the match of `\*\*[^*]+\*\*` at the start of `s`, if there is one. */
  function BoldAt(s: string): (r: Option<nat>)
    ensures r.Some? ==> r.value <= |s| && IsBoldToken(s[..r.value])
    ensures r.None? ==> forall n :: 0 <= n <= |s| ==> !IsBoldToken(s[..n])
  {
    if !StartsWith(s, "**") then
      assert forall n :: 0 <= n <= |s| && IsBoldToken(s[..n]) ==> s[..n][..2] == s[..2];
      None
    else
      var k := StarFreeRun(s[2..]);
      if k >= 1 && StartsWith(s[2 + k..], "**") then
        var t := s[..k + 4];
        assert t[..2] == s[..2] && t[k + 2..] == s[2 + k..][..2];
        assert forall m :: 2 <= m < k + 2 ==> t[m] == s[2..][m - 2];
        Some(k + 4)
      else
        forall n | 0 <= n <= |s|
          ensures !IsBoldToken(s[..n])
        {
          if IsBoldToken(s[..n]) {
            BoldTokenRun(s, n);
          }
        }
        None
  }

  /** A match at the start of `s` ends at the first `*` after its opening marker. */
  lemma BoldTokenRun(s: string, n: nat)
    requires n <= |s| && IsBoldToken(s[..n])
    ensures StarFreeRun(s[2..]) == n - 4 && StartsWith(s[n - 2..], "**")
  {
    var t, u := s[..n], s[2..];
    assert forall m :: 0 <= m < n - 4 ==> u[m] == t[m + 2];
    assert u[n - 4] == t[n - 2];
    assert s[n - 2..][..2] == t[n - 2..];
  }

  /** `part.split(/(\*\*[^*]+\*\*)/)`, with `acc` the text gathered since the last
      match: plain text and matches alternate, starting and ending with plain text. */
  function Scan(s: string, acc: string): (pieces: seq<string>)
    ensures |pieces| % 2 == 1
    ensures forall i :: 0 <= i < |pieces| && i % 2 == 1 ==> IsBoldToken(pieces[i])
    decreases |s|
  {
    if |s| == 0 then [acc]
    else
      match BoldAt(s)
      case Some(n) =>
        var rest := Scan(s[n..], "");
        var pieces := [acc, s[..n]] + rest;
        assert forall i :: 2 <= i < |pieces| ==> pieces[i] == rest[i - 2];
        pieces
      case None => Scan(s[1..], acc + [s[0]])
  }

  function BoldPieces(text: string): seq<string> {
    Scan(text, "")
  }

  /** Concatenation of the pieces. */
  function Concat(pieces: seq<string>): string
    decreases |pieces|
  {
    if |pieces| == 0 then "" else pieces[0] + Concat(pieces[1..])
  }

  lemma {:induction false} ScanConcat(s: string, acc: string)
    ensures Concat(Scan(s, acc)) == acc + s
    decreases |s|
  {
    if |s| > 0 {
      match BoldAt(s)
      case Some(n) =>
        ScanConcat(s[n..], "");
        ScanConcatMatch(s, acc, n);
      case None =>
        ScanConcat(s[1..], acc + [s[0]]);
        ScanConcatPlain(s, acc);
    }
  }

  /** The step of `ScanConcat` at a match. */
  lemma ScanConcatMatch(s: string, acc: string, n: nat)
    requires |s| > 0 && BoldAt(s) == Some(n) && Concat(Scan(s[n..], "")) == s[n..]
    ensures Concat(Scan(s, acc)) == acc + s
  {
    var rest := Scan(s[n..], "");
    assert Scan(s, acc) == [acc, s[..n]] + rest;
    ConcatPair(acc, s[..n], rest);
    SplitJoined(acc, s, n);
  }

  /** Cutting `s` at `n` and joining the halves after `acc` gives `acc + s`. */
  lemma SplitJoined(acc: string, s: string, n: nat)
    requires n <= |s|
    ensures acc + (s[..n] + s[n..]) == acc + s
  {
    assert s[..n] + s[n..] == s;
  }

  /** The step of `ScanConcat` past a character that starts no match. */
  lemma ScanConcatPlain(s: string, acc: string)
    requires |s| > 0 && BoldAt(s).None? && Concat(Scan(s[1..], acc + [s[0]])) == acc + [s[0]] + s[1..]
    ensures Concat(Scan(s, acc)) == acc + s
  {
    assert Scan(s, acc) == Scan(s[1..], acc + [s[0]]);
    HeadMoved(acc, s);
  }

  /** Moving the first character of `s` onto the end of `acc` keeps their concatenation. */
  lemma HeadMoved(acc: string, s: string)
    requires |s| > 0
    ensures acc + [s[0]] + s[1..] == acc + s
  {
    assert [s[0]] + s[1..] == s;
  }

  lemma ConcatPair(a: string, b: string, rest: seq<string>)
    ensures Concat([a, b] + rest) == a + (b + Concat(rest))
  {
    var pieces := [a, b] + rest;
    assert pieces[1..] == [b] + rest && pieces[1..][1..] == rest;
  }

  /** Concatenating the split pieces gives back the text. */
  lemma BoldPiecesConcat(text: string)
    ensures Concat(BoldPieces(text)) == text
  {
    ScanConcat(text, "");
  }

  /** How one piece renders. */
  datatype Segment = Plain(text: string) | Strong(text: string)

  /** A piece that starts and ends with `**` renders bold, as `slice(2, -2)`. */
  function Render(piece: string): (r: Segment)
    ensures r.Strong? <==> StartsWith(piece, "**") && EndsWith(piece, "**")
    ensures r.Plain? ==> r.text == piece
    ensures r.Strong? && |piece| >= 4 ==> "**" + r.text + "**" == piece
  {
    if StartsWith(piece, "**") && EndsWith(piece, "**") then
      var inner := if |piece| >= 4 then piece[2..|piece| - 2] else "";
      assert |piece| >= 4 ==> piece == piece[..2] + inner + piece[|piece| - 2..];
      Strong(inner)
    else Plain(piece)
  }

  /** Every matched piece renders bold, showing the non-empty, star-free text between
      its markers. */
  lemma MatchesRenderBold(text: string, i: nat)
    requires i < |BoldPieces(text)| && i % 2 == 1
    ensures var p := BoldPieces(text)[i];
      Render(p).Strong? && "**" + Render(p).text + "**" == p &&
      |Render(p).text| >= 1 && '*' !in Render(p).text
  {
    var p := BoldPieces(text)[i];
    assert p[..2] == "**" && p[|p| - 2..] == "**";
    var t := Render(p).text;
    assert t == p[2..|p| - 2];
    assert forall k :: 0 <= k < |t| ==> t[k] == p[k + 2];
  }

  /** Text made of the markers alone also starts and ends with `**`, so it renders as an
      empty bold span: a message reading `**` shows nothing. */
  lemma MarkersAloneVanish()
    ensures BoldPieces("**") == ["**"] && Render("**") == Strong("")
  {
    var s := "**";
    assert s[2..] == "" && StarFreeRun(s[2..]) == 0;
    assert BoldAt(s).None? && s[1..] == "*" && !StartsWith(s[1..], "**");
    assert "" + [s[0]] == "*";
    assert Scan(s, "") == Scan("*", "*");
    assert "*"[1..] == "" && "*" + ["*"[0]] == s;
    assert BoldAt("*").None?;
    assert Scan("*", "*") == Scan("", "**");
  }
}
