# Toronto budget explorer — a verified model of its logic

The Toronto open-data hackathon project lets residents question the City of Toronto's
2019–2024 operating budget. Its logic is spread over a handful of scripts and web
components:

- a Python script stacks the six yearly CSV files into one;
- a Node script loads that file into SQLite;
- a command-line analyser answers questions over the same data;
- a Next.js site has three API routes (SQL question answering, chat, and analysis through
  the command-line tool) and several browser views (chat panel, chart advisor, data
  browser, allocation view, question boxes with autocompletion).

This project restates that logic in Dafny, one module per source file, and proves what
each piece promises.

| module | source |
|---|---|
| `CsvAppend` | `append_budget_data_csv.py` |
| `CsvToSqlite` | `scripts/csv-to-sqlite.js` |
| `QueryStore` | `frontend/src/lib/database.ts` |
| `QueryRoute` | `frontend/src/app/api/query/route.ts` |
| `ChartAdvisor` | `frontend/src/app/components/ChartVisualization.tsx` |
| `ChatRoute` | `frontend/src/app/api/chat/route.ts` |
| `ChatClient` | `frontend/src/app/components/AIAnalysis.tsx` |
| `AnalyzeRoute` | `frontend/src/app/api/analyze/route.ts` |
| `CliAnalyzer` | `test.ts` |
| `Dispensations` | `frontend/src/components/DataDispensations.tsx` |
| `Viewer` | `frontend/src/components/DataViewer.tsx` |
| `Autocomplete` | both `SearchInput.tsx` files |
| `BudgetRows` | the browser's budget row and the parsing the two views share |
| `Text`, `Numbers`, `Collections`, `Wrappers` | JavaScript string, number and array built-ins the code relies on |

Where the code changes state step by step, the model does too:

- the CSV append loops, the loader's counters, the database handle, the chat panel, the
  question box and the data browser are loops or classes;
- each such loop or class is proved equal to a specification function;
- the properties are then proved about that function.

External services are parameters of the model:

- the language model and the MCP server;
- the SQL engine;
- the child process;
- the clock.

Each service's possible outcomes are a datatype, so the error branches of the routes are
modelled, an unreadable request body included.

Where the prose description of the system and the code disagree, the model follows the
code:

- the chart advisor's trend keywords do not include "years";
- amount-like columns are only those containing "amount" or "total";
- the loader has no quality score, row hash or uniqueness constraint;
- the loader stores a blank or unparsable amount as 0 rather than rejecting it.

The loader opens the database file as it finds it and only appends: on a re-run the table
holds the earlier rows as well, and the `total_records` metadata then counts only that run's
inserts, not the table.

## Model

| member | source | states |
|---|---|---|
| CsvAppend.Bump | append_budget_data_csv.py:60 | the year's count goes up by one (from 0 when absent); no other count changes |
| CsvAppend.AppendRows | append_budget_data_csv.py:52-60 | the loop over a file's data rows computes `AddRows`, including `None` where `row[-1]` raises, and leaves `header_written` as it was |
| CsvAppend.AppendFiles | append_budget_data_csv.py:5-74 | the nested loops over files and rows produce exactly `Combine(files)`, including `None` where the script raises (an empty file, or an empty row under an empty header) |
| CsvAppend.CombineContents | append_budget_data_csv.py:33-60 | on success the header is written once, if and only if some file exists, and it is the first existing file's header; then come the data rows of every existing file in list order; `total_rows` is their number; `year_counts` counts each tallied year exactly, and there are at most `total_rows` tallied years |
| CsvAppend.AddRowDescribes | append_budget_data_csv.py:52-60 | one data row is appended and counted, and its last field is tallied only when the row is at least as wide as the header |
| CsvAppend.AddRowsDescribes | append_budget_data_csv.py:50-60 | the rows of one file keep the written/total/tally invariant, extended by those rows and their years |
| CsvAppend.BumpTallies | append_budget_data_csv.py:58-60 | the dictionary update keeps `year_counts` an exact tally of the years seen |
| CsvAppend.MissingSkipped | append_budget_data_csv.py:34-64 | a missing file anywhere in the list changes nothing |
| CsvAppend.FoldNone | append_budget_data_csv.py:37-41 | once the script has raised, later files change nothing |
| CsvAppend.FoldAppend | append_budget_data_csv.py:33 | processing the list in two parts equals processing it whole |
| CsvAppend.AnyPresentIff | append_budget_data_csv.py:34 | `AnyPresent` holds exactly when some file of the list exists |
| CsvAppend.NothingPresent | append_budget_data_csv.py:34-64 | with no existing file there are no data rows and no years |
| CsvAppend.AddRowsPrefixNone | append_budget_data_csv.py:57-59 | a row that raises stops the whole file, whatever follows it |
| CsvAppend.CombinePrefixNone | append_budget_data_csv.py:37-41 | a file that raises stops the whole script, whatever follows it |
| CsvAppend.PreviewRows | append_budget_data_csv.py:76-98 | a missing file prints nothing; an empty file raises; otherwise the header and the first `min(max(num_rows, 0), data rows)` data rows are shown, in order |
| CsvAppend.PreviewCombined | append_budget_data_csv.py:101-106 | the previewed combined file is the first header followed by all data rows, or is empty (so the preview raises) when no file exists |
| CsvToSqlite.CleanAmount | scripts/csv-to-sqlite.js:64-66 | the cleaned amount contains no "$", ",", "(" or ")" |
| CsvToSqlite.ParseAmount | scripts/csv-to-sqlite.js:61-72 | a missing or blank amount is 0; an amount in parentheses is never positive; otherwise the value is what `parseFloat` reads from the cleaned text, or 0 |
| CsvToSqlite.OrEmpty | scripts/csv-to-sqlite.js:76-80 | a missing field becomes "", and a present one is kept |
| CsvToSqlite.ParseYear | scripts/csv-to-sqlite.js:75 | the year is `parseInt`'s reading when that is a non-zero number, and null otherwise |
| CsvToSqlite.Converted | scripts/csv-to-sqlite.js:58-81 | there is one row per record |
| CsvToSqlite.ConvertedRows | scripts/csv-to-sqlite.js:58-81 | the i-th row is the i-th record converted: nothing is reordered, dropped or added |
| CsvToSqlite.Kept | scripts/csv-to-sqlite.js:74-86 | no more rows are stored than there are records |
| CsvToSqlite.KeptPlusFailures | scripts/csv-to-sqlite.js:82-85 | the stored rows and the failed inserts add up to the number of records |
| CsvToSqlite.KeptAll | scripts/csv-to-sqlite.js:57-88 | with no failure every record is stored, in order |
| CsvToSqlite.KeptFromItems | scripts/csv-to-sqlite.js:74-86 | every stored row comes from one of the records |
| CsvToSqlite.ParenthesisedDigits | scripts/csv-to-sqlite.js:63-71 | "(1234)" is stored as -1234 |
| CsvToSqlite.InnerSignIgnored | scripts/csv-to-sqlite.js:69-71 | "(-1234)" is also stored as -1234: the inner sign is ignored |
| CsvToSqlite.ParenthesisedForm | scripts/csv-to-sqlite.js:62-71 | every amount that starts with "(" and ends with ")", white space inside included, is stored as minus the magnitude of what its cleaned and trimmed text reads as (0 when that is not a number) |
| CsvToSqlite.LeadingMinusKept | scripts/csv-to-sqlite.js:63-68 | "-1234" without parentheses keeps its sign |
| CsvToSqlite.NonNumericIsZero | scripts/csv-to-sqlite.js:68-80 | text with no digit is stored as 0, and the raw text is kept beside it |
| CsvToSqlite.NoDigitsRemoved | scripts/csv-to-sqlite.js:65 | the cleaning brings in no digit |
| CsvToSqlite.YearRoundTrip | scripts/csv-to-sqlite.js:75 | a positive whole year printed as text is read back unchanged |
| CsvToSqlite.Upsert | scripts/csv-to-sqlite.js:102 | `INSERT OR REPLACE` sets the key's value and leaves every other key alone |
| CsvToSqlite.MetadataContents | scripts/csv-to-sqlite.js:103-106 | the metadata holds the inserted count (as text that parses back to it), the source file, the year span and the time; other keys are untouched |
| CsvToSqlite.MetadataRewrite | scripts/csv-to-sqlite.js:102-106 | writing the metadata again replaces the earlier values instead of adding rows |
| CsvToSqlite.Loader.constructor | scripts/csv-to-sqlite.js:21-55 | the loader opens the database with the rows and metadata it already holds (`CREATE TABLE IF NOT EXISTS` deletes nothing), with both counters at 0 |
| CsvToSqlite.Loader.InsertMany | scripts/csv-to-sqlite.js:57-88 | the table grows by the rows of the records whose insert succeeded, in order; `insertedCount` and `errorCount` grow by the number of successes and failures; the metadata is untouched |
| CsvToSqlite.Loader.InsertRows | scripts/csv-to-sqlite.js:58-87 | the loop over the rows adds exactly the kept rows to the table and counts the successes and failures |
| CsvToSqlite.Loader.InsertOne | scripts/csv-to-sqlite.js:59-86 | one insert either stores the row and counts it as inserted, or stores nothing and counts an error |
| CsvToSqlite.Loader.WriteMetadata | scripts/csv-to-sqlite.js:102-106 | the metadata becomes the four upserts over the old metadata; nothing else changes |
| CsvToSqlite.Convert | scripts/csv-to-sqlite.js:21-106 | the kept rows are appended to the rows the table already held; `total_records` parses back to the number of rows this run inserted, which equals the table's size when the table started empty and differs from it otherwise; the error count is the rest of the records |
| ChartAdvisor.FirstColumns | frontend/src/app/components/ChartVisualization.tsx:238 | `Object.keys(data[0] || {})`: no columns without rows, and never more columns than the first row has fields |
| ChartAdvisor.KeysShape | frontend/src/app/components/ChartVisualization.tsx:238 | the keys of a row hold each column name once; array-index names such as "2023" come first in ascending numeric order, and the other names follow in the order of their first field |
| ChartAdvisor.FirstPlainNamesDistinct | frontend/src/app/components/ChartVisualization.tsx:238 | the order of the non-index keys is `[...new Set(names.filter(isPlain))]` |
| ChartAdvisor.OrdinaryNamesInOrder | frontend/src/app/components/ChartVisualization.tsx:238 | with distinct names and no array-index name, the keys are the column names in field order |
| ChartAdvisor.YearNamedColumnFirst | frontend/src/app/components/ChartVisualization.tsx:238 | columns `program`, `2023` give the keys `["2023", "program"]` |
| QueryStore.FirstOccurring | frontend/src/lib/database.ts:114-118 | the index of the first word, in list order, that the text contains; `None` when the text contains none of them |
| QueryStore.Prohibited | frontend/src/lib/database.ts:111-118 | a statement is refused if and only if its upper-cased text contains one of DROP, DELETE, INSERT, UPDATE, ALTER, CREATE; the word named is the first of that list that occurs |
| QueryStore.FindProhibited | frontend/src/lib/database.ts:111-118 | the guard loop with its early exit computes `Prohibited` |
| QueryStore.FirstOccurringIs | frontend/src/lib/database.ts:114-117 | the first word found is the one with no earlier word occurring |
| QueryStore.RunQuery | frontend/src/lib/database.ts:107-126 | a refused statement throws and names the word; an accepted one returns the engine's rows, or rethrows with the prefix "SQL execution error: " |
| QueryStore.RejectedNeverRuns | frontend/src/lib/database.ts:114-121 | the engine's behaviour cannot change the answer to a refused statement |
| QueryStore.DropAnyCaseRejected | frontend/src/lib/database.ts:111-117 | "drop" in any letter case, anywhere in the text, is refused with DROP named |
| QueryStore.CreatedAtRejected | frontend/src/lib/database.ts:111-118 | any statement mentioning `created_at` is refused |
| QueryStore.ToUpperAppend | frontend/src/lib/database.ts:112 | upper-casing distributes over concatenation |
| QueryStore.Database.constructor | frontend/src/lib/database.ts:6 | the access layer starts with no connection held |
| QueryStore.Database.GetDatabase | frontend/src/lib/database.ts:8-14 | opens a connection only when none is held, and returns the held one |
| QueryStore.Database.CloseDatabase | frontend/src/lib/database.ts:129-134 | afterwards no connection is held; closing twice is harmless |
| QueryStore.Database.ExecuteQuery | frontend/src/lib/database.ts:107-126 | returns `RunQuery`'s answer, opens the handle if needed, and passes a statement to the engine only when it is not refused |
| QueryRoute.PromptPrograms | frontend/src/app/api/query/route.ts:32-48 | the prompt lists the first ten program names, in order, or all of them when there are fewer |
| QueryRoute.FinalAnswer | frontend/src/app/api/query/route.ts:103-105 | non-empty results give the model's answer followed by the record count; empty results give the fixed "No data found" text |
| QueryRoute.FinalAnswerCount | frontend/src/app/api/query/route.ts:104 | the count written into the answer reads back as the number of rows |
| QueryRoute.Handle | frontend/src/app/api/query/route.ts:22-130 | an unreadable body or a failing model call gives the 500 internal-error reply; a missing, empty or non-string question gives 400; confidence under 0.5 gives the unclear reply; a failing statement gives the 500 execution-failure reply; otherwise the success reply, whose answer is `FinalAnswer` of the model's answer and the row count and whose other fields are the rows, the statement, the type, the confidence, the count and the time |
| QueryRoute.InvalidQuestionStopsEarly | frontend/src/app/api/query/route.ts:26-28 | a missing, empty or non-string question gets 400 "Question is required", whatever the model or the store would do |
| QueryRoute.LowConfidenceNeverRuns | frontend/src/app/api/query/route.ts:72-86 | below 0.5 the reply is the same whatever the engine would do, and it is not a success |
| QueryRoute.HalfConfidenceRuns | frontend/src/app/api/query/route.ts:72 | a confidence of exactly 0.5 proceeds to execution |
| QueryRoute.ProhibitedSqlFails | frontend/src/app/api/query/route.ts:89-100 | a statement the guard refuses gives the 500 execution-failure reply, which echoes the SQL |
| QueryRoute.AnsweredText | frontend/src/app/api/query/route.ts:103-120 | an accepted statement whose engine returns rows is answered; no rows gives the fixed "No data found" text, and otherwise the text starts with the model's answer |
| ChartAdvisor.FindIndex | frontend/src/app/components/ChartVisualization.tsx:259 | the position of the first column satisfying the test |
| ChartAdvisor.Find | frontend/src/app/components/ChartVisualization.tsx:259-266 | `find` returns the first column satisfying the test, or nothing |
| ChartAdvisor.Analyze | frontend/src/app/components/ChartVisualization.tsx:195-350 | a chart is recommended only as line, bar or pie and always with a configuration; missing data or fewer than two rows gives no chart; a pie needs at most eight rows |
| ChartAdvisor.QueryTypeIgnored | frontend/src/app/components/ChartVisualization.tsx:195-199 | the query type never changes the result |
| ChartAdvisor.CaseInsensitive | frontend/src/app/components/ChartVisualization.tsx:200 | the letter case of the question never changes the result |
| ChartAdvisor.TrendGivesLine | frontend/src/app/components/ChartVisualization.tsx:249-270 | a trend keyword with a year column and an amount column gives a line chart on the first year-like and first amount-like columns |
| ChartAdvisor.ComparisonGivesBar | frontend/src/app/components/ChartVisualization.tsx:272-295 | without a trend chart, a comparison keyword with an amount column gives a bar chart, whatever the row count |
| ChartAdvisor.RankingGivesBar | frontend/src/app/components/ChartVisualization.tsx:297-320 | a ranking keyword with two to ten rows and no amount column gives a bar chart of the first label column and the second column |
| ChartAdvisor.DistributionGivesPie | frontend/src/app/components/ChartVisualization.tsx:322-347 | a distribution keyword with at most eight rows gives a pie chart when no earlier family applies |
| ChartAdvisor.TrendWithoutYearFallsThrough | frontend/src/app/components/ChartVisualization.tsx:249-295 | a trend question without a year column, with no keyword of another family, gives no chart |
| ChartAdvisor.ChartOnlyFromItsFamily | frontend/src/app/components/ChartVisualization.tsx:249-349 | each chart kind arises only from its own family's keyword and structural test |
| ChartAdvisor.VsInsideWord | frontend/src/app/components/ChartVisualization.tsx:272-275 | "vs" inside any word (such as "devs") counts as a comparison |
| ChartAdvisor.KeywordColumnNonEmpty | frontend/src/app/components/ChartVisualization.tsx:259-266 | a column found by a keyword test is never the empty name, so `find(...) \|\| columns[k]` keeps it |
| ChatRoute.TopicOf | frontend/src/app/api/chat/route.ts:10-34 | the lower-cased query is tested against the keyword groups in the order total/overall budget, police, revenue, trend, department; the first group that matches decides the topic (an if-and-only-if for each topic) |
| ChatRoute.DispatchIgnoresCase | frontend/src/app/api/chat/route.ts:11 | an upper-cased query gets the same answer |
| ChatRoute.PoliceBeforeRevenue | frontend/src/app/api/chat/route.ts:16-22 | a query naming both police and revenue is answered about the police |
| ChatRoute.NoKeywordGetsStarted | frontend/src/app/api/chat/route.ts:33 | with no keyword, the getting-started text is returned |
| ChatRoute.QueryOf | frontend/src/app/api/chat/route.ts:40-62 | the query is the last message's content; the context is every earlier message, in order, reduced to role and content; an empty list has no latest message |
| ChatRoute.ResultText | frontend/src/app/api/chat/route.ts:75-89 | chooses the first truthy member of `response`, `message` and `content`, else the JSON of the result; the text when the choice is a string, and nothing when it is not (its `replace` throws) |
| ChatRoute.ResponseText | frontend/src/app/api/chat/route.ts:68-109 | the server's text is used only for an OK reply with a result and no error whose chosen member is a string; otherwise the keyword table answers |
| ChatRoute.EscapeChar | frontend/src/app/api/chat/route.ts:89 | only `"` and newline are changed by escaping |
| ChatRoute.EscapeQuote | frontend/src/app/api/chat/route.ts:89 | the quote replacement on a single character |
| ChatRoute.EscapeNewline | frontend/src/app/api/chat/route.ts:89 | the newline replacement after the quote replacement, on one character |
| ChatRoute.EscapeByChar | frontend/src/app/api/chat/route.ts:89 | the two global replacements equal escaping character by character |
| ChatRoute.EscapedHasNoNewline | frontend/src/app/api/chat/route.ts:89 | the escaped payload holds no raw newline |
| ChatRoute.EscapeCharsNoNewline | frontend/src/app/api/chat/route.ts:89 | character-by-character escaping produces no raw newline |
| ChatRoute.Respond | frontend/src/app/api/chat/route.ts:36-126 | the body is the chunk of the response text followed by `d\n`; an empty message list throws |
| ChatRoute.ChunkIsOneLine | frontend/src/app/api/chat/route.ts:89-93 | the chunk is one line: its only newline is its last character |
| ChatRoute.FallbackWhenUnanswered | frontend/src/app/api/chat/route.ts:74-115 | a non-OK reply, an error, a missing result, a thrown exception or a first truthy member that is not a string all give the keyword table's answer |
| ChatClient.Payload | frontend/src/app/components/AIAnalysis.tsx:534-537 | only lines starting `0:"` have a payload; it ends just before a `"` of the line and contains no line terminator |
| ChatClient.DecodeLine | frontend/src/app/components/AIAnalysis.tsx:534-540 | a line decodes exactly when it has a payload |
| ChatClient.QuoteEscapedCons | frontend/src/app/api/chat/route.ts:89 | the encoder's quote replacement works one character at a time: a leading `"` becomes `\"`, any other leading character is kept, and the rest is replaced in turn |
| ChatClient.NewlinesRestored | frontend/src/app/components/AIAnalysis.tsx:538-539 | replacing `\n` restores the newlines of an escaped text |
| ChatClient.QuotesRestored | frontend/src/app/components/AIAnalysis.tsx:540 | then replacing `\"` restores the quotes |
| ChatClient.EscapedRunsToEnd | frontend/src/app/components/AIAnalysis.tsx:536 | an escaped text holds no line terminator, so the payload runs to the closing quote |
| ChatClient.RoundTrip | frontend/src/app/components/AIAnalysis.tsx:533-541 | decoding the route's chunk gives back the text, for every text with no backslash and no line terminator other than newline |
| ChatClient.AfterLines | frontend/src/app/components/AIAnalysis.tsx:533-541 | after the lines of a chunk, the content is the earlier content or the decoding of one of the lines |
| ChatClient.LastLineWins | frontend/src/app/components/AIAnalysis.tsx:541 | each decoded line replaces the content, so the last decodable line wins |
| ChatClient.ChunkDecoded | frontend/src/app/components/AIAnalysis.tsx:530-541 | the lines of the text chunk leave exactly the encoded text as the content |
| ChatClient.DoneIgnored | frontend/src/app/components/AIAnalysis.tsx:530-541 | the closing `d` chunk decodes to nothing and leaves the content unchanged |
| ChatClient.StreamRoundTrip | frontend/src/app/components/AIAnalysis.tsx:526-553 | reading the two chunks the route sends yields exactly the text |
| ChatClient.ChatRoundTrip | frontend/src/app/components/AIAnalysis.tsx:493-553 | end to end, the panel receives the text the chat route chose for the latest message |
| ChatClient.WithContent | frontend/src/app/components/AIAnalysis.tsx:543-549 | only messages with the id get the new content; the length and every other message are unchanged |
| ChatClient.UpdateTwice | frontend/src/app/components/AIAnalysis.tsx:541-549 | a second update by id overrides the first |
| ChatClient.UpdateNewest | frontend/src/app/components/AIAnalysis.tsx:517-549 | with a fresh id, only the new assistant message changes |
| ChatClient.RequestOf | frontend/src/app/components/AIAnalysis.tsx:499-502 | the request carries every message, in order, reduced to role and content |
| ChatClient.ChatPanel.constructor | frontend/src/app/components/AIAnalysis.tsx:417-425 | a panel opened with a query starts with it as message "1" from the user |
| ChatClient.ChatPanel.AdvanceLoadingStep | frontend/src/app/components/AIAnalysis.tsx:428-439 | the step goes up by one until the last step and never past it; each move schedules the next delay |
| ChatClient.ChatPanel.BeginSubmit | frontend/src/app/components/AIAnalysis.tsx:441-456 | a blank input or a request in flight is ignored; otherwise the trimmed input is added as a user message, the input is cleared, loading starts at step 0, and the conversation is posted |
| ChatClient.ChatPanel.ReceiveStream | frontend/src/app/components/AIAnalysis.tsx:516-553 | an empty assistant message is added, then shown with the content the stream decodes to, which is also returned |
| ChatClient.ChatPanel.ReadLines | frontend/src/app/components/AIAnalysis.tsx:531-552 | the inner loop over one chunk's lines keeps the shown message equal to the decoded content |
| ChatClient.ChatPanel.Fail | frontend/src/app/components/AIAnalysis.tsx:554-570 | a failed request appends the error message and its reason |
| ChatClient.ChatPanel.Finish | frontend/src/app/components/AIAnalysis.tsx:571-574 | loading stops and the step returns to 0 |
| ChatClient.StarFreeRun | frontend/src/app/components/AIAnalysis.tsx:111 | the longest run without `*` |
| ChatClient.BoldAt | frontend/src/app/components/AIAnalysis.tsx:111 | finds a `**…**` token at the start of the text exactly when one is there |
| ChatClient.BoldTokenRun | frontend/src/app/components/AIAnalysis.tsx:111 | a bold token is `**`, a non-empty star-free run, then `**` |
| ChatClient.Scan | frontend/src/app/components/AIAnalysis.tsx:111 | the split gives an odd number of pieces, and every odd-numbered piece is a bold token |
| ChatClient.ScanConcat | frontend/src/app/components/AIAnalysis.tsx:111 | the scan loses no character |
| ChatClient.BoldPiecesConcat | frontend/src/app/components/AIAnalysis.tsx:111 | joining the pieces gives back the text |
| ChatClient.Render | frontend/src/app/components/AIAnalysis.tsx:115-126 | a piece is bold exactly when it starts and ends with `**`, and it is shown without those markers |
| ChatClient.MatchesRenderBold | frontend/src/app/components/AIAnalysis.tsx:111-122 | every matched token is rendered bold with its inner text |
| ChatClient.MarkersAloneVanish | frontend/src/app/components/AIAnalysis.tsx:116-120 | a lone `**` is not a token but still renders as empty bold text |
| AnalyzeRoute.CleanBotLine | frontend/src/app/api/analyze/route.ts:59 | the cleaned text is trimmed |
| AnalyzeRoute.BotCut | frontend/src/app/api/analyze/route.ts:59 | the cut position, when there is one, lies inside the line |
| AnalyzeRoute.CutAtLastBot | frontend/src/app/api/analyze/route.ts:59 | the cut is at the last robot face when no line terminator comes before it |
| AnalyzeRoute.CleanAfterLastBot | frontend/src/app/api/analyze/route.ts:59-62 | such a line contributes its trimmed text after the last robot face |
| AnalyzeRoute.ScanLines | frontend/src/app/api/analyze/route.ts:52-73 | before any robot line nothing is captured |
| AnalyzeRoute.StoppedStays | frontend/src/app/api/analyze/route.ts:68-70 | once the prompt line has stopped the scan, later lines change nothing |
| AnalyzeRoute.NothingBeforeBot | frontend/src/app/api/analyze/route.ts:56-67 | lines before the first robot line are ignored |
| AnalyzeRoute.NoBotIdle | frontend/src/app/api/analyze/route.ts:52-73 | output without a robot face captures nothing |
| AnalyzeRoute.PromptEndsCapture | frontend/src/app/api/analyze/route.ts:68-70 | the first line containing "You:" is excluded and ends the capture |
| AnalyzeRoute.PromptIsContains | frontend/src/app/api/analyze/route.ts:68 | the prompt test is simply "contains You:" |
| AnalyzeRoute.CaptureAppends | frontend/src/app/api/analyze/route.ts:56-72 | during capture a robot line adds its cleaned text, if any, and any other line is appended verbatim with a newline |
| AnalyzeRoute.LastFew | frontend/src/app/api/analyze/route.ts:107 | `slice(-5)` gives the last `min(5, n)` lines |
| AnalyzeRoute.FallbackSources | frontend/src/app/api/analyze/route.ts:76-109 | a blank capture is replaced by the analysis lines among the meaningful lines, or else by the last at most five meaningful lines |
| AnalyzeRoute.Scraped | frontend/src/app/api/analyze/route.ts:112-116 | the response is never empty: it is the trimmed text, or the default sentence |
| AnalyzeRoute.ScanResponse | frontend/src/app/api/analyze/route.ts:48-73 | the loop with its `continue` and `break` captures exactly what `ScanLines` describes |
| AnalyzeRoute.ScrapeResponse | frontend/src/app/api/analyze/route.ts:46-116 | the split, the loop, the fallback and the trim compute `Scraped` |
| AnalyzeRoute.Status | frontend/src/app/api/analyze/route.ts:22-143 | 400 exactly for the refused query; every other reply is 200 |
| AnalyzeRoute.Handle | frontend/src/app/api/analyze/route.ts:14-145 | a falsy or blank query (and only that) gets "Query is required"; a run's output is scraped; an unreadable body gives the apology with the query "unknown" and the parse error; a truthy non-string query gives the apology echoing that value with the failed `trim` call's message; a failed run gives the apology with the request's query and the run's error |
| CliAnalyzer.CleanAmount | test.ts:47-50 | the amount keeps only digits, "." and "-"; an empty result is 0, and anything else is what `parseFloat` reads |
| CliAnalyzer.StripQuotes | test.ts:57 | stripping the surrounding quotes never lengthens the field |
| CliAnalyzer.CleanText | test.ts:57 | other fields come out trimmed |
| CliAnalyzer.QuotedField | test.ts:57 | a quoted field reads as its trimmed inside |
| CliAnalyzer.InRangeIsRange | test.ts:66-68 | the row filter keeps exactly the years 2019 to 2024 |
| CliAnalyzer.ValidData | test.ts:66-68 | `validData` holds exactly the cleaned rows whose year is in range |
| CliAnalyzer.CleanRows | test.ts:41-58 | each record is cleaned, in order |
| CliAnalyzer.KeepDigits | test.ts:48 | a digit string survives the cleaning |
| CliAnalyzer.ParenthesesDropped | test.ts:47-50 | "(1234)" becomes positive 1234 |
| CliAnalyzer.KeepParenthesised | test.ts:48 | the cleaning keeps only the inside of a parenthesised digit string |
| CliAnalyzer.ParenthesesConventionsDisagree | test.ts:47-50 | the same "(1234)" is 1234 here and -1234 in the SQLite loader (scripts/csv-to-sqlite.js:63-71) |
| CliAnalyzer.FirstYearFrom | test.ts:293 | the first position where "20" and two digits stand |
| CliAnalyzer.YearMention | test.ts:293-295 | a mentioned year is between 2000 and 2099 |
| CliAnalyzer.YearMentionParses | test.ts:293-295 | the year is `parseInt` of the first match |
| CliAnalyzer.TwentiethCenturyYear | test.ts:295 | "20dd" reads as 2000 + dd |
| CliAnalyzer.FourDigits | test.ts:295 | the value of four digits |
| CliAnalyzer.FirstTerm | test.ts:309-310 | `find` returns a term the question contains with no earlier term contained, or nothing when none is contained |
| CliAnalyzer.TrendRoute | test.ts:300-315 | hydro first; then "natural gas" or "gas" gives Natural Gas; then water; then the first trend term contained; nothing exactly when none of these is named |
| CliAnalyzer.AskQuestion | test.ts:286-348 | one if-and-only-if per answer in the source's order: yearly expenses (for the mentioned year) iff a year is mentioned with "expense" or "cost"; a trend iff not that, "trend" or "change" is asked and the trend branch names a category (the answer is that branch's); the summary iff neither and "tell me", "overview" or "summary" is asked; otherwise the model iff the key is usable, the help text iff not |
| CliAnalyzer.YearBeforeTrend | test.ts:293-297 | a question with a year and "cost" gets that year's expenses, whatever trend word it also holds |
| CliAnalyzer.HydroFirst | test.ts:300-302 | hydro is tried before gas and water |
| CliAnalyzer.NaturalGasIsGas | test.ts:303 | "natural gas" always contains "gas" |
| CliAnalyzer.TrendFallsThrough | test.ts:300-320 | a trend question that names no known category but asks for an overview gets the data summary |
| CliAnalyzer.PlaceholderKeyGivesHelp | test.ts:323-348 | the placeholder key and the empty key both give the help text |
| CliAnalyzer.Matching | test.ts:193-201 | sub-category matches are used when there are any; category matches are used only when none exist |
| CliAnalyzer.RowYears | test.ts:209-210 | the year of each row, in order |
| CliAnalyzer.TrendPoints | test.ts:209-215 | one point per distinct year, in ascending order, each with that year's sum |
| CliAnalyzer.SubCategories | test.ts:204 | the sub-category of each row, in order |
| CliAnalyzer.AnalyzeTrend | test.ts:191-233 | no match offers the first five distinct sub-categories of all rows, in order of first occurrence; otherwise the points in ascending year order, with the overall change (last minus first) exactly when there is more than one year |
| CliAnalyzer.SubCategoryFirst | test.ts:193-201 | when any sub-category matches, only sub-category matches are summed |
| CliAnalyzer.OneYearNoChange | test.ts:223-231 | a single-year trend reports no change |
| CliAnalyzer.TrendReport | test.ts:217-233 | the response is the heading, one line per point in order, and the closing change line |
| Dispensations.YearData | frontend/src/components/DataDispensations.tsx:31-33 | exactly the rows of the selected year |
| Dispensations.Tally | frontend/src/components/DataDispensations.tsx:46-95 | every group's total is positive |
| Dispensations.TallySum | frontend/src/components/DataDispensations.tsx:49-56 | each group's total is the sum of its positive amounts, and a group is present exactly when it has one |
| Dispensations.Accumulate | frontend/src/components/DataDispensations.tsx:49-95 | the `forEach` over the Map computes `Tally` |
| Dispensations.GroupTotals | frontend/src/components/DataDispensations.tsx:47-56 | a group is in the Map exactly when one of its rows has a positive amount, and its total is the positive sum of those amounts |
| Dispensations.Top | frontend/src/components/DataDispensations.tsx:58-100 | `min(limit, groups)` entries, largest first, each group once with its own total, and no entry left out larger than any listed |
| Dispensations.TopGroups | frontend/src/components/DataDispensations.tsx:58-61 | the `min(limit, groups)` largest groups, largest first, each once with the positive sum of its rows; every group left out is no larger than each one listed |
| Dispensations.ProgramSummary | frontend/src/components/DataDispensations.tsx:46-62 | the ten programs with the largest totals (all when there are fewer), largest first; no program left out has a larger total |
| Dispensations.CategoryBreakdown | frontend/src/components/DataDispensations.tsx:85-101 | the eight categories with the largest totals (all when there are fewer), largest first; no category left out has a larger total |
| Dispensations.SummaryEntryIsSum | frontend/src/components/DataDispensations.tsx:49-61 | each listed program's amount is the positive sum of its rows |
| Dispensations.BreakdownComplete | frontend/src/components/DataDispensations.tsx:85-101 | with at most eight categories, every category that has a positive row is listed with its sum |
| Dispensations.UnknownProgram | frontend/src/components/DataDispensations.tsx:51 | rows without a program are summed under "Unknown" |
| Dispensations.LineEnd | frontend/src/components/DataDispensations.tsx:71 | where `.` stops: the first line terminator |
| Dispensations.LastClose | frontend/src/components/DataDispensations.tsx:71 | the last ")" in a stretch of the text |
| Dispensations.ParenMatch | frontend/src/components/DataDispensations.tsx:71 | where `/\((.*)\)/` matches: a "(" with a later ")" |
| Dispensations.ParenToMinusWhole | frontend/src/components/DataDispensations.tsx:71 | a one-line "(x)" becomes "-x" |
| Dispensations.AccountingAmount | frontend/src/components/DataDispensations.tsx:69-73 | "($1,234)" reads as -1234 |
| Dispensations.Magnitude | frontend/src/components/DataDispensations.tsx:76-78 | `Math.abs` |
| Dispensations.RevenueTotal | frontend/src/components/DataDispensations.tsx:65-80 | the revenue total is never negative |
| Dispensations.ExpenseTotal | frontend/src/components/DataDispensations.tsx:66-80 | the expense total is never negative |
| Dispensations.RevenueVsExpenses | frontend/src/components/DataDispensations.tsx:64-83 | the accumulating loop computes both totals |
| Dispensations.TotalsPartition | frontend/src/components/DataDispensations.tsx:75-79 | the revenue and expense totals add up to the sum of every row's magnitude |
| Dispensations.RevenueOnlyByTag | frontend/src/components/DataDispensations.tsx:75-79 | only rows tagged exactly "Revenues" count as revenue |
| Dispensations.BalanceOf | frontend/src/components/DataDispensations.tsx:262-270 | "Surplus" exactly when revenue minus expenses is at least 0; the figure is the absolute difference |
| Dispensations.CurrencyUnit | frontend/src/components/DataDispensations.tsx:35-44 | the B/M/K unit keeps the shown figure at least 1 from 1000 up and below 1000 under a billion; no unit is used exactly below 1000 |
| Viewer.YearOptions | frontend/src/components/DataViewer.tsx:31-34 | "All" comes first, then every year of the data exactly once, latest first |
| Viewer.ProgramsOf | frontend/src/components/DataViewer.tsx:37 | the program of each row, in order |
| Viewer.ProgramOptions | frontend/src/components/DataViewer.tsx:36-39 | "All" followed by `min(20, distinct programs)` programs |
| Viewer.ProgramOptionsListed | frontend/src/components/DataViewer.tsx:36-39 | the programs offered are distinct programs of the data, in ascending order; every program not offered sorts after all that are, so the offered ones are the smallest twenty; all are offered when there are at most twenty |
| Viewer.FilteredData | frontend/src/components/DataViewer.tsx:45-68 | a row is shown exactly when it passes the search, year, program and type filters together |
| Viewer.NoFiltersShowAll | frontend/src/components/DataViewer.tsx:47-62 | an empty search and "All" everywhere show every row |
| Viewer.TypeCovers | frontend/src/components/DataViewer.tsx:57-59 | a row with a numeric amount is revenue, expense or both |
| Viewer.SearchIgnoresTermCase | frontend/src/components/DataViewer.tsx:47-51 | the search ignores the case of the term |
| Viewer.SearchFindsField | frontend/src/components/DataViewer.tsx:49-51 | a field equal to the term makes the row match |
| Viewer.JsSlice | frontend/src/components/DataViewer.tsx:72 | `slice` never returns more than it is given |
| Viewer.PageContents | frontend/src/components/DataViewer.tsx:70-73 | page p holds the rows from (p-1)·size on, in order, at most `size` of them |
| Viewer.TotalPages | frontend/src/components/DataViewer.tsx:75 | the ceiling of count/size: enough pages, no empty last page, and 0 exactly for no rows |
| Viewer.PagesCover | frontend/src/components/DataViewer.tsx:70-75 | every row is on some page from 1 to the page count |
| Viewer.PreviousPage | frontend/src/components/DataViewer.tsx:224-225 | Previous is disabled on page 1 and otherwise goes back one page, never below 1 |
| Viewer.NextPastEmptyResult | frontend/src/components/DataViewer.tsx:216-239 | with no matching rows, Next on page 1 goes to page 0 and the view reports row -49 first |
| Viewer.NextPage | frontend/src/components/DataViewer.tsx:237-239 | Next goes forward one page and never past the last page (page 1 when there are none); it agrees with the code whenever there is a page |
| Viewer.DataView.constructor | frontend/src/components/DataViewer.tsx:23-29 | the view opens with no filter, the initial page size and page 1 |
| Viewer.DataView.SetFilters | frontend/src/components/DataViewer.tsx:141-187 | a filter change applies and resets the page to 1 |
| Viewer.DataView.SetSearch | frontend/src/components/DataViewer.tsx:141-144 | the search changes and the page returns to 1 |
| Viewer.DataView.SetYear | frontend/src/components/DataViewer.tsx:152-155 | the year changes and the page returns to 1 |
| Viewer.DataView.SetProgram | frontend/src/components/DataViewer.tsx:168-171 | the program changes and the page returns to 1 |
| Viewer.DataView.SetType | frontend/src/components/DataViewer.tsx:184-187 | the type changes and the page returns to 1 |
| Viewer.DataView.SetPageSize | frontend/src/components/DataViewer.tsx:200-203 | the page size changes and the page returns to 1 |
| Viewer.DataView.Previous | frontend/src/components/DataViewer.tsx:224-225 | moves to `PreviousPage`; nothing else changes |
| Viewer.DataView.Next | frontend/src/components/DataViewer.tsx:236-239 | moves to `NextPage` (corrected behaviour; see ## Findings); nothing else changes |
| Autocomplete.Suggestions | frontend/src/components/analysis/SearchInput.tsx:60-67 | there are no suggestions unless the trimmed input is longer than two characters; otherwise at most `limit` catalogue entries that contain the untrimmed input, ignoring case, and all of them when at most `limit` match |
| Autocomplete.EarlierMatchesFirst | frontend/src/app/components/SearchInput.tsx:44-51 | catalogue order is kept: earlier matches come first |
| Autocomplete.NextIndex | frontend/src/components/analysis/SearchInput.tsx:92-96 | ArrowDown goes to the next index and wraps from the last to 0 |
| Autocomplete.PreviousIndex | frontend/src/components/analysis/SearchInput.tsx:98-102 | ArrowUp goes to the previous index, and from 0 or -1 to the last |
| Autocomplete.ArrowsInverse | frontend/src/app/components/SearchInput.tsx:75-86 | up undoes down and down undoes up on any selected suggestion |
| Autocomplete.Downs | frontend/src/components/analysis/SearchInput.tsx:92-96 | repeated ArrowDown presses stay within the suggestions |
| Autocomplete.DownsWrap | frontend/src/components/analysis/SearchInput.tsx:92-96 | k presses move k places forward, wrapping once |
| Autocomplete.DownCycles | frontend/src/app/components/SearchInput.tsx:75-80 | one press per suggestion comes back to the start |
| Autocomplete.SearchBox.ForAnalysis | frontend/src/components/analysis/SearchInput.tsx:17-55 | the analysis page's box: its seven questions, four shown, empty and closed |
| Autocomplete.SearchBox.ForHome | frontend/src/app/components/SearchInput.tsx:11-40 | the home page's box: its twenty questions, five shown, empty and closed |
| Autocomplete.SearchBox.InputChange | frontend/src/components/analysis/SearchInput.tsx:69-73 | the list shows once the trimmed text is longer than two characters, and the selection resets |
| Autocomplete.SearchBox.Submit | frontend/src/app/components/SearchInput.tsx:59-64 | submits the query, then clears the input, closes the list and resets the selection |
| Autocomplete.SearchBox.KeyDown | frontend/src/components/analysis/SearchInput.tsx:83-117 | with the list hidden or empty only Enter on non-blank input acts; otherwise the arrows move as above, Enter submits the selected suggestion or else the non-blank input, and Escape closes the list and resets the selection; the selection stays within [-1, n-1] |
| Autocomplete.SearchBox.ClickOutside | frontend/src/components/analysis/SearchInput.tsx:124-138 | a click outside closes the list |
| Autocomplete.SearchBox.SearchButton | frontend/src/app/components/SearchInput.tsx:136-142 | the search button submits non-blank input and otherwise does nothing |
| BudgetRows.Values | frontend/src/components/DataViewer.tsx:49 | `Object.values(row)` gives the nine fields |
| BudgetRows.CommaFreeAmount | frontend/src/components/DataViewer.tsx:57 | commas are dropped; an empty result is 0; otherwise the value is `parseFloat`'s reading |
| BudgetRows.YearsOf | frontend/src/components/DataDispensations.tsx:27 | the year of each row, in order |
| BudgetRows.YearsListed | frontend/src/components/DataDispensations.tsx:26-29 | the year list holds each year of the data and nothing else |
| BudgetRows.YearsDescending | frontend/src/components/DataDispensations.tsx:26-29 | each year is listed once, latest first |
| Numbers.ParseFloat | scripts/csv-to-sqlite.js:68 | `parseFloat` yields a number only when the text holds a digit |
| Numbers.NatToString | scripts/csv-to-sqlite.js:103 | `toString` of a whole number is a non-empty run of decimal digits with no leading zero |
| Numbers.ParseNatToString | scripts/csv-to-sqlite.js:103 | `parseInt` reads back what `toString` wrote |
| Numbers.OrZero | scripts/csv-to-sqlite.js:68 | `x \|\| 0`: NaN and 0 become 0 |
| Text.Trim | frontend/src/app/api/analyze/route.ts:112 | `trim` leaves no white space at either end |
| Text.TrimEmptyIffAllWhite | frontend/src/app/api/analyze/route.ts:21 | a string trims to "" exactly when it is all white space |
| Text.ToLowerIdempotent | frontend/src/app/api/chat/route.ts:11 | lower-casing twice is lower-casing once |
| Text.JoinSplit | frontend/src/app/api/analyze/route.ts:46-104 | joining the pieces of a split with the same separator gives the text back |
| Text.LastIndexOf | frontend/src/app/components/AIAnalysis.tsx:536 | the last position of a character before a bound, or none when it does not occur there |
| Collections.Filter | frontend/src/components/DataViewer.tsx:46 | `filter` keeps exactly the elements that pass, in order |
| Collections.Take | frontend/src/components/DataDispensations.tsx:61 | `slice(0, n)` is a prefix of length `min(n, length)` |
| Collections.Distinct | frontend/src/components/DataViewer.tsx:32 | `[...new Set(xs)]` holds every value of the list exactly once |
| Collections.SortStrings | frontend/src/components/DataViewer.tsx:37 | `sort()` on strings is ascending and a permutation |

## Left out

- Letter case: upper- and lower-casing cover ASCII letters only. JavaScript maps all of
  Unicode.
- Numbers:
  - `parseFloat` reads sign, digits and a fraction; exponents, "Infinity" and the hex
    forms of `parseInt` beyond "0x" are not modelled.
  - Amounts are exact rationals, so floating-point rounding is not modelled.
  - `toLocaleString`, `toFixed` and `formatNumber` appear as function parameters
    (`CliAnalyzer.TrendReport`) or as the unit choice (`Dispensations.CurrencyUnit`); their
    digits are not modelled.
- String order: strings compare by code point. JavaScript compares UTF-16 code units, and
  the two orders differ only outside the Basic Multilingual Plane.
- Texts:
  - ChatRoute.CannedText: only the opening sentence of each canned chat answer is kept;
    the Python scripts that follow it are not.
  - The analysis route's error text (analyze/route.ts:126-140) is modelled as the structured
    reply `Apology(echo, error)` rather than the full string; the chat panel's error message
    (`ChatClient.ErrorText`) is the full text.
  - AnalyzeRoute.TrimNotAFunction: the message of the `TypeError` that `query.trim()` raises
    on a truthy non-string query is given in the V8 engine's wording; other engines word
    it differently.
- External services and process I/O (they are inputs of the model instead):
  - the language-model calls, the MCP `fetch`, the browser `fetch` calls and the clipboard;
  - the file system reads and writes, and the printing of progress;
  - `child_process.exec` and the shell quoting of the query it builds;
  - the readline loop of the command-line tool.
- Streaming and timing: `TextDecoder` chunk boundaries, the `setTimeout` delays (only their
  durations are modelled), async ordering and the random MCP session id.
- Chat panel:
  - the query-evidence request before the chat request;
  - the initial-query effect, which repeats the submit path;
  - the outer code-block split of `MessageContent`, of which the bold split inside the text
    parts is modelled;
  - the `isFocused` flag of the analysis page's question box, which only styles the box.
- Command-line analyser:
  - the dataframe (danfo) operations are modelled as the sequence operations they
    perform;
  - `getYearlyExpenses` (test.ts:92-132), `analyzeHydroTrend` (test.ts:134-189),
    `getDataSummary` (test.ts:240-284) and `buildDataContext` are not part of this model:
    they filter the rows, sum amounts, group into the top programs and compute a yearly
    change before formatting the text; only the routing to them is modelled, together with
    `analyzeTrend`;
  - CliAnalyzer.TrendPoints: a NaN amount counts as 0 in a year's sum, where danfo's sum
    skips it (the same total).
- CSV append script: the printed summary of year counts, sorted in reverse, is not
  modelled; the counts it prints are.
- Pandas scripts: `append_budget_data.py` and `python_functions/append_budget_data.py` are
  thin wrappers over `read_csv` and `concat`, and are not part of this model.
- SQL and rendering:
  - the schema DDL and the aggregate statistics SQL of the loader and the access layer;
  - all JSX rendering, styling and animation;
  - `page.tsx`, which only adds floats and formats them.

## Findings

| source | as written | input that shows it | evidently intended | confidence | as-written member | corrected member |
|---|---|---|---|---|---|---|
| frontend/src/components/DataViewer.tsx:237-239 | Next is disabled only when `currentPage === totalPages`, then moves to `Math.min(totalPages, currentPage + 1)` | filters that match no row: `totalPages` is 0, Next is enabled on page 1 and moves to page 0, and the view then reads "Showing -49 to 0 of 0 results" | the page never goes below 1 (Next is disabled when there is at most one page) | not executed | Viewer.NextPastEmptyResult | Viewer.NextPage |
