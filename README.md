# Quiz-chain resolution engine, modelled in Dafny

This project models the core of an LLM quiz solver:
- `solve_quiz` in app/quiz/solver.py fetches a quiz page, extracts the question, submission address and attached data, and asks an LLM for an answer. It submits that answer up to `MAX_RETRIES` times, refining it between attempts, and follows an accepted answer's next URL one level deeper, to a depth ceiling of 10 and inside a shared time window.
- Around it sit the content normaliser (app/quiz/extractor.py), the prompt assembly, provider fallback and reply typing (app/quiz/llm.py), and the submission interpreter (app/quiz/submitter.py).
- The two HTTP front ends are app/server/router.py and the serverless handler api/index.py.

Everything outside Python's own control flow is an input:
- the parsed page, the JavaScript variables and the downloads;
- `json.loads`/`json.dumps`, `str()` and `DataFrame.to_string()`;
- the LLM providers' replies, the submission endpoint's replies and the clock.

In `Environment.World`, each of these inputs is a function indexed by how many requests of its kind came before. The world also records a trace of the page fetches, prompts and submissions, each tagged with its chain depth, so that properties of a whole chain can be stated. Examples:
- at most `MAX_RETRIES` submissions per depth;
- at most `11 * MAX_RETRIES` submissions per request;
- no page fetch after a failed entry check.

Files, one module each:
- `wrappers.dfy`: Option and Result.
- `strings.dfy`: the Python `str` operations used.
- `json.dfy`: JSON values, Python truthiness, `dict.get`.
- `extractor.dfy`
- `environment.dfy`: settings, library oracles, the world, exceptions.
- `llm.dfy`
- `attachments.dfy`: the download loop of `solve_quiz`.
- `submitter.dfy`
- `solver.dfy`
- `router.dfy`
- `serverless.dfy`

Loops in the source become `while` loops in methods, and each method is proved against a function that states what it computes. Examples are the selector cascade, the script scan, the link filter, the PDF page loop, the prompt builder, the download dispatch, the retry loop and the serverless selector loop. The retry loop is specified by `Solver.LoopEnded`. It records the loop as one `Try` per attempt:
- the answer submitted, the counters of clock readings, page fetches, prompts and submissions before and after the attempt, the step it took, and the run of the next quiz when it chained;
- each attempt is `Judged` at its position, given the submission reply it read, and starts from the answer and the counters the attempt before it left (`Solver.Tried`);
- only the last attempt may finish, and the result is what that attempt concluded.

`Solver.QuizEnded` states the same for `solve_quiz` as a whole, and `Solver.QuizUnique` shows that these predicates leave exactly one ending for a given world.

The recursion of `solve_quiz` through an accepted answer's next URL is kept. Its termination measure is `11 - depth` (the ceiling plus one, minus the depth), then a rank per method of the cycle SolveQuiz → SolveAndSubmit → RetryLoop → Round → Attempt → Judge → Follow → SolveQuiz.

Points of behaviour the model keeps as the code has them:
- A failed depth check, time-window check, page fetch or question extraction raises `ValueError`. Inside a chain, the parent attempt's `except` absorbs a child's exception, which then costs the parent one retry (see `Solver.Follow` and `Solver.RetryLoop`). At the top level it becomes a 400 from app/server/router.py.
- The elapsed time is checked on entry and after a rejected answer only. A rejection outside the window returns the endpoint's own reply.
- A JavaScript variable sets the question only while the question is still falsy, so the first dict whose `question` value is truthy sets it (`Extractor.JsFirstTruthyQuestion`).

## Model

| member | source | states |
|---|---|---|
| Llm.DefaultsPreferAipipe | app/utils/config.py:17-24 | With the default settings (secret "changeme", AIPipe on, no OpenAI key) the answer is AIPipe's truthy string or list content, and "42" otherwise. |
| Json.Or | app/quiz/solver.py:142 | Python `a or b`: truthy exactly when either operand is; the first operand when it is truthy, the second when it is not. |
| Json.Lookup | app/quiz/solver.py:138 | Dict lookup finds a value exactly when some binding has the key, and the value found is bound to that key. |
| Json.Get | app/quiz/solver.py:138 | `dict.get` gives the binding for a present key and None for a missing one. |
| Strings.Take | app/quiz/extractor.py:37 | `s[:n]` has length `min(len(s), n)` and is a prefix of `s`. |
| Strings.StripEmptyIffBlank | app/server/router.py:24 | `not v.strip()` holds exactly when `v` is empty or all whitespace. |
| Strings.StripIdempotent | app/quiz/llm.py:188 | Stripping twice is stripping once. |
| Strings.DemoRewriteComplete | app/quiz/solver.py:79-80 | After replacing every "/demo" by "/submit", no "/demo" is left, for every input. |
| Strings.QuizRewriteCanLeaveSegment | app/quiz/solver.py:81-82 | Replacing "/quiz/" by "/submit/" can leave a "/quiz/": "/quiz/quiz/" becomes "/submit/quiz/". |
| Strings.LastIndexOfShape | app/quiz/extractor.py:75 | `rfind` gives the last position holding the character, or -1 when none does. |
| Extractor.ParseHtmlForQuiz | app/quiz/extractor.py:12-99 | The method computes the five-key result `ParsedQuiz`, piece by piece, with loops. |
| Extractor.SelectQuestion | app/quiz/extractor.py:26-37 | The selector loop with `break`, then the 500-character fallback, computes `PageQuestion`. |
| Extractor.FirstQualifyingIsFirst | app/quiz/extractor.py:27-33 | The cascade finds nothing exactly when no selector qualifies. Otherwise it gives the text of a qualifying selector with none qualifying before it. |
| Extractor.SelectorThreshold | app/quiz/extractor.py:31 | The three selectors naming "question" accept any non-empty text; h1, h2 and p need more than 20 characters. |
| Extractor.FallbackQuestion | app/quiz/extractor.py:36-37 | With no qualifying selector, the question is the first 500 characters of all page text. |
| Extractor.JsKeepsTruthy | app/quiz/extractor.py:61-64 | A truthy question or address is never replaced by JavaScript data. |
| Extractor.JsFirstTruthyQuestion | app/quiz/extractor.py:61-62 | From a falsy question, the first dict whose `question` is truthy supplies it. |
| Extractor.JsNoTruthyYet | app/quiz/extractor.py:61-62 | Without such a dict the question stays falsy. |
| Extractor.JsFirstTruthyTarget | app/quiz/extractor.py:63-64 | From a falsy form address, the first dict whose `submit_url` is truthy supplies it. |
| Extractor.JsNoTruthyTargetYet | app/quiz/extractor.py:63-64 | Without such a dict the address stays falsy. |
| Extractor.ApplyJsData | app/quiz/extractor.py:53-64 | The variable loop computes the fold over question and address, and collects the dict values. |
| Extractor.JsDictsAreTheDicts | app/quiz/extractor.py:54-57 | The collected values are all dicts, and every dict-valued variable is among them. |
| Extractor.ScanScripts | app/quiz/extractor.py:67-83 | The script loop with its `continue`s collects exactly `ScriptObjects`. |
| Extractor.ScanScript | app/quiz/extractor.py:68-81 | One script contributes exactly `ScriptObject`: nothing if it is empty, has no braces or its candidate does not parse. |
| Extractor.CandidateIsOuterBraceSpan | app/quiz/extractor.py:72-76 | The candidate runs from the first `{` to the last `}` inclusive. |
| Extractor.CandidateNeedsBothBraces | app/quiz/extractor.py:72 | A candidate exists exactly when the text has both a `{` and a `}`. |
| Extractor.CandidateEmptyWhenReversed | app/quiz/extractor.py:74-76 | The candidate is empty exactly when the last `}` precedes the first `{`. |
| Extractor.ScriptObjectsAppend | app/quiz/extractor.py:67-83 | Script objects are collected in document order. |
| Extractor.SkippedScript | app/quiz/extractor.py:69-81 | An empty script, one with no text, one without braces, or one whose candidate does not parse adds nothing, and the scan goes on. |
| Extractor.EmbeddedOrder | app/quiz/extractor.py:53-99 | `embedded_json` holds the JavaScript dicts first, then the script objects. A failed table parse gives no tables. |
| Extractor.CollectLinks | app/quiz/extractor.py:46-50 | The anchor loop computes `DataLinks`. |
| Extractor.DataLinksFilter | app/quiz/extractor.py:46-50 | A link is kept exactly when it is an href whose lower-cased form ends with a data suffix. |
| Extractor.DataLinksAppend | app/quiz/extractor.py:46-50 | The filter keeps document order. |
| Extractor.TestPageExample | app/tests/test_solver.py:7-21 | The test page gives question "What is 2+2?", address "/submit", and no links, JSON or tables. |
| Extractor.ParsePdf | app/quiz/extractor.py:121-128 | The page loop's result is the collected page texts joined by "\n". |
| Extractor.PdfStopsAtBrokenPage | app/quiz/extractor.py:121-127 | An error at a page keeps the pages already collected, each the page's text or "" when it has none. |
| Extractor.AllReadableTexts | app/quiz/extractor.py:124-125 | With no error, there is one text per page, in order. |
| Llm.AipipeAnswer | app/quiz/llm.py:21-61 | AIPipe answers exactly when the secret is set and the content is a truthy string or list (the only contents the `answer[:200]` log accepts), and then gives the content. |
| Llm.OpenAiAnswer | app/quiz/llm.py:78-98 | OpenAI answers exactly when the key starts with "sk-" and the content is a string. |
| Llm.CallLlm | app/quiz/llm.py:114-129 | AIPipe when it is on and answers, then OpenAI, then "42". It never raises, with neither credential the answer is "42", and the answer is always a string or AIPipe's truthy list. |
| Llm.UnsliceableAipipeFallsBack | app/quiz/llm.py:56-120 | AIPipe content that is a number, boolean, null or dict never becomes the answer: OpenAI's string or "42" is used instead. |
| Llm.AipipeOffIgnored | app/quiz/llm.py:115-120 | With AIPipe off, its reply plays no part. |
| Llm.ParseResponse | app/quiz/llm.py:188-211 | The reply is typed exactly when it is a string; otherwise `strip()` raises. |
| Llm.ParseScalar | app/quiz/llm.py:198-209 | A non-JSON text becomes a boolean, a float of itself, an int, or the text itself. |
| Llm.ParseNumber | app/quiz/llm.py:204-209 | For ASCII digit text: float exactly when the text has a point and is a float literal, int exactly when it has no point and is an integer literal, with that value, and otherwise the text. |
| Llm.ParseJsonFirst | app/quiz/llm.py:190-195 | A stripped reply opening with `{` or `[` that parses is the parsed value. |
| Llm.ParseBooleans | app/quiz/llm.py:198-201 | true/yes and false/no in any letter case are booleans, whatever `json.loads` does. |
| Llm.ParseNumbers | app/quiz/llm.py:204-211 | Below JSON and booleans: float, int or the stripped text, as `ParseNumber` decides for ASCII digit text. |
| Llm.UnparsedJsonStaysText | app/quiz/llm.py:188-211 | A reply opening with `{` or `[` that `json.loads` rejects is returned as the stripped text: it is no boolean and no number. |
| Llm.ParseTextIsStable | app/quiz/llm.py:188-211 | A reply that stays text is the stripped reply, and typing it again changes nothing. |
| Llm.IntRoundTrip | app/quiz/llm.py:204-207 | The decimal text of any integer, even with trailing whitespace, comes back as that integer. |
| Llm.DecimalIsFloat | app/quiz/llm.py:205-206 | `a.b` over digit runs becomes a float. |
| Llm.TwoPointsStayText | app/quiz/llm.py:204-211 | A text with two points is rejected by `float()` and stays text. |
| Llm.PromptFraming | app/quiz/llm.py:143-167 | Every prompt opens with "Question: q\n" and closes with the fixed instruction. |
| Llm.PromptTotal | app/quiz/llm.py:143-167 | The prompt fails only through a JSON dump. |
| Llm.PromptBuildsExactly | app/quiz/llm.py:143-167 | Whether the prompt can be built depends only on the JSON dumps of the tables and the embedded JSON, never on the question. |
| Llm.PromptSeesOnlyHeads | app/quiz/llm.py:145-163 | Two contexts that agree on the first 10 rows of each table, the first 20 rows of each CSV frame, the first 2000 PDF characters and the embedded JSON give the same prompt. |
| Llm.BuildPrompt | app/quiz/llm.py:142-167 | The part-by-part assembly computes `Prompt`. |
| Llm.BuildTableSection | app/quiz/llm.py:145-149 | The table loop computes the table section. |
| Llm.BuildCsvSection | app/quiz/llm.py:151-155 | The CSV loop computes the CSV section. |
| Llm.NoProviderAnswers42 | app/quiz/llm.py:122-129 | Without any credential, `solve_with_llm` answers the integer 42. |
| Llm.SolveWithLlm | app/quiz/llm.py:132-174 | One prompt per call, and none when the prompt cannot be built; the answer is `Solve` of the providers' replies. |
| Attachments.FileNameShape | app/quiz/solver.py:101 | `Path.name` is the last slash-free segment after trailing slashes are dropped. |
| Attachments.SuffixShape | app/quiz/solver.py:102 | `Path.suffix` is empty, or a final dot-initial segment that is not the whole name. |
| Attachments.PutLookup | app/quiz/solver.py:107 | Storing a frame under a name makes that name yield it and leaves other names alone. |
| Attachments.Apply | app/quiz/solver.py:100-118 | One download stores a decoded frame under its file name, appends a PDF's entry to `pdf_text`, or does nothing. |
| Attachments.ParseDownloads | app/quiz/solver.py:100-118 | The download loop computes `ApplyAll`. |
| Attachments.ApplyAllSplit | app/quiz/solver.py:100 | Downloads are processed in order. |
| Attachments.FailedDownloadIsAbsent | app/quiz/solver.py:104-118 | A skipped or failed file leaves the context as if it were absent. |
| Attachments.DownloadsKeepPageData | app/quiz/solver.py:93-98 | The loop never touches `tables` or `embedded_json`. |
| Attachments.PdfTextAccumulates | app/quiz/solver.py:113-115 | `pdf_text` is the concatenation of "\n\nname:\ntext" over the PDFs, in order. |
| Attachments.LastDecodedIsLast | app/quiz/solver.py:105-112 | The frame that counts for a name is that of the last file decoded under it. |
| Attachments.CsvLastWins | app/quiz/solver.py:105-112 | `csv_data[name]` is the last frame decoded under that name, or the earlier entry; the key is present exactly then. |
| Attachments.CsvKeysUnique | app/quiz/solver.py:107-111 | `csv_data` keeps one entry per name. |
| Submitter.SubmitAnswer | app/quiz/submitter.py:10-83 | One POST of the payload for a string address, with its interpretation. A non-string address gives the error dict and no POST. |
| Submitter.PayloadAlwaysSends | app/quiz/submitter.py:27-30 | The payload always holds the email and the answer. |
| Submitter.PayloadKeysOnly | app/quiz/submitter.py:27-38 | It holds no keys but email, answer, secret and url. |
| Submitter.PayloadSecret | app/quiz/submitter.py:33-34 | `secret` is present exactly when the secret is non-empty, with that value. |
| Submitter.PayloadUrl | app/quiz/submitter.py:37-38 | `url` is present exactly when the original URL is truthy, with that value. |
| Submitter.JsonIn | app/quiz/submitter.py:64 | `"json" in result` raises exactly when the result is not a string, list or dict. |
| Submitter.TransportErrorIsReported | app/quiz/submitter.py:76-83 | A request failure returns `{status: error, message, answer}` and does not raise. |
| Submitter.NonJsonIsSuccess | app/quiz/submitter.py:52-61 | A 2xx non-JSON body gives `{status: success, answer, raw_response: text[:500]}`. |
| Submitter.HttpbinEchoIsCorrect | app/quiz/submitter.py:64-71 | An httpbin address whose result has "json" gives `correct: True` with the echo. |
| Submitter.JsonIsVerbatim | app/quiz/submitter.py:73-74 | Otherwise the parsed JSON is returned unchanged. |
| Submitter.HttpbinWithoutJsonIsVerbatim | app/quiz/submitter.py:64-74 | An httpbin result without "json" is returned unchanged. |
| Submitter.HttpbinScalarRaises | app/quiz/submitter.py:64 | An httpbin result that is a number, boolean or null raises at `in`. |
| Solver.DepthCeiling | app/quiz/solver.py:44-45 | Entry fails with "Max recursion depth exceeded" exactly when depth > 10, before reading the clock. Depth 10 still runs. |
| Solver.EntryKeepsStart | app/quiz/solver.py:47-52 | A given start time is the chain's start time. |
| Solver.Enter | app/quiz/solver.py:44-52 | The entry checks read the clock twice when no start is given and once otherwise. |
| Solver.DemoAddress | app/quiz/solver.py:79-80 | An address with "/demo" has every "/demo" replaced by "/submit", and none remains. |
| Solver.QuizAddress | app/quiz/solver.py:81-82 | Otherwise an address with "/quiz/" has "/quiz/" replaced by "/submit/". |
| Solver.OriginAddress | app/quiz/solver.py:83-87 | Otherwise the address is `scheme://netloc/submit`, ending with "/submit". |
| Solver.NetlocShape | app/quiz/solver.py:85-87 | The netloc holds no '/', '?' or '#'. |
| Solver.NonTextAddressRaises | app/quiz/solver.py:79-86 | A non-string URL raises an exception other than `ValueError` before any rewrite is made. A number, boolean or null raises at the `in` test. A list or dict passes that test and then raises at `.replace`, or inside `urlparse`. |
| Solver.FetchFailureIsValueError | app/quiz/solver.py:57-63 | A fetch failure raises "Browser automation failed: …". |
| Solver.NoQuestionFails | app/quiz/solver.py:74-75 | A falsy question raises "Could not extract question from page". |
| Solver.ExtractedTargetWins | app/quiz/solver.py:70-98 | The extracted address is used when truthy and inferred otherwise; the context is the download loop's result. |
| Solver.Prepare | app/quiz/solver.py:57-98 | One page fetch, recorded with the chain start, then preparation. |
| Solver.InitialAnswer | app/quiz/solver.py:121-129 | A raising LLM step gives "Unable to solve"; otherwise its answer is kept. |
| Solver.FirstAnswer | app/quiz/solver.py:121-129 | At most one prompt, and the answer is `InitialAnswer` of the LLM step. |
| Solver.AcceptanceRule | app/quiz/solver.py:138-147 | Accepted exactly when `correct` is truthy or `status == "success"`; it continues exactly when `next_url` or `url` is truthy. |
| Solver.TransportErrorRejected | app/quiz/solver.py:138 | A transport-error dict is never accepted. |
| Solver.RawSuccessEndsChain | app/quiz/solver.py:138-147 | A non-JSON success is accepted, with no next quiz. |
| Solver.Attempt | app/quiz/solver.py:133-176 | One submission at this depth, of the current answer, posted with the next submission reply, and no fetch. What follows is `Judged` of that result, from the counters after the submission to the counters after the attempt. |
| Solver.JudgedExits | app/quiz/solver.py:138-165 | A finished attempt was accepted, chained or rejected late. Accepted and late results are the submission's own result: accepted with no next URL, or rejected with the elapsed time over the window. A chained result is what the quiz at the accepted reply's next URL returned, solved one level deeper from the same start (`QuizEnded`). A retry keeps or refines the answer, and keeps it on the last attempt. |
| Solver.Judge | app/quiz/solver.py:138-165 | After one submission: an exception or an unusable result ends the attempt with no further clock, page or model reading. An accepted answer with no next URL returns the result. An accepted answer with a next URL returns what that quiz returns when solved one level deeper from the same start, and when that quiz raises, the attempt ends with its exception. A rejection goes to `Rejected`. Every counter after the attempt is stated. |
| Solver.Rejected | app/quiz/solver.py:152-165 | A rejection reads the clock once. Over the window it returns the result. Otherwise the loop goes on with the answer refined from the next model reply, one prompt at most, before the last attempt, and with the same answer on it. |
| Solver.Follow | app/quiz/solver.py:142-145 | The next quiz is solved one level deeper with the same start time, and ends as `QuizEnded` states, from the counters Follow starts from to those it leaves. The attempt finishes with that quiz's result, exit `Chained`, or ends with the exception it raised. |
| Solver.Refine | app/quiz/solver.py:159-165 | The LLM is asked with the previous answer quoted, one prompt at most; the answer is its reply, or the previous answer when that raises. |
| Solver.RetryLoop | app/quiz/solver.py:132-183 | Ends as `LoopEnded` states, from the counters it starts from to those it leaves. So attempt k submits `run.tries[k].answer` and reads the submission reply its counters point at; the first answer is the starting one and each later one is what the attempt before it left. The loop stops at the first attempt that finishes, and never raises. Every attempt is posted, and at most `MAX_RETRIES` are made. |
| Solver.Round | app/quiz/solver.py:133-176 | One pass of the loop body from the state `Going` describes: the attempt is appended to the run. A finishing attempt, or an error on the last one, ends the loop as `LoopEnded` states; any other attempt leaves the loop `Going`, with the answer the attempt left. |
| Solver.RoundEnded | app/quiz/solver.py:132-176 | An attempt judged after a run of attempts that did not end the loop extends that run. If it finishes, or fails on the last attempt, the loop has ended as `LoopEnded` states; otherwise the loop goes on. |
| Solver.TriedSnoc | app/quiz/solver.py:132-176 | An attempt whose answer and counters are those the run so far left, judged at its position, extends the run as `Tried` describes. |
| Solver.LoopExhausted | app/quiz/solver.py:178-183 | `MAX_RETRIES` attempts none of which ended the loop end it with "Max retries exceeded" and the answer the last attempt left. |
| Solver.SolveAndSubmit | app/quiz/solver.py:120-183 | Ends as `Answered` states: the loop starts from the first answer, `InitialAnswer` of the next model reply, with its prompt counted, and ends as `LoopEnded` states. No fetch at this depth, and the per-depth bound holds. |
| Solver.SolveQuiz | app/quiz/solver.py:20-183 | Ends as `QuizEnded` states, from the counters it starts from to those it leaves. A failed entry raises after its clock readings, with no fetch. A failed preparation raises after exactly one fetch. Otherwise it returns the retry loop's result, the loop having begun from the model's first answer. Through `Judged`, each accepted answer with a next URL ties the result to the deeper quiz's own ending. Every event is at this depth or deeper and carries the chain's start time, and no depth has more than `MAX_RETRIES` submissions. |
| Solver.QuizUnique | app/quiz/solver.py:20-183 | In a given world, `solve_quiz` has exactly one ending: two endings from the same counters have the same result, the same attempts at every depth and the same counters after them. |
| Solver.PreparedUnique | app/quiz/solver.py:57-183 | The same, from the moment the entry check has passed. |
| Solver.LoopUnique | app/quiz/solver.py:120-183 | The retry loop as `solve_and_submit` starts it has one ending in a given world: the same result, the same attempts and the same counters after them. |
| Solver.TriesAgree | app/quiz/solver.py:132-176 | Two runs of the same loop agree attempt by attempt over their common length: same answer, same counters before and after, same step, and the same deeper run. |
| Solver.JudgedUnique | app/quiz/solver.py:138-165 | One submission result, judged from the same counters, gives one step, one set of counters after it and one deeper run. |
| Solver.AcceptedAtOnce | app/quiz/solver.py:135-147 | When the first submission is accepted with no next URL, the loop makes that one submission and returns its result. |
| Solver.ChainSubmissionBound | app/quiz/solver.py:132-145 | A chain from depth d submits at most `(11 - d) * MAX_RETRIES` times in all. |
| Solver.DefaultChainBound | app/utils/config.py:29 | With the default `MAX_RETRIES` of 3 a chain submits at most 33 times. |
| Solver.DefaultWindow | app/quiz/solver.py:50-52 | With the default window, a quiz inside the depth limit is refused exactly when more than 180 seconds have passed. |
| Router.ValidateEmail | app/server/router.py:20-26 | Refused exactly when blank; otherwise returned unchanged. |
| Router.ValidateSecret | app/server/router.py:28-34 | Refused exactly when blank; otherwise returned unchanged. |
| Router.ValidateUrl | app/server/router.py:36-45 | Accepted exactly with an http://, https:// or file:// prefix; "cannot be empty" comes before the scheme message. |
| Router.Validate | app/server/router.py:14-45 | The request passes exactly when all three fields pass; each failure is listed in field order. |
| Router.StatusOf | app/server/router.py:68-82 | A result passes through unchanged; `ValueError` gives 400 with its message; anything else gives 500 "internal error: …". So a raised exception is always 400 or 500. |
| Router.Solving | app/server/router.py:48-82 | 422 or 403 before the solver, with nothing fetched or posted. Otherwise the chain ran and ended as `ChainEnded` states, from the counters the request started from to those it leaves, and the response is its outcome mapped by `StatusOf`. At most `11 * MAX_RETRIES` submissions. |
| Router.SolveChain | app/server/router.py:70 | The chain starts at depth 0 with no start time, so every event carries the first clock reading. It ends as `ChainEnded` states: an entry failure is raised with nothing recorded, and otherwise the quiz at depth 0 ends as `QuizEnded` states, which follows the chain down through every next URL. |
| Router.ChainUnique | app/server/router.py:70-82 | In a given world a request's chain has one ending: the same outcome, so the same response, and the same counters after it. |
| Router.ValidatedAsGiven | app/server/router.py:20-45 | What passes is kept as given. |
| Router.UrlSchemes | app/server/router.py:43 | The three schemes pass and ftp:// does not. |
| Router.AllErrorsReported | app/server/router.py:14-45 | Every field wrong: all three messages, email first. |
| Router.EntryFailuresAre400 | app/server/router.py:73-75 | The solver's depth and window failures reach the client as 400. |
| Serverless.PickQuestion | api/index.py:55-65 | The selector loop with `break`, then the fallback, computes `HandlerQuestion`. |
| Serverless.HandlerAnswer | api/index.py:68-96 | The answer is never empty: "LLM Error: …" on an exception, the stripped content, or "Unable to determine answer". |
| Serverless.Solving | api/index.py:31-106 | The handler computes `Handle`. |
| Serverless.SecretBeforeEmail | api/index.py:36-42 | 403 exactly with an unset or mismatching secret; only past it is a blank email 422. |
| Serverless.PastSecretAsksLlm | api/index.py:69-96 | Past the secret check the key is set, so a non-blank reply is the answer. |
| Serverless.FetchFailureIs500 | api/index.py:105-106 | A failed fetch is a 500 with the exception text. |
| Serverless.CascadeIsFirst | api/index.py:56-62 | The first accepted selector's text, none before it accepted. |
| Serverless.QuestionShape | api/index.py:55-65 | The question is an accepted text over 10 characters, or the 500-character fallback. |
| Serverless.NoQuestionExemption | api/index.py:56-62 | A short `.question` element is passed over: the threshold applies to every selector. |
| Serverless.SuccessBodyQuestion | api/index.py:98-103 | The echoed question is 1 to 200 characters, or "No question found"; status "success" and the URL are echoed. |

## Left out

- Browser automation (app/quiz/browser.py), HTML parsing, pandas and pdfplumber are not modelled. The page is a `Document` (selector ↦ first element's text, forms, anchors, scripts, tables), a download is its decoded frame and PDF pages, and a table is opaque rows.
- Network transports are left out: `requests`, httpx and the OpenAI client appear only as their replies. Logging, the FastAPI wiring and the serverless app's async execution are left out too.
- Floating point is not modelled: a float is its text, and only the choice between float, int and text is proved. The truthiness of a float text is approximated by a digits-only zero test.
- `Strings.Lower`: lowers ASCII letters only. Python's `str.lower` also maps other letters (U+212A KELVIN SIGN to 'k', for one), but no non-ASCII text lowers to one of the boolean words compared against, and URL schemes are checked for ASCII first.
- `Llm.ParseNumber`: the model takes `float()` and `int()` to accept ASCII digits only. Python also accepts the other Unicode decimal digits (`float("١.٥") == 1.5`), which the model leaves as text. The interpreter's digit-count limit for `int()` is not modelled either.
- `Llm.ParseNumbers`: the same gap. A reply written in non-ASCII decimal digits stays text in the model, where Python gives a number.
- `Path.name`/`Path.suffix` are modelled on '/'-separated text. "." and ".." segments are not normalised.
- `urlsplit`: the bracketed-host validation and the NFKC check on the netloc are not modelled; an unmatched bracket does raise.
- The error texts that `requests` produces for a non-string target, and the dict-slice `TypeError` text, are approximations.
- `Llm.OpenAiAnswer`: a non-string content from the OpenAI client is treated as a failure of that provider.
- `Llm.CallLlm` and `Llm.Solve`: a truthy list content from AIPipe is passed on (it can be sliced for the log); it then makes the reply typing raise, which is modelled as the LLM step failing. Truthy numbers, booleans and dicts make the log slice raise, so OpenAI or the mock answer is used instead.
- `Solver.Refine`: the exception of a refinement is absorbed, as the source's `except` does, without modelling its message.
- Pydantic's 422 body wraps each validator message; `Router.Response` keeps only the messages.
- Python's `len` counts code points, and Dafny's `char` is a Unicode scalar value, so lengths agree.
- The `str(url)` of the JSON request field and the source's type validation of the request body are left out: the request fields are strings.
