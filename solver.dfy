/** `solve_quiz` (app/quiz/solver.py): one step of a quiz chain. It checks the depth and the
    time window, fetches and reads the page, works out where to submit, asks the language
    model, and submits with retries; an accepted answer that names a next quiz continues the
    chain one level deeper. */
module Solver {
  import opened Wrappers
  import opened Strings
  import opened Json
  import opened Extractor
  import opened Environment
  import opened Llm
  import opened Attachments
  import opened Submitter

  const DepthMessage: string := "Max recursion depth exceeded"
  const WindowMessage: string := "Exceeded 3-minute time window"
  const NoQuestionMessage: string := "Could not extract question from page"
  /** The answer used when the first LLM call raises. */
  const FallbackAnswer: string := "Unable to solve"

  /** How many submissions one quiz gets: `range(MAX_RETRIES)` is empty for a negative
      setting. */
  function PostCap(cfg: Config): nat {
    if cfg.maxRetries < 0 then 0 else cfg.maxRetries
  }

  /** `str(v)` as an f-string shows it. */
  function Display(lib: Library, v: Value): string {
    if v.Str? then v.s else lib.show(v)
  }

  // ---------------------------------------------------------------------------------------
  // Entry guards

  /** The chain start time: the one passed down, or the first clock reading. */
  function StartOf(startTime: Option<real>, clock: nat -> real, ticks: nat): real {
    if startTime.Some? then startTime.value else clock(ticks)
  }

  /** The depth check, then the elapsed-time check against the chain start; the clock is
      read once more when the start is not given. */
  function Entry(depth: nat, startTime: Option<real>, cfg: Config, clock: nat -> real, ticks: nat): Result<real, Exception> {
    if depth > MaxDepth then Failure(ValueError(DepthMessage))
    else
      var start := StartOf(startTime, clock, ticks);
      var now := clock(if startTime.Some? then ticks else ticks + 1);
      if now - start > cfg.windowSeconds as real then Failure(ValueError(WindowMessage))
      else Success(start)
  }

  /** Clock readings the entry guards take. */
  function EntryTicks(depth: nat, startTime: Option<real>): nat {
    if depth > MaxDepth then 0 else if startTime.Some? then 1 else 2
  }

  /** Depth 10 still runs; depth 11 and beyond fail before anything else happens. */
  lemma DepthCeiling(depth: nat, startTime: Option<real>, cfg: Config, clock: nat -> real, ticks: nat)
    ensures Entry(depth, startTime, cfg, clock, ticks) == Failure(ValueError(DepthMessage)) <==> depth > 10
    ensures depth > 10 ==> EntryTicks(depth, startTime) == 0
  {
  }

  /** A start time passed down is the start time kept. */
  lemma EntryKeepsStart(depth: nat, t: real, cfg: Config, clock: nat -> real, ticks: nat)
    requires Entry(depth, Some(t), cfg, clock, ticks).Success?
    ensures Entry(depth, Some(t), cfg, clock, ticks).value == t
  {
  }

  /** `time.time()` after the guards, in the world. */
  method Enter(w: World, cfg: Config, startTime: Option<real>, depth: nat) returns (r: Result<real, Exception>)
    modifies w`ticks
    ensures r == Entry(depth, startTime, cfg, w.clock, old(w.ticks))
    ensures w.ticks == old(w.ticks) + EntryTicks(depth, startTime)
  {
    if depth > MaxDepth {
      return Failure(ValueError(DepthMessage));
    }
    var start: real;
    if startTime.None? {
      start := w.Now();
    } else {
      start := startTime.value;
    }
    var now := w.Now();
    if now - start > cfg.windowSeconds as real {
      return Failure(ValueError(WindowMessage));
    }
    r := Success(start);
  }

  // ---------------------------------------------------------------------------------------
  // The submit address (urllib.parse.urlsplit, as far as the scheme and the netloc)

  /** WHATWG C0 control or space, stripped from the front of a URL. */
  predicate IsC0OrSpace(c: char) {
    c <= ' '
  }

  /** The first index from `k` on that is not a C0 control or space, or the length. */
  function C0End(s: string, k: nat): (e: nat)
    requires k <= |s|
    ensures k <= e <= |s| && (e < |s| ==> !IsC0OrSpace(s[e]))
    ensures forall j :: k <= j < e ==> IsC0OrSpace(s[j])
    decreases |s| - k
  {
    if k == |s| || !IsC0OrSpace(s[k]) then k else C0End(s, k + 1)
  }

  function LStripC0(s: string): string {
    s[C0End(s, 0)..]
  }

  /** Tab, CR and LF, removed wherever they occur. */
  predicate IsUnsafeUrlChar(c: char) {
    c == '\t' || c == '\r' || c == '\n'
  }

  function DropUnsafe(s: string): (r: string)
    ensures forall i :: 0 <= i < |r| ==> !IsUnsafeUrlChar(r[i])
  {
    if |s| == 0 then ""
    else (if IsUnsafeUrlChar(s[0]) then "" else [s[0]]) + DropUnsafe(s[1..])
  }

  predicate IsAsciiLetter(c: char) {
    'a' <= c <= 'z' || 'A' <= c <= 'Z'
  }

  predicate IsSchemeChar(c: char) {
    IsAsciiLetter(c) || '0' <= c <= '9' || c == '+' || c == '-' || c == '.'
  }

  /** The scheme (lower-cased) and the rest: the text before the first colon, when it is
      non-empty, starts with a letter and holds only scheme characters. */
  function SplitScheme(u: string): (string, string) {
    var i := IndexOf(u, ':');
    if i > 0 && IsAsciiLetter(u[0]) && forall k :: 0 <= k < i ==> IsSchemeChar(u[k])
    then (Lower(u[..i]), u[i + 1..])
    else ("", u)
  }

  predicate IsNetlocEnd(c: char) {
    c == '/' || c == '?' || c == '#'
  }

  /** The first index from `k` on that ends a netloc, or the length. */
  function NetlocEnd(s: string, k: nat): (e: nat)
    requires k <= |s|
    ensures k <= e <= |s| && (e < |s| ==> IsNetlocEnd(s[e]))
    ensures forall j :: k <= j < e ==> !IsNetlocEnd(s[j])
    decreases |s| - k
  {
    if k == |s| || IsNetlocEnd(s[k]) then k else NetlocEnd(s, k + 1)
  }

  /** The netloc: what follows a leading "//" up to the next '/', '?' or '#'. */
  function Netloc(rest: string): string {
    if IsPrefix("//", rest) then rest[2..NetlocEnd(rest, 2)] else ""
  }

  /** `urlparse(url)`'s scheme and netloc; an unmatched IPv6 bracket raises. */
  function SchemeAndNetloc(url: string): Result<(string, string), Exception> {
    var sr := SplitScheme(DropUnsafe(LStripC0(url)));
    var netloc := Netloc(sr.1);
    if ('[' in netloc) != (']' in netloc) then Failure(ValueError("Invalid IPv6 URL"))
    else Success((sr.0, netloc))
  }

  /** The submit address inferred from a quiz address with no extracted one. Only a string
      address can be rewritten: for any other value the `in` test or the string method
      raises. */
  function InferSubmitUrl(url: Value): Result<Value, Exception> {
    match url
    case Str(u) =>
      if Contains(u, "/demo") then Success(Str(ReplaceAll(u, "/demo", "/submit")))
      else if Contains(u, "/quiz/") then Success(Str(ReplaceAll(u, "/quiz/", "/submit/")))
      else
        (match SchemeAndNetloc(u)
         case Failure(e) => Failure(e)
         case Success(sn) => Success(Str(sn.0 + "://" + sn.1 + "/submit")))
    case Arr(items) =>
      var attr := if Str("/demo") in items || Str("/quiz/") in items then "replace" else "decode";
      Failure(OtherError("'list' object has no attribute '" + attr + "'"))
    case Obj(_) =>
      var attr := if HasKey(url, "/demo") || HasKey(url, "/quiz/") then "replace" else "decode";
      Failure(OtherError("'dict' object has no attribute '" + attr + "'"))
    case _ => Failure(OtherError("argument of type '" + TypeName(url) + "' is not iterable"))
  }

  /** Every "/demo" is rewritten, and none is left. */
  lemma DemoAddress(u: string)
    requires Contains(u, "/demo")
    ensures InferSubmitUrl(Str(u)) == Success(Str(ReplaceAll(u, "/demo", "/submit")))
    ensures !Contains(InferSubmitUrl(Str(u)).value.s, "/demo")
  {
    DemoRewriteComplete(u);
  }

  /** Without "/demo", "/quiz/" is rewritten to "/submit/" in one pass. */
  lemma QuizAddress(u: string)
    requires !Contains(u, "/demo") && Contains(u, "/quiz/")
    ensures InferSubmitUrl(Str(u)) == Success(Str(ReplaceAll(u, "/quiz/", "/submit/")))
  {
  }

  /** Otherwise the address is the origin followed by "/submit". */
  lemma OriginAddress(u: string)
    requires !Contains(u, "/demo") && !Contains(u, "/quiz/")
    requires SchemeAndNetloc(u).Success?
    ensures var sn := SchemeAndNetloc(u).value;
      InferSubmitUrl(Str(u)) == Success(Str(sn.0 + "://" + sn.1 + "/submit"))
    ensures IsSuffix("/submit", InferSubmitUrl(Str(u)).value.s)
  {
  }

  /** The netloc holds none of the characters that end it. */
  lemma NetlocShape(rest: string)
    ensures forall j :: 0 <= j < |Netloc(rest)| ==> !IsNetlocEnd(Netloc(rest)[j])
  {
    if IsPrefix("//", rest) {
      var e := NetlocEnd(rest, 2);
      forall j | 0 <= j < |Netloc(rest)|
        ensures !IsNetlocEnd(Netloc(rest)[j])
      {
        assert Netloc(rest)[j] == rest[2 + j];
      }
    }
  }

  /** A non-string address cannot be rewritten. */
  lemma NonTextAddressRaises(url: Value)
    requires !url.Str?
    ensures InferSubmitUrl(url).Failure? && InferSubmitUrl(url).error.OtherError?
  {
  }

  // ---------------------------------------------------------------------------------------
  // Reading the page

  /** `question[:100]`: text and lists can be sliced; a dict raises because a slice is not
      a key, and any other value is not subscriptable. */
  function QuestionHead(q: Value): Result<Value, Exception> {
    match q
    case Str(s) => Success(Str(Take(s, 100)))
    case Arr(items) => Success(Arr(Head(items, 100)))
    case Obj(_) => Failure(OtherError("unhashable type: 'slice'"))
    case _ => Failure(OtherError("'" + TypeName(q) + "' object is not subscriptable"))
  }

  /** What the attempts need: the question, its first 100 elements, the submit address and
      the context for the language model. */
  datatype Quiz = Quiz(question: Value, head: Value, target: Value, ctx: Context)

  /** The extracted submit address when truthy, otherwise the inferred one. */
  function Target(info: QuizInfo, url: Value): Result<Value, Exception> {
    if Truthy(info.submitUrl) then Success(info.submitUrl) else InferSubmitUrl(url)
  }

  /** The context before the downloads. */
  function StartContext(info: QuizInfo): Context {
    Context(info.tables, info.embeddedJson, [], "")
  }

  /** Steps 1 to 3 of `solve_quiz` for what the browser gives back. */
  function Prepared(url: Value, reply: FetchReply, lib: Library): Result<Quiz, Exception> {
    match reply
    case FetchError(m) => Failure(ValueError("Browser automation failed: " + m))
    case Loaded(page) =>
      var info := ParsedQuiz(page.doc, page.jsData, lib.loads);
      if !Truthy(info.question) then Failure(ValueError(NoQuestionMessage))
      else match Target(info, url)
        case Failure(e) => Failure(e)
        case Success(target) =>
          match QuestionHead(info.question)
          case Failure(e) => Failure(e)
          case Success(head) => Success(Quiz(info.question, head, target, ApplyAll(StartContext(info), page.downloads)))
  }

  /** A browser failure is reported as a `ValueError` carrying its message. */
  lemma FetchFailureIsValueError(url: Value, m: string, lib: Library)
    ensures Prepared(url, FetchError(m), lib) == Failure(ValueError("Browser automation failed: " + m))
  {
  }

  /** A page without a truthy question fails, whatever else it holds. */
  lemma NoQuestionFails(url: Value, page: PageData, lib: Library)
    requires !Truthy(ParsedQuiz(page.doc, page.jsData, lib.loads).question)
    ensures Prepared(url, Loaded(page), lib) == Failure(ValueError(NoQuestionMessage))
  {
  }

  /** An extracted submit address is used as it is; only its absence triggers inference. */
  lemma ExtractedTargetWins(url: Value, page: PageData, lib: Library)
    requires Prepared(url, Loaded(page), lib).Success?
    ensures var info := ParsedQuiz(page.doc, page.jsData, lib.loads);
      var quiz := Prepared(url, Loaded(page), lib).value;
      quiz.question == info.question &&
      (Truthy(info.submitUrl) ==> quiz.target == info.submitUrl) &&
      (!Truthy(info.submitUrl) ==> Success(quiz.target) == InferSubmitUrl(url)) &&
      quiz.ctx == ApplyAll(StartContext(info), page.downloads)
  {
  }

  /** `time.time()`-free part of step 1 to 3, in the world: one page fetch. */
  method Prepare(w: World, lib: Library, url: Value, depth: nat, start: real) returns (r: Result<Quiz, Exception>)
    modifies w`fetches, w`trace
    ensures r == Prepared(url, w.pages(old(w.fetches)), lib)
    ensures w.fetches == old(w.fetches) + 1 && w.trace == old(w.trace) + [FetchedPage(depth, url, start)]
  {
    var reply := w.Fetch(url, depth, start);
    if reply.FetchError? {
      return Failure(ValueError("Browser automation failed: " + reply.message));
    }
    var page := reply.page;
    var info := ParseHtmlForQuiz(page.doc, page.jsData, lib.loads);
    var question := info.question;
    if !Truthy(question) {
      return Failure(ValueError(NoQuestionMessage));
    }
    var target := info.submitUrl;
    if !Truthy(target) {
      var inferred := InferSubmitUrl(url);
      if inferred.Failure? {
        return Failure(inferred.error);
      }
      target := inferred.value;
    }
    var head := QuestionHead(question);
    if head.Failure? {
      return Failure(head.error);
    }
    var ctx := ParseDownloads(StartContext(info), page.downloads);
    r := Success(Quiz(question, head.value, target, ctx));
  }

  // ---------------------------------------------------------------------------------------
  // Answering and judging

  /** The first answer: the model's, or the fixed fallback when the call raises. */
  function InitialAnswer(solved: Option<Value>): (a: Value)
    ensures solved.None? ==> a == Str(FallbackAnswer)
    ensures solved.Some? ==> a == solved.value
  {
    if solved.Some? then solved.value else Str(FallbackAnswer)
  }

  /** Step 4: one prompt, and submission goes ahead whatever it gives. */
  method FirstAnswer(w: World, cfg: Config, lib: Library, quiz: Quiz, depth: nat) returns (answer: Value)
    modifies w`prompts, w`trace
    ensures answer == InitialAnswer(Solve(Display(lib, quiz.question), quiz.ctx, cfg, lib, w.llm(old(w.prompts))))
    ensures var p := Prompt(Display(lib, quiz.question), quiz.ctx, lib);
      w.trace == old(w.trace) + (if p.Some? then [Prompted(depth, p.value)] else [])
    ensures w.prompts == old(w.prompts) + Asked(quiz.ctx, lib)
  {
    var solved := SolveWithLlm(w, cfg, lib, Display(lib, quiz.question), quiz.ctx, depth);
    PromptBuildsExactly(Display(lib, quiz.question), quiz.ctx, lib);
    if solved.Some? {
      answer := solved.value;
    } else {
      answer := Str(FallbackAnswer);
    }
  }

  /** The question of a refinement prompt. */
  function RefinedQuestion(lib: Library, question: Value, answer: Value): string {
    Display(lib, question) + "\n\nPrevious answer was incorrect: " + Display(lib, answer)
    + "\nPlease reconsider and provide a different answer."
  }

  /** How a submission result is judged. */
  datatype Verdict = Accept(next: Value) | Reject

  /** `result.get("correct") or result.get("status") == "success"`, then the next address
      `result.get("next_url") or result.get("url")`; a result that is not a dict has no
      `get`. */
  function Classify(result: Value): Result<Verdict, Exception> {
    if !result.Obj? then Failure(OtherError("'" + TypeName(result) + "' object has no attribute 'get'"))
    else if Truthy(Get(result, "correct")) || Get(result, "status") == Str("success")
    then Success(Accept(Or(Get(result, "next_url"), Get(result, "url"))))
    else Success(Reject)
  }

  /** Acceptance is a truthy "correct" or the status "success", and nothing else. */
  lemma AcceptanceRule(result: Value)
    requires result.Obj?
    ensures Classify(result).Success?
    ensures Classify(result).value.Accept? <==>
            Truthy(Get(result, "correct")) || Get(result, "status") == Str("success")
    ensures Classify(result).value.Accept? ==>
            (Truthy(Classify(result).value.next) <==> Truthy(Get(result, "next_url")) || Truthy(Get(result, "url")))
  {
  }

  /** A transport failure is never accepted. */
  lemma TransportErrorRejected(m: string, answer: Value)
    ensures Classify(ErrorDict(m, answer)) == Success(Reject)
  {
    var f := ErrorDict(m, answer).fields;
    LookupLast(f, 0);
    assert forall i :: 0 <= i < |f| ==> f[i].0 != "correct";
  }

  /** A non-JSON success is accepted and ends the chain: it names no next quiz. */
  lemma RawSuccessEndsChain(answer: Value, text: string)
    ensures Classify(RawDict(answer, text)) == Success(Accept(Null))
  {
    var f := RawDict(answer, text).fields;
    LookupLast(f, 0);
    assert forall i :: 0 <= i < |f| ==> f[i].0 != "correct" && f[i].0 != "next_url" && f[i].0 != "url";
  }

  /** The dict returned when the last attempt raised. */
  function SubmitFailedDict(message: string, answer: Value, head: Value): Value {
    Obj([("status", Str("error")), ("message", Str("Submit failed: " + message)), ("answer", answer), ("question", head)])
  }

  /** The dict returned when no attempt was accepted. */
  function FailedDict(answer: Value, head: Value): Value {
    Obj([("status", Str("failed")), ("message", Str("Max retries exceeded")), ("answer", answer), ("question", head)])
  }

  /** The answer after a refinement: the model's reply to the refined question, or the
      previous answer when that call raises. */
  function Refined(lib: Library, cfg: Config, quiz: Quiz, answer: Value, replies: LlmReplies): Value {
    var solved := Solve(RefinedQuestion(lib, quiz.question, answer), quiz.ctx, cfg, lib, replies);
    if solved.Some? then solved.value else answer
  }


  // ---------------------------------------------------------------------------------------
  // The retry loop and the chain

  /** Why a retry loop ended with a result of an attempt. */
  datatype Exit = Accepted | Chained | RejectedLate

  /** How one attempt ends: the loop returns a result, the attempt raised (the exception is
      absorbed), or the loop goes on with this answer. */
  datatype Step = Finished(result: Value, exit: Exit) | Failed(error: Exception) | Retry(answer: Value)

  /** One attempt of a retry loop: the answer submitted, how the attempt ended, the counters
      before it (its submission got the reply at index `before.submissions`) and after it,
      and how the retry loop of the next quiz ran, for an accepted answer that names one. */
  datatype Try = Try(answer: Value, step: Step, before: Counters, after: Counters, child: Run)

  /** How a retry loop ran: its attempts in order. `NoRun` stands for a quiz that raised
      before its loop. */
  datatype Run = Run(tries: seq<Try>) | NoRun

  /** The counters after a submission to `target`: only a string address reaches the
      network. */
  function AfterSubmit(c: Counters, target: Value): Counters {
    c.(submissions := c.submissions + if target.Str? then 1 else 0)
  }

  /** The model replies one call of `solve_with_llm` on the quiz context `ctx` uses. */
  function Asked(ctx: Context, lib: Library): nat {
    if PromptBuilds(ctx, lib) then 1 else 0
  }

  /** How the loop body judges the submission outcome `sub` of attempt `attempt` at depth
      `depth`, the counters being `at` after the submission and `after` at the end of the
      attempt; `child` is how the next quiz's loop ran, when there is one.
      An exception ends the attempt; an accepted answer that names no next quiz ends the
      loop with the result; one that names a next quiz ends it as that quiz, solved one level
      deeper from the same start, ends (its exception ending only the attempt); a rejection
      reads the clock: past the window it ends the loop with the rejected result; inside it
      the loop goes on, with the model's refined answer unless this is the last attempt. */
  ghost predicate Judged(step: Step, sub: Outcome, cfg: Config, lib: Library, quiz: Quiz, start: real,
                         depth: nat, attempt: nat, answer: Value, clock: nat -> real,
                         pages: nat -> FetchReply, llm: nat -> LlmReplies, posts: nat -> PostReply,
                         at: Counters, after: Counters, child: Run)
    decreases child, 5
  {
    match sub
    case Raised(e) => step == Failed(e) && after == at && child == NoRun
    case Returned(v) =>
      match Classify(v)
      case Failure(e) => step == Failed(e) && after == at && child == NoRun
      case Success(Accept(next)) =>
        if Truthy(next) then
          (step.Failed? || (step.Finished? && step.exit == Chained)) &&
          QuizEnded(if step.Finished? then Returned(step.result) else Raised(step.error), child,
                    cfg, lib, next, Some(start), depth + 1, clock, pages, llm, posts, at, after)
        else step == Finished(v, Accepted) && after == at && child == NoRun
      case Success(Reject) =>
        var ticked := at.(ticks := at.ticks + 1);
        child == NoRun &&
        if clock(at.ticks) - start > cfg.windowSeconds as real then
          step == Finished(v, RejectedLate) && after == ticked
        else if attempt + 1 < cfg.maxRetries then
          step == Retry(Refined(lib, cfg, quiz, answer, llm(at.prompts))) &&
          after == ticked.(prompts := at.prompts + Asked(quiz.ctx, lib))
        else step == Retry(answer) && after == ticked
  }

  /** What the loop needs from a judged attempt. */
  lemma JudgedExits(step: Step, sub: Outcome, cfg: Config, lib: Library, quiz: Quiz, start: real,
                    depth: nat, attempt: nat, answer: Value, clock: nat -> real,
                    pages: nat -> FetchReply, llm: nat -> LlmReplies, posts: nat -> PostReply,
                    at: Counters, after: Counters, child: Run)
    requires Judged(step, sub, cfg, lib, quiz, start, depth, attempt, answer, clock, pages, llm, posts,
                    at, after, child)
    ensures step.Finished? && step.exit != Chained ==> sub == Returned(step.result)
    ensures step.Finished? && step.exit == Accepted ==>
              Classify(step.result).Success? && Classify(step.result).value.Accept? &&
              !Truthy(Classify(step.result).value.next) && after == at
    ensures step.Finished? && step.exit == RejectedLate ==>
              Classify(step.result) == Success(Reject) && clock(at.ticks) - start > cfg.windowSeconds as real
    ensures step.Retry? ==>
              sub.Returned? && Classify(sub.value) == Success(Reject) &&
              (step.answer == answer || step.answer == Refined(lib, cfg, quiz, answer, llm(at.prompts)))
    ensures step.Retry? && attempt + 1 >= cfg.maxRetries ==> step.answer == answer
    ensures step.Finished? && step.exit == Chained ==>
              sub.Returned? && Classify(sub.value).Success? && Classify(sub.value).value.Accept? &&
              Truthy(Classify(sub.value).value.next) &&
              QuizEnded(Returned(step.result), child, cfg, lib, Classify(sub.value).value.next, Some(start),
                        depth + 1, clock, pages, llm, posts, at, after)
  {
  }

  /** Every submission at depth `d` went to the string address `target`. */
  ghost predicate PostsTo(es: seq<Event>, d: nat, target: Value) {
    forall i :: 0 <= i < |es| && es[i].Posted? && es[i].depth == d ==> target.Str? && es[i].target == target.s
  }

  /** The per-depth submission bound. */
  ghost predicate PostsBounded(es: seq<Event>, cap: nat) {
    forall d: nat :: Count(es, d, PostKind) <= cap
  }

  /** No submissions at any depth but `d`. */
  ghost predicate PostsOnlyAt(es: seq<Event>, d: nat) {
    forall e: nat :: e != d ==> Count(es, e, PostKind) == 0
  }

  lemma PostsToAppend(a: seq<Event>, b: seq<Event>, d: nat, target: Value)
    requires PostsTo(a, d, target) && PostsTo(b, d, target)
    ensures PostsTo(a + b, d, target)
  {
  }

  lemma PostsToDeeper(es: seq<Event>, d: nat, target: Value)
    requires Within(es, d + 1)
    ensures PostsTo(es, d, target)
  {
  }

  /** The trace of one attempt at depth `depth`: inside the chain, one submission when the
      address is a string, no page fetch at this depth, and at most `prompts` prompts. */
  ghost predicate StepTrace(es: seq<Event>, depth: nat, target: Value, start: real, prompts: nat) {
    Within(es, depth) && StartsAt(es, start) && PostsTo(es, depth, target) &&
    Count(es, depth, FetchKind) == 0 &&
    Count(es, depth, PostKind) == (if target.Str? then 1 else 0) &&
    Count(es, depth, PromptKind) <= prompts
  }

  /** The refinement budget: at most one prompt per attempt but the last. */
  function RefineCap(cfg: Config): nat {
    if PostCap(cfg) == 0 then 0 else PostCap(cfg) - 1
  }

  /** One pass of the retry loop body: submit the current answer, then judge the reply.
      `sub` is what the submission gave. */
  method Attempt(w: World, cfg: Config, lib: Library, quiz: Quiz, url: Value, email: string,
                 start: real, depth: nat, attempt: nat, answer: Value)
    returns (step: Step, sub: Outcome, ghost child: Run, ghost events: seq<Event>)
    requires depth <= MaxDepth && attempt < cfg.maxRetries
    modifies w
    decreases MaxDepth + 1 - depth, 2
    ensures w.trace == old(w.trace) + events
    ensures StepTrace(events, depth, quiz.target, start, if attempt + 1 < cfg.maxRetries then 1 else 0)
    ensures step.Finished? ==> PostsBounded(events, PostCap(cfg))
    ensures !step.Finished? ==> PostsOnlyAt(events, depth)
    ensures quiz.target.Str? ==>
              |events| > 0 && events[0] == Posted(depth, quiz.target.s, Payload(email, answer, cfg.secret, url))
    ensures sub == Submitted(lib, quiz.target, answer, w.posts(old(w.submissions)))
    ensures Judged(step, sub, cfg, lib, quiz, start, depth, attempt, answer, w.clock, w.pages, w.llm, w.posts,
                   AfterSubmit(old(w.Counts()), quiz.target), w.Counts(), child)
  {
    ghost var t0 := w.trace;
    sub := SubmitAnswer(w, lib, quiz.target, answer, email, cfg.secret, url, depth);
    ghost var posted: seq<Event> :=
      if quiz.target.Str? then [Posted(depth, quiz.target.s, Payload(email, answer, cfg.secret, url))] else [];
    assert w.trace == t0 + posted;
    PostedTrace(posted, depth, quiz.target, start);
    ghost var more;
    ghost var at := w.Counts();
    assert at == AfterSubmit(old(w.Counts()), quiz.target);
    step, child, more := Judge(w, cfg, lib, quiz, email, start, depth, attempt, answer, sub, posted);
    TraceAssoc(t0, posted, more);
    events := posted + more;
  }

  /** What follows a submission whose result is `sub` and whose trace is `posted`, as
      `Judged` states it. */
  method Judge(w: World, cfg: Config, lib: Library, quiz: Quiz, email: string, start: real,
               depth: nat, attempt: nat, answer: Value, sub: Outcome, ghost posted: seq<Event>)
    returns (step: Step, ghost child: Run, ghost more: seq<Event>)
    requires depth <= MaxDepth && attempt < cfg.maxRetries
    requires StepTrace(posted, depth, quiz.target, start, 0) && PostsOnlyAt(posted, depth)
    modifies w
    decreases MaxDepth + 1 - depth, 1
    ensures w.trace == old(w.trace) + more
    ensures StepTrace(posted + more, depth, quiz.target, start, if attempt + 1 < cfg.maxRetries then 1 else 0)
    ensures step.Finished? ==> PostsBounded(posted + more, PostCap(cfg))
    ensures !step.Finished? ==> PostsOnlyAt(posted + more, depth)
    ensures Judged(step, sub, cfg, lib, quiz, start, depth, attempt, answer, w.clock, w.pages, w.llm, w.posts,
                   old(w.Counts()), w.Counts(), child)
  {
    assert posted + [] == posted;
    child := NoRun;
    if sub.Raised? {
      return Failed(sub.error), child, [];
    }
    var verdict := Classify(sub.value);
    if verdict.Failure? {
      return Failed(verdict.error), child, [];
    }
    if verdict.value.Accept? {
      var next := verdict.value.next;
      if !Truthy(next) {
        PostsOnlyBounded(posted, depth, PostCap(cfg));
        return Finished(sub.value, Accepted), child, [];
      }
      ghost var at := w.Counts();
      ghost var outcome;
      step, outcome, child, more := Follow(w, cfg, lib, quiz.target, next, email, start, depth, posted);
      FollowJudged(step, outcome, sub.value, next, cfg, lib, quiz, start, depth, attempt, answer, w.clock, w.pages,
                   w.llm, w.posts, at, w.Counts(), child);
      return;
    }
    ghost var at := w.Counts();
    step, more := Rejected(w, cfg, lib, quiz, start, depth, attempt, answer, sub.value, posted);
    RejectJudged(step, sub.value, cfg, lib, quiz, start, depth, attempt, answer, w.clock, w.pages, w.llm, w.posts,
                 at, w.Counts(), child);
  }

  /** `Judged` for an accepted answer that names a next quiz, from how that quiz ended. */
  lemma FollowJudged(step: Step, outcome: Outcome, v: Value, next: Value, cfg: Config, lib: Library, quiz: Quiz,
                     start: real, depth: nat, attempt: nat, answer: Value, clock: nat -> real,
                     pages: nat -> FetchReply, llm: nat -> LlmReplies, posts: nat -> PostReply,
                     at: Counters, after: Counters, child: Run)
    requires Classify(v) == Success(Accept(next)) && Truthy(next)
    requires step == if outcome.Returned? then Finished(outcome.value, Chained) else Failed(outcome.error)
    requires QuizEnded(outcome, child, cfg, lib, next, Some(start), depth + 1, clock, pages, llm, posts, at, after)
    ensures Judged(step, Returned(v), cfg, lib, quiz, start, depth, attempt, answer, clock, pages, llm, posts,
                   at, after, child)
  {
    assert outcome == if step.Finished? then Returned(step.result) else Raised(step.error);
  }

  /** `Judged` for a rejected result, from what the rejection branch did. */
  lemma RejectJudged(step: Step, v: Value, cfg: Config, lib: Library, quiz: Quiz, start: real, depth: nat,
                     attempt: nat, answer: Value, clock: nat -> real, pages: nat -> FetchReply,
                     llm: nat -> LlmReplies, posts: nat -> PostReply, at: Counters, after: Counters, child: Run)
    requires Classify(v) == Success(Reject) && child == NoRun
    requires var ticked := at.(ticks := at.ticks + 1);
      if clock(at.ticks) - start > cfg.windowSeconds as real then
        step == Finished(v, RejectedLate) && after == ticked
      else if attempt + 1 < cfg.maxRetries then
        step == Retry(Refined(lib, cfg, quiz, answer, llm(at.prompts))) &&
        after == ticked.(prompts := at.prompts + Asked(quiz.ctx, lib))
      else step == Retry(answer) && after == ticked
    ensures Judged(step, Returned(v), cfg, lib, quiz, start, depth, attempt, answer, clock, pages, llm, posts,
                   at, after, child)
  {
  }

  /** A rejected `result`: past the time window it is returned; inside it the loop goes on,
      with a refined answer unless this is the last attempt. */
  method Rejected(w: World, cfg: Config, lib: Library, quiz: Quiz, start: real, depth: nat,
                  attempt: nat, answer: Value, result: Value, ghost posted: seq<Event>)
    returns (step: Step, ghost more: seq<Event>)
    requires depth <= MaxDepth && attempt < cfg.maxRetries
    requires StepTrace(posted, depth, quiz.target, start, 0) && PostsOnlyAt(posted, depth)
    modifies w`ticks, w`prompts, w`trace
    ensures w.trace == old(w.trace) + more
    ensures StepTrace(posted + more, depth, quiz.target, start, if attempt + 1 < cfg.maxRetries then 1 else 0)
    ensures step.Finished? ==> PostsBounded(posted + more, PostCap(cfg))
    ensures !step.Finished? ==> PostsOnlyAt(posted + more, depth)
    ensures var ticked := old(w.Counts()).(ticks := old(w.ticks) + 1);
      if w.clock(old(w.ticks)) - start > cfg.windowSeconds as real then
        step == Finished(result, RejectedLate) && w.Counts() == ticked
      else if attempt + 1 < cfg.maxRetries then
        step == Retry(Refined(lib, cfg, quiz, answer, w.llm(old(w.prompts)))) &&
        w.Counts() == ticked.(prompts := old(w.prompts) + Asked(quiz.ctx, lib))
      else step == Retry(answer) && w.Counts() == ticked
  {
    assert posted + [] == posted;
    var now := w.Now();
    if now - start > cfg.windowSeconds as real {
      PostsOnlyBounded(posted, depth, PostCap(cfg));
      return Finished(result, RejectedLate), [];
    }
    if attempt + 1 < cfg.maxRetries {
      var refined;
      refined, more := Refine(w, cfg, lib, quiz, start, depth, answer, posted);
      return Retry(refined), more;
    }
    return Retry(answer), [];
  }

  /** An accepted answer that names a next quiz: that quiz is solved one level deeper from
      the same start, and its result is the loop's result, or its exception ends the
      attempt. `child` is how it ended and `childRun` how its retry loop ended. */
  method Follow(w: World, cfg: Config, lib: Library, target: Value, next: Value, email: string,
                start: real, depth: nat, ghost posted: seq<Event>)
    returns (step: Step, ghost child: Outcome, ghost childRun: Run, ghost more: seq<Event>)
    requires depth <= MaxDepth && 1 <= PostCap(cfg)
    requires StepTrace(posted, depth, target, start, 0) && PostsOnlyAt(posted, depth)
    modifies w
    decreases MaxDepth + 1 - depth, 0
    ensures w.trace == old(w.trace) + more
    ensures StepTrace(posted + more, depth, target, start, 0)
    ensures step.Finished? ==> step.exit == Chained && PostsBounded(posted + more, PostCap(cfg))
    ensures !step.Finished? ==> step.Failed? && PostsOnlyAt(posted + more, depth)
    ensures step == if child.Returned? then Finished(child.value, Chained) else Failed(child.error)
    ensures QuizEnded(child, childRun, cfg, lib, next, Some(start), depth + 1, w.clock, w.pages, w.llm, w.posts,
                      old(w.Counts()), w.Counts())
  {
    ghost var counts := w.Counts();
    var outcome;
    outcome, childRun, more := SolveQuiz(w, cfg, lib, next, email, Some(start), depth + 1);
    child := outcome;
    assert QuizEnded(child, childRun, cfg, lib, next, Some(start), depth + 1, w.clock, w.pages, w.llm, w.posts,
                     counts, w.Counts());
    FollowTrace(posted, more, depth, target, start, PostCap(cfg), outcome.Returned?);
    step := if outcome.Returned? then Finished(outcome.value, Chained) else Failed(outcome.error);
  }

  /** A rejected answer inside the time window, before the last attempt: the LLM is asked
      again with the previous answer quoted; when that raises, the answer is kept. */
  method Refine(w: World, cfg: Config, lib: Library, quiz: Quiz, start: real, depth: nat,
                answer: Value, ghost posted: seq<Event>)
    returns (refined: Value, ghost more: seq<Event>)
    requires depth <= MaxDepth
    requires StepTrace(posted, depth, quiz.target, start, 0) && PostsOnlyAt(posted, depth)
    modifies w`prompts, w`trace
    ensures w.trace == old(w.trace) + more
    ensures StepTrace(posted + more, depth, quiz.target, start, 1) && PostsOnlyAt(posted + more, depth)
    ensures refined == Refined(lib, cfg, quiz, answer, w.llm(old(w.prompts)))
    ensures w.prompts == old(w.prompts) + Asked(quiz.ctx, lib)
  {
    var solved := SolveWithLlm(w, cfg, lib, RefinedQuestion(lib, quiz.question, answer), quiz.ctx, depth);
    PromptBuildsExactly(RefinedQuestion(lib, quiz.question, answer), quiz.ctx, lib);
    ghost var p := Prompt(RefinedQuestion(lib, quiz.question, answer), quiz.ctx, lib);
    more := if p.Some? then [Prompted(depth, p.value)] else [];
    PromptTrace(posted, more, depth, quiz.target, start);
    // When the refinement raises, the exception is absorbed and the answer is kept.
    refined := if solved.Some? then solved.value else answer;
  }

  /** A single attempt's submission stays within any positive cap. */
  lemma PostsOnlyBounded(es: seq<Event>, depth: nat, cap: nat)
    requires PostsOnlyAt(es, depth) && Count(es, depth, PostKind) <= 1 && 1 <= cap
    ensures PostsBounded(es, cap)
  {
  }

  /** The trace of a submission, or of none when the address is not a string. */
  lemma PostedTrace(posted: seq<Event>, depth: nat, target: Value, start: real)
    requires depth <= MaxDepth
    requires target.Str? ==> |posted| == 1 && posted[0].Posted? && posted[0].depth == depth && posted[0].target == target.s
    requires !target.Str? ==> posted == []
    ensures StepTrace(posted, depth, target, start, 0) && PostsOnlyAt(posted, depth)
  {
    if target.Str? {
      assert posted[..0] == [];
    }
    forall e: nat | e != depth ensures Count(posted, e, PostKind) == 0 {
      if target.Str? { assert posted[..0] == []; }
    }
  }

  /** A submission followed by a deeper chain: the deeper trace adds nothing at this depth. */
  lemma ChildTrace(posted: seq<Event>, child: seq<Event>, depth: nat, target: Value, start: real)
    requires StepTrace(posted, depth, target, start, 0)
    requires Within(child, depth + 1) && StartsAt(child, start)
    ensures StepTrace(posted + child, depth, target, start, 0)
  {
    WithinDeeper(child, depth);
    WithinAppend(posted, child, depth);
    StartsAtAppend(posted, child, start);
    PostsToDeeper(child, depth, target);
    PostsToAppend(posted, child, depth, target);
    forall k ensures Count(posted + child, depth, k) == Count(posted, depth, k) {
      CountAppend(posted, child, depth, k);
      CountDeeper(child, depth, k);
    }
  }

  /** The trace of an attempt that followed the next quiz: the deeper trace adds nothing at
      this depth; a deeper chain that returned keeps within the bound at every depth, and
      one that raised made no submission. */
  lemma FollowTrace(posted: seq<Event>, child: seq<Event>, depth: nat, target: Value, start: real, cap: nat,
                    returned: bool)
    requires StepTrace(posted, depth, target, start, 0) && PostsOnlyAt(posted, depth) && 1 <= cap
    requires Within(child, depth + 1) && StartsAt(child, start) && PostsBounded(child, cap)
    requires !returned ==> forall i :: 0 <= i < |child| ==> child[i].FetchedPage?
    ensures StepTrace(posted + child, depth, target, start, 0)
    ensures returned ==> PostsBounded(posted + child, cap)
    ensures !returned ==> PostsOnlyAt(posted + child, depth)
  {
    ChildTrace(posted, child, depth, target, start);
    if returned {
      ChainedBound(posted, child, depth, cap);
    } else {
      RaisedChildFacts(posted, child, depth);
    }
  }

  /** A chain that returned keeps within the bound at every depth. */
  lemma ChainedBound(posted: seq<Event>, child: seq<Event>, depth: nat, cap: nat)
    requires PostsOnlyAt(posted, depth) && Count(posted, depth, PostKind) <= 1 && 1 <= cap
    requires Within(child, depth + 1) && PostsBounded(child, cap)
    ensures PostsBounded(posted + child, cap)
  {
    forall d: nat ensures Count(posted + child, d, PostKind) <= cap {
      CountAppend(posted, child, d, PostKind);
      if d == depth {
        CountDeeper(child, depth, PostKind);
      }
    }
  }

  /** A chain that raised made no submission at all. */
  lemma RaisedChildFacts(posted: seq<Event>, child: seq<Event>, depth: nat)
    requires PostsOnlyAt(posted, depth)
    requires forall i :: 0 <= i < |child| ==> child[i].FetchedPage?
    ensures PostsOnlyAt(posted + child, depth)
  {
    forall e: nat | e != depth ensures Count(posted + child, e, PostKind) == 0 {
      CountAppend(posted, child, e, PostKind);
      CountFetchesOnly(child, e, PostKind);
    }
  }

  /** A submission followed by a refinement prompt, or none when the prompt cannot be
      built. */
  lemma PromptTrace(posted: seq<Event>, prompted: seq<Event>, depth: nat, target: Value, start: real)
    requires depth <= MaxDepth
    requires StepTrace(posted, depth, target, start, 0) && PostsOnlyAt(posted, depth)
    requires |prompted| <= 1 && forall i :: 0 <= i < |prompted| ==> prompted[i].Prompted? && prompted[i].depth == depth
    ensures StepTrace(posted + prompted, depth, target, start, 1) && PostsOnlyAt(posted + prompted, depth)
  {
    WithinAppend(posted, prompted, depth);
    StartsAtAppend(posted, prompted, start);
    PostsToAppend(posted, prompted, depth, target);
    forall e: nat, k | k != PromptKind ensures Count(posted + prompted, e, k) == Count(posted, e, k) {
      CountAppend(posted, prompted, e, k);
      if |prompted| == 1 { assert prompted[..0] == []; }
    }
    CountAppend(posted, prompted, depth, PromptKind);
    CountBound(prompted, depth, PromptKind);
  }

  /** The attempts of `run` in order, from the counters `from`: the first submits
      `answer0` and each later one the answer the one before it went on with; each starts
      from the counters the one before it ended with; and each is judged, as `Judged` says,
      on the reply its submission got. */
  ghost predicate Tried(run: Run, answer0: Value, from: Counters, quiz: Quiz, cfg: Config, lib: Library,
                        start: real, depth: nat, clock: nat -> real, pages: nat -> FetchReply,
                        llm: nat -> LlmReplies, posts: nat -> PostReply)
    decreases run, 0
  {
    run.Run? &&
    forall k {:trigger Linked(run.tries, k, answer0, from)}
             {:trigger TryJudged(run.tries[k], k, quiz, cfg, lib, start, depth, clock, pages, llm, posts)} ::
      0 <= k < |run.tries| ==>
      Linked(run.tries, k, answer0, from) &&
      TryJudged(run.tries[k], k, quiz, cfg, lib, start, depth, clock, pages, llm, posts)
  }

  /** Attempt `k`'s place in the loop: the first submits `answer0` from the counters
      `from`; each later one the answer the one before it went on with, from the counters
      the one before it ended with. */
  ghost predicate Linked(ts: seq<Try>, k: nat, answer0: Value, from: Counters)
    requires k < |ts|
  {
    ts[k].answer == (if k == 0 then answer0 else NextOf(ts[k - 1].step, ts[k - 1].answer)) &&
    ts[k].before == (if k == 0 then from else ts[k - 1].after)
  }

  /** Attempt `t`, the `k`-th counted from 0, judged on the reply its submission got. */
  ghost predicate TryJudged(t: Try, k: nat, quiz: Quiz, cfg: Config, lib: Library, start: real, depth: nat,
                            clock: nat -> real, pages: nat -> FetchReply, llm: nat -> LlmReplies,
                            posts: nat -> PostReply)
    decreases t, 6
  {
    Judged(t.step, Submitted(lib, quiz.target, t.answer, posts(t.before.submissions)), cfg, lib, quiz, start,
           depth, k, t.answer, clock, pages, llm, posts, AfterSubmit(t.before, quiz.target), t.after, t.child)
  }

  /** The answer the loop goes on with after the attempts `ts`. */
  function AnswerAfter(ts: seq<Try>, answer0: Value): Value {
    if |ts| == 0 then answer0 else NextOf(ts[|ts| - 1].step, ts[|ts| - 1].answer)
  }

  /** The counters after the attempts `ts`, begun from `from`. */
  function CountsAfter(ts: seq<Try>, from: Counters): Counters {
    if |ts| == 0 then from else ts[|ts| - 1].after
  }

  /** How the last attempt `last`, the `n`-th, ended the loop with `r`: a finished
      attempt's result is the loop's; an exception on attempt `MAX_RETRIES` gives the
      "Submit failed" dict with that attempt's answer; a retry after the last attempt gives
      the "failed" dict with the answer the loop went on with. */
  predicate Concluded(r: Value, last: Try, n: nat, quiz: Quiz, cfg: Config) {
    match last.step
    case Finished(v, _) => r == v
    case Failed(e) => n == cfg.maxRetries && r == SubmitFailedDict(e.message, last.answer, quiz.head)
    case Retry(a) => n == PostCap(cfg) && r == FailedDict(a, quiz.head)
  }

  /** How a retry loop at depth `depth` that began with `answer0` and the counters `from`
      ran, and ended with `r` and the counters `to`: at most `MAX_RETRIES` attempts, as
      `Tried` says; none but the last finished; and the last one ended the loop as
      `Concluded` says. A loop of no attempts returns the "failed" dict with `answer0`. */
  ghost predicate LoopEnded(r: Value, run: Run, answer0: Value, quiz: Quiz, cfg: Config, lib: Library,
                            start: real, depth: nat, clock: nat -> real, pages: nat -> FetchReply,
                            llm: nat -> LlmReplies, posts: nat -> PostReply, from: Counters, to: Counters)
    decreases run, 1
  {
    Tried(run, answer0, from, quiz, cfg, lib, start, depth, clock, pages, llm, posts) &&
    var ts := run.tries;
    |ts| <= PostCap(cfg) &&
    (forall k :: 0 <= k < |ts| - 1 ==> !ts[k].step.Finished?) &&
    to == CountsAfter(ts, from) &&
    (|ts| == 0 ==> PostCap(cfg) == 0 && r == FailedDict(answer0, quiz.head)) &&
    (|ts| > 0 ==> Concluded(r, ts[|ts| - 1], |ts|, quiz, cfg))
  }

  /** How `solve_quiz(url, email, startTime, depth)`, begun with the counters `from`, ended
      with `r` and the counters `to`: the entry check reads the clock as `EntryTicks` says,
      and raises when it fails; otherwise the quiz ended as `QuizPrepared` says. */
  ghost predicate QuizEnded(r: Outcome, run: Run, cfg: Config, lib: Library, url: Value, startTime: Option<real>,
                            depth: nat, clock: nat -> real, pages: nat -> FetchReply, llm: nat -> LlmReplies,
                            posts: nat -> PostReply, from: Counters, to: Counters)
    decreases run, 4
  {
    var entry := Entry(depth, startTime, cfg, clock, from.ticks);
    var entered := from.(ticks := from.ticks + EntryTicks(depth, startTime));
    (entry.Failure? ==> r == Raised(entry.error) && to == entered && run == NoRun) &&
    (entry.Success? ==>
       QuizPrepared(r, run, cfg, lib, url, entry.value, depth, clock, pages, llm, posts, entered, to))
  }

  /** How a quiz that passed the entry check with start `start` ended: it fetches one page;
      a failed page preparation raises; otherwise it asks the model for the first answer
      and returns what its retry loop, begun from that answer, ended with. */
  ghost predicate QuizPrepared(r: Outcome, run: Run, cfg: Config, lib: Library, url: Value, start: real,
                               depth: nat, clock: nat -> real, pages: nat -> FetchReply, llm: nat -> LlmReplies,
                               posts: nat -> PostReply, from: Counters, to: Counters)
    decreases run, 3
  {
    var prep := Prepared(url, pages(from.fetches), lib);
    var fetched := from.(fetches := from.fetches + 1);
    (prep.Failure? ==> r == Raised(prep.error) && to == fetched && run == NoRun) &&
    (prep.Success? ==>
       r.Returned? &&
       Answered(r.value, run, prep.value, cfg, lib, start, depth, clock, pages, llm, posts, fetched, to))
  }

  /** Steps 4 and 5 of the quiz `quiz`, begun with the counters `from`: one call of the
      model for the first answer, then the retry loop from that answer, ending with `r`
      and the counters `to`. */
  ghost predicate Answered(r: Value, run: Run, quiz: Quiz, cfg: Config, lib: Library, start: real, depth: nat,
                           clock: nat -> real, pages: nat -> FetchReply, llm: nat -> LlmReplies,
                           posts: nat -> PostReply, from: Counters, to: Counters)
    decreases run, 2
  {
    LoopEnded(r, run, FirstOf(lib, cfg, quiz, llm(from.prompts)), quiz, cfg, lib, start, depth, clock, pages,
              llm, posts, from.(prompts := from.prompts + Asked(quiz.ctx, lib)), to)
  }

  /** The loop after the attempts of `run`, none of which ended it, going on with `answer`
      and the counters `now`. */
  ghost predicate Going(run: Run, answer: Value, answer0: Value, quiz: Quiz, cfg: Config, lib: Library,
                        start: real, depth: nat, clock: nat -> real, pages: nat -> FetchReply,
                        llm: nat -> LlmReplies, posts: nat -> PostReply, from: Counters, now: Counters)
  {
    Tried(run, answer0, from, quiz, cfg, lib, start, depth, clock, pages, llm, posts) &&
    var ts := run.tries;
    |ts| <= PostCap(cfg) &&
    (forall k :: 0 <= k < |ts| ==> !ts[k].step.Finished? && !(ts[k].step.Failed? && k + 1 == cfg.maxRetries)) &&
    answer == AnswerAfter(ts, answer0) && now == CountsAfter(ts, from)
  }

  /** Step 5: at most `MAX_RETRIES` attempts, as `LoopEnded` says. The loop never raises:
      every exception inside an attempt, a deeper quiz's included, is absorbed. */
  method RetryLoop(w: World, cfg: Config, lib: Library, quiz: Quiz, url: Value, email: string,
                   start: real, depth: nat, answer0: Value)
    returns (r: Value, ghost run: Run, ghost events: seq<Event>)
    requires depth <= MaxDepth
    modifies w
    decreases MaxDepth + 1 - depth, 4
    ensures w.trace == old(w.trace) + events
    ensures run.Run? && LoopTraceDone(events, depth, quiz.target, start, |run.tries|, cfg)
    ensures Sent(events, run.tries, depth, quiz.target, email, cfg.secret, url)
    ensures LoopEnded(r, run, answer0, quiz, cfg, lib, start, depth, w.clock, w.pages, w.llm, w.posts,
                      old(w.Counts()), w.Counts())
  {
    var answer := answer0;
    var attempt: nat := 0;
    events := [];
    run := Run([]);
    while attempt < cfg.maxRetries
      invariant attempt <= PostCap(cfg) && run.Run? && |run.tries| == attempt
      invariant w.trace == old(w.trace) + events
      invariant LoopTrace(events, depth, quiz.target, start, attempt, cfg)
      invariant Sent(events, run.tries, depth, quiz.target, email, cfg.secret, url)
      invariant Going(run, answer, answer0, quiz, cfg, lib, start, depth, w.clock, w.pages, w.llm, w.posts,
                      old(w.Counts()), w.Counts())
      decreases cfg.maxRetries - attempt
    {
      var step;
      step, run, events := Round(w, cfg, lib, quiz, url, email, start, depth, attempt, answer, answer0,
                                 old(w.trace), events, run, old(w.Counts()));
      if step.Finished? {
        return step.result, run, events;
      }
      if step.Failed? && attempt == cfg.maxRetries - 1 {
        return SubmitFailedDict(step.error.message, answer, quiz.head), run, events;
      }
      answer := NextOf(step, answer);
      attempt := attempt + 1;
    }
    LoopTraceExhausted(events, depth, quiz.target, start, attempt, cfg);
    LoopExhausted(run, answer, answer0, quiz, cfg, lib, start, depth, w.clock, w.pages, w.llm, w.posts,
                  old(w.Counts()), w.Counts());
    return FailedDict(answer, quiz.head), run, events;
  }

  /** The answer the loop goes on with after `step`. */
  function NextOf(step: Step, answer: Value): Value {
    if step.Retry? then step.answer else answer
  }

  /** One round of the retry loop: the attempt, and the loop's attempts after it in `run'`. */
  method Round(w: World, cfg: Config, lib: Library, quiz: Quiz, url: Value, email: string,
               start: real, depth: nat, attempt: nat, answer: Value, answer0: Value,
               ghost trace0: seq<Event>, ghost events: seq<Event>, ghost run: Run, ghost from: Counters)
    returns (step: Step, ghost run': Run, ghost events': seq<Event>)
    requires depth <= MaxDepth && attempt < cfg.maxRetries && run.Run? && |run.tries| == attempt
    requires w.trace == trace0 + events
    requires LoopTrace(events, depth, quiz.target, start, attempt, cfg)
    requires Sent(events, run.tries, depth, quiz.target, email, cfg.secret, url)
    requires Going(run, answer, answer0, quiz, cfg, lib, start, depth, w.clock, w.pages, w.llm, w.posts,
                   from, w.Counts())
    modifies w
    decreases MaxDepth + 1 - depth, 3
    ensures w.trace == trace0 + events'
    ensures run'.Run? && |run'.tries| == attempt + 1
    ensures Sent(events', run'.tries, depth, quiz.target, email, cfg.secret, url)
    ensures step.Finished? ==>
              LoopTraceDone(events', depth, quiz.target, start, attempt + 1, cfg) &&
              LoopEnded(step.result, run', answer0, quiz, cfg, lib, start, depth, w.clock, w.pages, w.llm, w.posts,
                        from, w.Counts())
    ensures step.Failed? && attempt == cfg.maxRetries - 1 ==>
              LoopTraceDone(events', depth, quiz.target, start, attempt + 1, cfg) &&
              LoopEnded(SubmitFailedDict(step.error.message, answer, quiz.head), run',
                        answer0, quiz, cfg, lib, start, depth, w.clock, w.pages, w.llm, w.posts, from, w.Counts())
    ensures !step.Finished? && !(step.Failed? && attempt == cfg.maxRetries - 1) ==>
              LoopTrace(events', depth, quiz.target, start, attempt + 1, cfg) &&
              Going(run', NextOf(step, answer), answer0, quiz, cfg, lib, start, depth, w.clock, w.pages, w.llm,
                    w.posts, from, w.Counts())
  {
    ghost var before := w.Counts();
    var sub;
    ghost var child, stepEvents;
    step, sub, child, stepEvents := Attempt(w, cfg, lib, quiz, url, email, start, depth, attempt, answer);
    ghost var t := Try(answer, step, before, w.Counts(), child);
    run' := Run(run.tries + [t]);
    RoundEnded(step, sub, run, t, answer0, quiz, cfg, lib, start, depth, w.clock, w.pages, w.llm, w.posts, from);
    TraceAssoc(trace0, events, stepEvents);
    events' := events + stepEvents;
    PostedKept(events, stepEvents, run.tries, t, depth, quiz.target, email, cfg.secret, url);
    if step.Finished? {
      LoopTraceFinished(events, stepEvents, depth, quiz.target, start, attempt, cfg);
      return;
    }
    LoopTraceNext(events, stepEvents, depth, quiz.target, start, attempt, cfg);
    if step.Failed? && attempt == cfg.maxRetries - 1 {
      LoopTraceExhausted(events', depth, quiz.target, start, attempt + 1, cfg);
    }
  }

  /** A judged attempt `t` after the attempts of `run`: where it ends the loop, `LoopEnded`
      holds of its result; where it does not, the loop goes on with the answer it gives. */
  lemma RoundEnded(step: Step, sub: Outcome, run: Run, t: Try, answer0: Value, quiz: Quiz, cfg: Config,
                   lib: Library, start: real, depth: nat, clock: nat -> real, pages: nat -> FetchReply,
                   llm: nat -> LlmReplies, posts: nat -> PostReply, from: Counters)
    requires run.Run? && |run.tries| < cfg.maxRetries && t.step == step
    requires Going(run, t.answer, answer0, quiz, cfg, lib, start, depth, clock, pages, llm, posts, from, t.before)
    requires sub == Submitted(lib, quiz.target, t.answer, posts(t.before.submissions))
    requires Judged(step, sub, cfg, lib, quiz, start, depth, |run.tries|, t.answer, clock, pages, llm, posts,
                    AfterSubmit(t.before, quiz.target), t.after, t.child)
    ensures var run' := Run(run.tries + [t]);
      (step.Finished? ==>
         LoopEnded(step.result, run', answer0, quiz, cfg, lib, start, depth, clock, pages, llm, posts, from, t.after)) &&
      (step.Failed? && |run.tries| + 1 == cfg.maxRetries ==>
         LoopEnded(SubmitFailedDict(step.error.message, t.answer, quiz.head), run', answer0, quiz, cfg, lib, start,
                   depth, clock, pages, llm, posts, from, t.after)) &&
      (!step.Finished? && !(step.Failed? && |run.tries| + 1 == cfg.maxRetries) ==>
         Going(run', NextOf(step, t.answer), answer0, quiz, cfg, lib, start, depth, clock, pages, llm, posts,
               from, t.after))
  {
    var ts := run.tries + [t];
    assert TryJudged(t, |run.tries|, quiz, cfg, lib, start, depth, clock, pages, llm, posts);
    TriedSnoc(run, t, answer0, quiz, cfg, lib, start, depth, clock, pages, llm, posts, from);
    assert ts[|ts| - 1] == t;
    forall k | 0 <= k < |run.tries|
      ensures !ts[k].step.Finished? && !(ts[k].step.Failed? && k + 1 == cfg.maxRetries)
    {
      assert ts[k] == run.tries[k];
    }
    if step.Finished? {
      assert LoopEnded(step.result, Run(ts), answer0, quiz, cfg, lib, start, depth, clock, pages, llm, posts,
                       from, t.after);
    } else if step.Failed? && |run.tries| + 1 == cfg.maxRetries {
      assert LoopEnded(SubmitFailedDict(step.error.message, t.answer, quiz.head), Run(ts), answer0, quiz, cfg,
                       lib, start, depth, clock, pages, llm, posts, from, t.after);
    } else {
      if step.Retry? && |run.tries| + 1 == cfg.maxRetries {
        JudgedExits(step, sub, cfg, lib, quiz, start, depth, |run.tries|, t.answer, clock, pages, llm, posts,
                    AfterSubmit(t.before, quiz.target), t.after, t.child);
      }
      assert Going(Run(ts), NextOf(step, t.answer), answer0, quiz, cfg, lib, start, depth, clock, pages, llm,
                   posts, from, t.after);
    }
  }

  /** One more attempt, begun where the attempts of `run` left off with the answer they
      went on with, and judged on its own reply. */
  lemma TriedSnoc(run: Run, t: Try, answer0: Value, quiz: Quiz, cfg: Config, lib: Library, start: real,
                  depth: nat, clock: nat -> real, pages: nat -> FetchReply, llm: nat -> LlmReplies,
                  posts: nat -> PostReply, from: Counters)
    requires Tried(run, answer0, from, quiz, cfg, lib, start, depth, clock, pages, llm, posts)
    requires t.answer == AnswerAfter(run.tries, answer0) && t.before == CountsAfter(run.tries, from)
    requires TryJudged(t, |run.tries|, quiz, cfg, lib, start, depth, clock, pages, llm, posts)
    ensures Tried(Run(run.tries + [t]), answer0, from, quiz, cfg, lib, start, depth, clock, pages, llm, posts)
  {
    var ts := run.tries + [t];
    forall k | 0 <= k < |ts|
      ensures Linked(ts, k, answer0, from) && TryJudged(ts[k], k, quiz, cfg, lib, start, depth, clock, pages, llm, posts)
    {
      if k < |run.tries| {
        assert Linked(run.tries, k, answer0, from);
        assert ts[k] == run.tries[k];
        if k > 0 { assert ts[k - 1] == run.tries[k - 1]; }
      } else if k > 0 {
        assert ts[k - 1] == run.tries[k - 1];
      }
    }
  }

  /** Every attempt used, none of them ending the loop: the "failed" dict with the answer
      the loop went on with. */
  lemma LoopExhausted(run: Run, answer: Value, answer0: Value, quiz: Quiz, cfg: Config, lib: Library,
                      start: real, depth: nat, clock: nat -> real, pages: nat -> FetchReply,
                      llm: nat -> LlmReplies, posts: nat -> PostReply, from: Counters, now: Counters)
    requires Going(run, answer, answer0, quiz, cfg, lib, start, depth, clock, pages, llm, posts, from, now)
    requires |run.tries| == PostCap(cfg)
    ensures LoopEnded(FailedDict(answer, quiz.head), run, answer0, quiz, cfg, lib, start, depth, clock, pages,
                      llm, posts, from, now)
  {
  }

  /** The trace of the first `attempt` attempts at depth `depth`: inside the chain, one
      submission each to a string address, no page fetch at this depth, at most one prompt
      per attempt, and one fewer once every attempt is used. */
  ghost predicate LoopTrace(es: seq<Event>, depth: nat, target: Value, start: real, attempt: nat, cfg: Config) {
    Within(es, depth) && StartsAt(es, start) && PostsTo(es, depth, target) && PostsOnlyAt(es, depth) &&
    Count(es, depth, FetchKind) == 0 &&
    Count(es, depth, PostKind) == (if target.Str? then attempt else 0) &&
    Count(es, depth, PromptKind) <= attempt &&
    (attempt == PostCap(cfg) && 0 < attempt ==> Count(es, depth, PromptKind) < attempt)
  }

  /** The trace of a whole retry loop of `attempts` attempts. */
  ghost predicate LoopTraceDone(es: seq<Event>, depth: nat, target: Value, start: real, attempts: nat, cfg: Config) {
    Within(es, depth) && StartsAt(es, start) && PostsTo(es, depth, target) &&
    PostsBounded(es, PostCap(cfg)) &&
    Count(es, depth, FetchKind) == 0 &&
    Count(es, depth, PostKind) == (if target.Str? then attempts else 0) &&
    Count(es, depth, PromptKind) <= RefineCap(cfg)
  }

  /** The answer of every attempt in `ts` was submitted to the string address `target`. */
  ghost predicate Sent(es: seq<Event>, ts: seq<Try>, depth: nat, target: Value, email: string,
                       secret: string, url: Value) {
    target.Str? ==>
      forall k :: 0 <= k < |ts| ==> Posted(depth, target.s, Payload(email, ts[k].answer, secret, url)) in es
  }

  /** One more attempt that did not end the loop. */
  lemma LoopTraceNext(before: seq<Event>, step: seq<Event>, depth: nat, target: Value, start: real,
                      attempt: nat, cfg: Config)
    requires LoopTrace(before, depth, target, start, attempt, cfg) && attempt < cfg.maxRetries
    requires StepTrace(step, depth, target, start, if attempt + 1 < cfg.maxRetries then 1 else 0)
    requires PostsOnlyAt(step, depth)
    ensures LoopTrace(before + step, depth, target, start, attempt + 1, cfg)
  {
    LoopFacts(before, step, depth, target, start);
    OnlyAtAppend(before, step, depth);
  }

  /** An attempt that ended the loop. */
  lemma LoopTraceFinished(before: seq<Event>, step: seq<Event>, depth: nat, target: Value, start: real,
                          attempt: nat, cfg: Config)
    requires LoopTrace(before, depth, target, start, attempt, cfg) && attempt < cfg.maxRetries
    requires StepTrace(step, depth, target, start, if attempt + 1 < cfg.maxRetries then 1 else 0)
    requires PostsBounded(step, PostCap(cfg))
    ensures LoopTraceDone(before + step, depth, target, start, attempt + 1, cfg)
  {
    LoopFacts(before, step, depth, target, start);
    FinishedBound(before, step, depth, PostCap(cfg));
    var es := before + step;
    assert Count(es, depth, PromptKind) == Count(before, depth, PromptKind) + Count(step, depth, PromptKind);
    assert Count(es, depth, PostKind) == Count(before, depth, PostKind) + Count(step, depth, PostKind);
  }

  /** Every attempt used. */
  lemma LoopTraceExhausted(es: seq<Event>, depth: nat, target: Value, start: real, attempts: nat, cfg: Config)
    requires LoopTrace(es, depth, target, start, attempts, cfg) && attempts == PostCap(cfg)
    ensures LoopTraceDone(es, depth, target, start, attempts, cfg)
  {
    forall d: nat ensures Count(es, d, PostKind) <= PostCap(cfg) {
    }
  }

  /** The submission of an attempt joins the earlier ones in the trace. */
  lemma PostedKept(before: seq<Event>, step: seq<Event>, ts: seq<Try>, t: Try, depth: nat,
                   target: Value, email: string, secret: string, url: Value)
    requires Sent(before, ts, depth, target, email, secret, url)
    requires target.Str? ==> |step| > 0 && step[0] == Posted(depth, target.s, Payload(email, t.answer, secret, url))
    ensures Sent(before + step, ts + [t], depth, target, email, secret, url)
  {
    if target.Str? {
      var all := ts + [t];
      forall k | 0 <= k < |all|
        ensures Posted(depth, target.s, Payload(email, all[k].answer, secret, url)) in before + step
      {
        if k < |ts| {
          assert all[k] == ts[k];
        } else {
          assert (before + step)[|before|] == step[0];
        }
      }
    }
  }

  /** The loop's trace facts survive one more attempt. */
  lemma LoopFacts(before: seq<Event>, step: seq<Event>, depth: nat, target: Value, start: real)
    requires Within(before, depth) && StartsAt(before, start) && PostsTo(before, depth, target)
    requires Within(step, depth) && StartsAt(step, start) && PostsTo(step, depth, target)
    ensures Within(before + step, depth) && StartsAt(before + step, start)
    ensures PostsTo(before + step, depth, target)
    ensures forall k :: Count(before + step, depth, k) == Count(before, depth, k) + Count(step, depth, k)
  {
    WithinAppend(before, step, depth);
    StartsAtAppend(before, step, start);
    PostsToAppend(before, step, depth, target);
    forall k ensures Count(before + step, depth, k) == Count(before, depth, k) + Count(step, depth, k) {
      CountAppend(before, step, depth, k);
    }
  }

  lemma OnlyAtAppend(a: seq<Event>, b: seq<Event>, depth: nat)
    requires PostsOnlyAt(a, depth) && PostsOnlyAt(b, depth)
    ensures PostsOnlyAt(a + b, depth)
  {
    forall e: nat | e != depth ensures Count(a + b, e, PostKind) == 0 {
      CountAppend(a, b, e, PostKind);
    }
  }

  lemma FinishedBound(before: seq<Event>, step: seq<Event>, depth: nat, cap: nat)
    requires PostsOnlyAt(before, depth) && Count(before, depth, PostKind) < cap
    requires Count(step, depth, PostKind) <= 1 && PostsBounded(step, cap)
    ensures PostsBounded(before + step, cap)
  {
    forall d: nat ensures Count(before + step, d, PostKind) <= cap {
      CountAppend(before, step, d, PostKind);
    }
  }

  /** `solve_quiz(url, email, start_time, depth)`, as `QuizEnded` says. It raises only
      before the first submission, after a page fetch at most; otherwise it returns the
      retry loop's result, the loop having started from the first answer. */
  method SolveQuiz(w: World, cfg: Config, lib: Library, url: Value, email: string,
                   startTime: Option<real>, depth: nat)
    returns (r: Outcome, ghost run: Run, ghost events: seq<Event>)
    modifies w
    decreases MaxDepth + 1 - (if depth <= MaxDepth then depth else MaxDepth + 1), 6
    ensures w.trace == old(w.trace) + events
    ensures Within(events, depth) && StartsAt(events, StartOf(startTime, w.clock, old(w.ticks)))
    ensures PostsBounded(events, PostCap(cfg))
    ensures var entry := Entry(depth, startTime, cfg, w.clock, old(w.ticks));
      entry.Failure? ==> r == Raised(entry.error) && events == [] && w.fetches == old(w.fetches)
    ensures var entry := Entry(depth, startTime, cfg, w.clock, old(w.ticks));
      entry.Success? ==> Count(events, depth, FetchKind) == 1
    ensures var entry := Entry(depth, startTime, cfg, w.clock, old(w.ticks));
      entry.Success? && r.Raised? ==> events == [FetchedPage(depth, url, entry.value)]
    ensures QuizEnded(r, run, cfg, lib, url, startTime, depth, w.clock, w.pages, w.llm, w.posts,
                      old(w.Counts()), w.Counts())
    ensures r.Raised? ==> |events| <= 1 && forall i :: 0 <= i < |events| ==> events[i].FetchedPage?
  {
    ghost var c0 := w.Counts();
    var entry := Enter(w, cfg, startTime, depth);
    ghost var entered := c0.(ticks := c0.ticks + EntryTicks(depth, startTime));
    assert w.Counts() == entered;
    if entry.Failure? {
      return Raised(entry.error), NoRun, [];
    }
    var start := entry.value;
    ghost var t0 := w.trace;
    var prep := Prepare(w, lib, url, depth, start);
    ghost var fetched := [FetchedPage(depth, url, start)];
    assert Count(fetched, depth, FetchKind) == 1 by { assert fetched[..0] == []; }
    ghost var prepared := entered.(fetches := entered.fetches + 1);
    assert w.Counts() == prepared;
    if prep.Failure? {
      return Raised(prep.error), NoRun, fetched;
    }
    var result;
    ghost var rest;
    result, run, rest := SolveAndSubmit(w, cfg, lib, prep.value, url, email, start, depth);
    assert QuizPrepared(Returned(result), run, cfg, lib, url, start, depth, w.clock, w.pages, w.llm, w.posts,
                        entered, w.Counts());
    TraceAssoc(t0, fetched, rest);
    ChainFacts(fetched, rest, depth, start, PostCap(cfg));
    return Returned(result), run, fetched + rest;
  }

  /** The answer the loop starts from: the model's answer to the question, or the fallback. */
  function FirstOf(lib: Library, cfg: Config, quiz: Quiz, replies: LlmReplies): Value {
    InitialAnswer(Solve(Display(lib, quiz.question), quiz.ctx, cfg, lib, replies))
  }

  /** Steps 4 and 5 for a prepared quiz: the first answer from the LLM, then the retry loop
      from that answer. */
  method SolveAndSubmit(w: World, cfg: Config, lib: Library, quiz: Quiz, url: Value, email: string,
                        start: real, depth: nat)
    returns (r: Value, ghost run: Run, ghost events: seq<Event>)
    requires depth <= MaxDepth
    modifies w
    decreases MaxDepth + 1 - depth, 5
    ensures w.trace == old(w.trace) + events
    ensures Within(events, depth) && StartsAt(events, start) && PostsBounded(events, PostCap(cfg))
    ensures Count(events, depth, FetchKind) == 0
    ensures Answered(r, run, quiz, cfg, lib, start, depth, w.clock, w.pages, w.llm, w.posts, old(w.Counts()), w.Counts())
  {
    ghost var t0 := w.trace;
    var answer := FirstAnswer(w, cfg, lib, quiz, depth);
    ghost var from := w.Counts();
    ghost var p := Prompt(Display(lib, quiz.question), quiz.ctx, lib);
    ghost var prompted: seq<Event> := if p.Some? then [Prompted(depth, p.value)] else [];
    ghost var loopEvents;
    r, run, loopEvents := RetryLoop(w, cfg, lib, quiz, url, email, start, depth, answer);
    AnsweredAfterFirst(r, run, answer, quiz, cfg, lib, start, depth, w.clock, w.pages, w.llm, w.posts,
                       old(w.Counts()), from, w.Counts());
    TraceAssoc(t0, prompted, loopEvents);
    PromptedFacts(prompted, loopEvents, depth, start, PostCap(cfg));
    events := prompted + loopEvents;
  }

  /** A loop begun with the first answer, once that answer's prompt was counted, is the
      loop `Answered` describes. */
  lemma AnsweredAfterFirst(r: Value, run: Run, answer: Value, quiz: Quiz, cfg: Config, lib: Library, start: real,
                           depth: nat, clock: nat -> real, pages: nat -> FetchReply, llm: nat -> LlmReplies,
                           posts: nat -> PostReply, c0: Counters, from: Counters, to: Counters)
    requires from == c0.(prompts := c0.prompts + Asked(quiz.ctx, lib))
    requires answer == FirstOf(lib, cfg, quiz, llm(c0.prompts))
    requires LoopEnded(r, run, answer, quiz, cfg, lib, start, depth, clock, pages, llm, posts, from, to)
    ensures Answered(r, run, quiz, cfg, lib, start, depth, clock, pages, llm, posts, c0, to)
  {
  }

  /** The first prompt followed by the loop's trace. */
  lemma PromptedFacts(prompted: seq<Event>, loop: seq<Event>, depth: nat, start: real, cap: nat)
    requires depth <= MaxDepth
    requires |prompted| <= 1 && forall i :: 0 <= i < |prompted| ==> prompted[i].Prompted? && prompted[i].depth == depth
    requires Within(loop, depth) && StartsAt(loop, start) && PostsBounded(loop, cap)
    requires Count(loop, depth, FetchKind) == 0
    ensures Within(prompted + loop, depth) && StartsAt(prompted + loop, start)
    ensures PostsBounded(prompted + loop, cap)
    ensures Count(prompted + loop, depth, FetchKind) == 0
  {
    WithinAppend(prompted, loop, depth);
    StartsAtAppend(prompted, loop, start);
    forall d: nat, k | k != PromptKind ensures Count(prompted + loop, d, k) == Count(loop, d, k) {
      CountAppend(prompted, loop, d, k);
      if |prompted| == 1 { assert prompted[..0] == []; }
    }
  }

  /** The fetch followed by the rest of the chain's trace. */
  lemma ChainFacts(fetched: seq<Event>, rest: seq<Event>, depth: nat, start: real, cap: nat)
    requires depth <= MaxDepth
    requires |fetched| == 1 && fetched[0].FetchedPage? && fetched[0].depth == depth && fetched[0].start == start
    requires Within(rest, depth) && StartsAt(rest, start) && PostsBounded(rest, cap)
    requires Count(rest, depth, FetchKind) == 0
    ensures Within(fetched + rest, depth) && StartsAt(fetched + rest, start)
    ensures PostsBounded(fetched + rest, cap)
    ensures Count(fetched + rest, depth, FetchKind) == 1
  {
    WithinAppend(fetched, rest, depth);
    StartsAtAppend(fetched, rest, start);
    assert fetched[..0] == [];
    forall d: nat, k | k == PostKind || (d == depth && k == FetchKind)
      ensures Count(fetched + rest, d, k) == Count(rest, d, k) + if k == FetchKind then 1 else 0
    {
      CountAppend(fetched, rest, d, k);
    }
  }

  // ---------------------------------------------------------------------------------------
  // The world determines how a quiz ends

  /** Two judgements of the same submission outcome, from the same counters, agree: the
      step, the counters after it and the next quiz's run are all determined. */
  lemma {:induction false} JudgedUnique(step1: Step, after1: Counters, child1: Run, step2: Step, after2: Counters,
                                        child2: Run, sub: Outcome, cfg: Config, lib: Library, quiz: Quiz,
                                        start: real, depth: nat, attempt: nat, answer: Value, clock: nat -> real,
                                        pages: nat -> FetchReply, llm: nat -> LlmReplies, posts: nat -> PostReply,
                                        at: Counters)
    requires Judged(step1, sub, cfg, lib, quiz, start, depth, attempt, answer, clock, pages, llm, posts,
                    at, after1, child1)
    requires Judged(step2, sub, cfg, lib, quiz, start, depth, attempt, answer, clock, pages, llm, posts,
                    at, after2, child2)
    ensures step1 == step2 && after1 == after2 && child1 == child2
    decreases child1, 4, 0
  {
    if sub.Returned? && Classify(sub.value).Success? && Classify(sub.value).value.Accept? &&
       Truthy(Classify(sub.value).value.next) {
      var next := Classify(sub.value).value.next;
      var o1 := if step1.Finished? then Returned(step1.result) else Raised(step1.error);
      var o2 := if step2.Finished? then Returned(step2.result) else Raised(step2.error);
      QuizUnique(o1, child1, after1, o2, child2, after2, cfg, lib, next, Some(start), depth + 1, clock, pages,
                 llm, posts, at);
    }
  }

  /** `solve_quiz` in a given world has one ending: the result, the run and the counters
      after it are determined by the counters it starts from. */
  lemma {:induction false} QuizUnique(r1: Outcome, run1: Run, to1: Counters, r2: Outcome, run2: Run, to2: Counters,
                                      cfg: Config, lib: Library, url: Value, startTime: Option<real>, depth: nat,
                                      clock: nat -> real, pages: nat -> FetchReply, llm: nat -> LlmReplies,
                                      posts: nat -> PostReply, from: Counters)
    requires QuizEnded(r1, run1, cfg, lib, url, startTime, depth, clock, pages, llm, posts, from, to1)
    requires QuizEnded(r2, run2, cfg, lib, url, startTime, depth, clock, pages, llm, posts, from, to2)
    ensures r1 == r2 && run1 == run2 && to1 == to2
    decreases run1, 3, 0
  {
    var entry := Entry(depth, startTime, cfg, clock, from.ticks);
    if entry.Success? {
      var entered := from.(ticks := from.ticks + EntryTicks(depth, startTime));
      PreparedUnique(r1, run1, to1, r2, run2, to2, cfg, lib, url, entry.value, depth, clock, pages, llm, posts,
                     entered);
    }
  }

  /** The same, from the moment the entry check has passed. */
  lemma {:induction false} PreparedUnique(r1: Outcome, run1: Run, to1: Counters, r2: Outcome, run2: Run,
                                          to2: Counters, cfg: Config, lib: Library, url: Value, start: real,
                                          depth: nat, clock: nat -> real, pages: nat -> FetchReply,
                                          llm: nat -> LlmReplies, posts: nat -> PostReply, from: Counters)
    requires QuizPrepared(r1, run1, cfg, lib, url, start, depth, clock, pages, llm, posts, from, to1)
    requires QuizPrepared(r2, run2, cfg, lib, url, start, depth, clock, pages, llm, posts, from, to2)
    ensures r1 == r2 && run1 == run2 && to1 == to2
    decreases run1, 2, 0
  {
    var prep := Prepared(url, pages(from.fetches), lib);
    if prep.Success? {
      var fetched := from.(fetches := from.fetches + 1);
      var quiz := prep.value;
      assert Answered(r1.value, run1, quiz, cfg, lib, start, depth, clock, pages, llm, posts, fetched, to1);
      assert Answered(r2.value, run2, quiz, cfg, lib, start, depth, clock, pages, llm, posts, fetched, to2);
      LoopUnique(r1.value, run1, to1, r2.value, run2, to2, quiz, cfg, lib, start, depth, clock, pages, llm, posts,
                 fetched);
    }
  }

  /** The retry loop, as `solve_and_submit` starts it in a given world, has one ending: its
      result, its attempts and the counters after it are determined by the quiz and the
      counters it starts from. */
  lemma {:induction false} LoopUnique(r1: Value, run1: Run, to1: Counters, r2: Value, run2: Run, to2: Counters,
                                      quiz: Quiz, cfg: Config, lib: Library, start: real, depth: nat,
                                      clock: nat -> real, pages: nat -> FetchReply, llm: nat -> LlmReplies,
                                      posts: nat -> PostReply, from: Counters)
    requires Answered(r1, run1, quiz, cfg, lib, start, depth, clock, pages, llm, posts, from, to1)
    requires Answered(r2, run2, quiz, cfg, lib, start, depth, clock, pages, llm, posts, from, to2)
    ensures r1 == r2 && run1 == run2 && to1 == to2
    decreases run1, 1, 0
  {
    var answer0 := FirstOf(lib, cfg, quiz, llm(from.prompts));
    var asked := from.(prompts := from.prompts + Asked(quiz.ctx, lib));
    var ts1, ts2 := run1.tries, run2.tries;
    var n := if |ts1| <= |ts2| then |ts1| else |ts2|;
    TriesAgree(run1, run2, n, answer0, asked, quiz, cfg, lib, start, depth, clock, pages, llm, posts);
    SameLength(r1, run1, to1, r2, run2, to2, answer0, quiz, cfg, lib, start, depth, clock, pages, llm, posts,
               asked);
    assert ts1 == ts2;
  }

  /** Two runs of the same loop whose shorter one is a prefix of the longer are equally
      long, reach the same counters and return the same result: only the last attempt
      ends the loop. */
  lemma SameLength(r1: Value, run1: Run, to1: Counters, r2: Value, run2: Run, to2: Counters, answer0: Value,
                   quiz: Quiz, cfg: Config, lib: Library, start: real, depth: nat, clock: nat -> real,
                   pages: nat -> FetchReply, llm: nat -> LlmReplies, posts: nat -> PostReply, from: Counters)
    requires LoopEnded(r1, run1, answer0, quiz, cfg, lib, start, depth, clock, pages, llm, posts, from, to1)
    requires LoopEnded(r2, run2, answer0, quiz, cfg, lib, start, depth, clock, pages, llm, posts, from, to2)
    requires forall k :: 0 <= k < |run1.tries| && k < |run2.tries| ==> run1.tries[k] == run2.tries[k]
    ensures |run1.tries| == |run2.tries| && r1 == r2 && to1 == to2
  {
  }

  /** The first `n` attempts of two runs of the same loop are the same attempts. */
  lemma {:induction false} TriesAgree(run1: Run, run2: Run, n: nat, answer0: Value, from: Counters, quiz: Quiz,
                                      cfg: Config, lib: Library, start: real, depth: nat, clock: nat -> real,
                                      pages: nat -> FetchReply, llm: nat -> LlmReplies, posts: nat -> PostReply)
    requires Tried(run1, answer0, from, quiz, cfg, lib, start, depth, clock, pages, llm, posts)
    requires Tried(run2, answer0, from, quiz, cfg, lib, start, depth, clock, pages, llm, posts)
    requires n <= |run1.tries| && n <= |run2.tries|
    ensures forall k :: 0 <= k < n ==> run1.tries[k] == run2.tries[k]
    decreases run1, 0, n
  {
    if n > 0 {
      TriesAgree(run1, run2, n - 1, answer0, from, quiz, cfg, lib, start, depth, clock, pages, llm, posts);
      var k := n - 1;
      var t1, t2 := run1.tries[k], run2.tries[k];
      assert Linked(run1.tries, k, answer0, from) && Linked(run2.tries, k, answer0, from);
      assert t1.answer == t2.answer && t1.before == t2.before by {
        if k > 0 { assert run1.tries[k - 1] == run2.tries[k - 1]; }
      }
      assert TryJudged(t1, k, quiz, cfg, lib, start, depth, clock, pages, llm, posts);
      assert TryJudged(t2, k, quiz, cfg, lib, start, depth, clock, pages, llm, posts);
      JudgedUnique(t1.step, t1.after, t1.child, t2.step, t2.after, t2.child,
                   Submitted(lib, quiz.target, t1.answer, posts(t1.before.submissions)), cfg, lib, quiz, start,
                   depth, k, t1.answer, clock, pages, llm, posts, AfterSubmit(t1.before, quiz.target));
    }
  }

  /** An answer accepted on the first submission, with no next quiz, ends the loop at once
      with that submission's result. */
  lemma AcceptedAtOnce(r: Value, run: Run, answer0: Value, quiz: Quiz, cfg: Config, lib: Library, start: real,
                       depth: nat, clock: nat -> real, pages: nat -> FetchReply, llm: nat -> LlmReplies,
                       posts: nat -> PostReply, from: Counters, to: Counters)
    requires LoopEnded(r, run, answer0, quiz, cfg, lib, start, depth, clock, pages, llm, posts, from, to)
    requires 0 < cfg.maxRetries
    requires var sub := Submitted(lib, quiz.target, answer0, posts(from.submissions));
      sub.Returned? && Classify(sub.value).Success? && Classify(sub.value).value.Accept? &&
      !Truthy(Classify(sub.value).value.next)
    ensures |run.tries| == 1 && Returned(r) == Submitted(lib, quiz.target, answer0, posts(from.submissions))
    ensures to == AfterSubmit(from, quiz.target)
  {
    var ts := run.tries;
    assert |ts| > 0;
    assert Linked(ts, 0, answer0, from);
    var t := ts[0];
    assert t.answer == answer0 && t.before == from;
    var sub := Submitted(lib, quiz.target, answer0, posts(from.submissions));
    assert TryJudged(t, 0, quiz, cfg, lib, start, depth, clock, pages, llm, posts);
    assert Judged(t.step, sub, cfg, lib, quiz, start, depth, 0, answer0, clock, pages, llm, posts,
                  AfterSubmit(from, quiz.target), t.after, t.child);
    assert t.step == Finished(sub.value, Accepted) && t.after == AfterSubmit(from, quiz.target);
    assert |ts| == 1;
  }

  /** The number of submissions in a trace, at any depth. */
  function Submissions(es: seq<Event>): nat {
    if |es| == 0 then 0
    else Submissions(es[..|es| - 1]) + if es[|es| - 1].Posted? then 1 else 0
  }

  /** The submissions made at depths `lo` to `hi`. */
  function PostsBetween(es: seq<Event>, lo: nat, hi: nat): nat
    decreases hi + 1 - lo
  {
    if lo > hi then 0 else Count(es, lo, PostKind) + PostsBetween(es, lo + 1, hi)
  }

  lemma {:induction false} PostsBetweenSnoc(es: seq<Event>, e: Event, lo: nat, hi: nat)
    ensures PostsBetween(es + [e], lo, hi) ==
            PostsBetween(es, lo, hi) + if e.Posted? && lo <= e.depth <= hi then 1 else 0
    decreases hi + 1 - lo
  {
    if lo <= hi {
      assert (es + [e])[..|es + [e]| - 1] == es;
      PostsBetweenSnoc(es, e, lo + 1, hi);
    }
  }

  /** Every submission of a trace inside the chain happened at one of the depths `lo` to
      the ceiling. */
  lemma {:induction false} SubmissionsByDepth(es: seq<Event>, lo: nat)
    requires Within(es, lo)
    ensures Submissions(es) == PostsBetween(es, lo, MaxDepth)
  {
    if |es| == 0 {
      PostsBetweenNone(lo, MaxDepth);
    } else {
      var init := es[..|es| - 1];
      assert es == init + [es[|es| - 1]];
      SubmissionsByDepth(init, lo);
      PostsBetweenSnoc(init, es[|es| - 1], lo, MaxDepth);
    }
  }

  lemma {:induction false} PostsBetweenNone(lo: nat, hi: nat)
    ensures PostsBetween([], lo, hi) == 0
    decreases hi + 1 - lo
  {
    if lo <= hi {
      PostsBetweenNone(lo + 1, hi);
    }
  }

  lemma {:induction false} PostsBetweenBound(es: seq<Event>, lo: nat, hi: nat, cap: nat)
    requires lo <= hi + 1 && PostsBounded(es, cap)
    ensures PostsBetween(es, lo, hi) <= (hi + 1 - lo) * cap
    decreases hi + 1 - lo
  {
    if lo <= hi {
      PostsBetweenBound(es, lo + 1, hi, cap);
      assert (hi + 1 - lo) * cap == cap + (hi - lo) * cap;
    }
  }

  /** With the default settings a chain makes at most 33 submissions: three at each of
      the depths 0 to 10. */
  lemma DefaultChainBound(es: seq<Event>)
    requires Within(es, 0) && PostsBounded(es, PostCap(DefaultConfig()))
    ensures Submissions(es) <= 33
  {
    ChainSubmissionBound(es, 0, DefaultConfig());
  }

  /** With the default settings a quiz inside the depth limit is refused exactly when more
      than 180 seconds have passed since the chain started. */
  lemma DefaultWindow(depth: nat, t: real, clock: nat -> real, ticks: nat)
    requires depth <= MaxDepth
    ensures Entry(depth, Some(t), DefaultConfig(), clock, ticks) == Failure(ValueError(WindowMessage)) <==>
            clock(ticks) - t > 180.0
  {
  }

  /** The submissions a whole chain may make: `MAX_RETRIES` at each depth 0 to 10. */
  function ChainCap(cfg: Config): nat {
    (MaxDepth + 1) * PostCap(cfg)
  }

  /** A chain from depth 0 stays within `ChainCap`. */
  lemma WholeChainBound(es: seq<Event>, cfg: Config)
    requires Within(es, 0) && PostsBounded(es, PostCap(cfg))
    ensures Submissions(es) <= ChainCap(cfg)
  {
    ChainSubmissionBound(es, 0, cfg);
  }

  /** A chain that starts at depth `depth` makes at most MAX_RETRIES submissions per level,
      hence at most `(11 - depth) * MAX_RETRIES` in all. */
  lemma ChainSubmissionBound(es: seq<Event>, depth: nat, cfg: Config)
    requires depth <= MaxDepth && Within(es, depth) && PostsBounded(es, PostCap(cfg))
    ensures Submissions(es) <= (MaxDepth + 1 - depth) * PostCap(cfg)
  {
    SubmissionsByDepth(es, depth);
    PostsBetweenBound(es, depth, MaxDepth, PostCap(cfg));
  }
}
