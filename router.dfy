/** The `/solving` endpoint of app/server/router.py: the request validators, the secret
    check, and the mapping from how `solve_quiz` ends to an HTTP response. */
module Router {
  import opened Wrappers
  import opened Strings
  import opened Json
  import opened Environment
  import opened Solver

  /** A request whose three fields passed their validators. */
  datatype SolveRequest = SolveRequest(email: string, secret: string, url: string)

  /** What the endpoint answers: the solver's result as the body, an HTTP error with its
      detail, or a 422 listing each validator's message in field order. */
  datatype Response = Ok(body: Value) | HttpError(status: int, detail: string) | Unprocessable(errors: seq<string>)

  /** Python's `not v or not v.strip()`. */
  predicate Blank(v: string) {
    v == [] || Strip(v) == []
  }

  /** The `email` validator: a blank email is refused, any other is kept as given. */
  function ValidateEmail(v: string): (r: Result<string, string>)
    ensures r.Failure? <==> AllSpace(v)
    ensures r.Success? ==> r.value == v
    ensures r.Failure? ==> r.error == "Email cannot be empty"
  {
    StripEmptyIffBlank(v);
    if Blank(v) then Failure("Email cannot be empty") else Success(v)
  }

  /** The `secret` validator, the same rule as for the email. */
  function ValidateSecret(v: string): (r: Result<string, string>)
    ensures r.Failure? <==> AllSpace(v)
    ensures r.Success? ==> r.value == v
    ensures r.Failure? ==> r.error == "Secret cannot be empty"
  {
    StripEmptyIffBlank(v);
    if Blank(v) then Failure("Secret cannot be empty") else Success(v)
  }

  /** The schemes the `url` validator lets through. */
  predicate AllowedScheme(v: string) {
    IsPrefix("http://", v) || IsPrefix("https://", v) || IsPrefix("file://", v)
  }

  /** The `url` validator: empty first, then the scheme prefix. */
  function ValidateUrl(v: string): (r: Result<string, string>)
    ensures r.Success? <==> AllowedScheme(v)
    ensures r.Success? ==> r.value == v
    ensures v == [] ==> r == Failure("URL cannot be empty")
    ensures v != [] && !AllowedScheme(v) ==> r == Failure("URL must start with http://, https://, or file://")
  {
    if v == [] then Failure("URL cannot be empty")
    else if !AllowedScheme(v) then Failure("URL must start with http://, https://, or file://")
    else Success(v)
  }

  /** The message of a failed validation, none when it passed. */
  function ErrorsOf(r: Result<string, string>): seq<string> {
    if r.Failure? then [r.error] else []
  }

  /** Every field is validated, and every failure is reported, in field order. */
  function Validate(email: string, secret: string, url: string): (r: Result<SolveRequest, seq<string>>)
    ensures r.Success? <==> ValidateEmail(email).Success? && ValidateSecret(secret).Success? && ValidateUrl(url).Success?
    ensures r.Success? ==> r.value == SolveRequest(email, secret, url)
    ensures r.Failure? ==> r.error == ErrorsOf(ValidateEmail(email)) + ErrorsOf(ValidateSecret(secret)) + ErrorsOf(ValidateUrl(url))
    ensures r.Failure? ==> 1 <= |r.error| <= 3
  {
    var errors := ErrorsOf(ValidateEmail(email)) + ErrorsOf(ValidateSecret(secret)) + ErrorsOf(ValidateUrl(url));
    if errors == [] then Success(SolveRequest(email, secret, url)) else Failure(errors)
  }

  /** The `try`/`except` around `solve_quiz`: its result as the body, a `ValueError` as 400
      with the message, any other exception as 500. */
  function StatusOf(outcome: Outcome): (r: Response)
    ensures r.Ok? <==> outcome.Returned?
    ensures r.Ok? ==> r.body == outcome.value
    ensures r.HttpError? && r.status == 400 <==> outcome.Raised? && outcome.error.ValueError?
    ensures r.HttpError? && r.status == 500 <==> outcome.Raised? && outcome.error.OtherError?
    ensures outcome.Raised? && outcome.error.ValueError? ==> r.detail == outcome.error.message
    ensures outcome.Raised? && outcome.error.OtherError? ==> r.detail == "internal error: " + outcome.error.message
  {
    match outcome
    case Returned(v) => Ok(v)
    case Raised(ValueError(m)) => HttpError(400, m)
    case Raised(OtherError(m)) => HttpError(500, "internal error: " + m)
  }

  /** `POST /solving`. The validators run first; a secret other than the configured one is
      refused with 403 before the solver is called; otherwise the chain is solved from
      depth 0 and its ending is mapped to a response. `ran` is how the solver ended, None
      when it was not called. */
  method Solving(w: World, cfg: Config, lib: Library, email: string, secret: string, url: string)
    returns (r: Response, ghost ran: Option<Outcome>, ghost events: seq<Event>)
    modifies w
    ensures w.trace == old(w.trace) + events
    ensures Validate(email, secret, url).Failure? ==>
              r == Unprocessable(Validate(email, secret, url).error) && ran.None? && events == []
    ensures Validate(email, secret, url).Success? && secret != cfg.secret ==>
              r == HttpError(403, "invalid secret") && ran.None? && events == []
    ensures ran.None? ==> w.fetches == old(w.fetches) && w.submissions == old(w.submissions)
    ensures ran.Some? <==> Validate(email, secret, url).Success? && secret == cfg.secret
    ensures ran.Some? ==> r == StatusOf(ran.value)
    ensures ran.Some? ==> ChainEnded(ran.value, events, cfg, lib, url, w.clock, w.pages, w.llm, w.posts,
                                     old(w.Counts()), w.Counts())
    ensures Within(events, 0) && PostsBounded(events, PostCap(cfg))
    ensures Submissions(events) <= ChainCap(cfg)
  {
    var req := Validate(email, secret, url);
    if req.Failure? {
      return Unprocessable(req.error), None, [];
    }
    if secret != cfg.secret {
      return HttpError(403, "invalid secret"), None, [];
    }
    var outcome;
    outcome, events := SolveChain(w, cfg, lib, url, email);
    return StatusOf(outcome), Some(outcome), events;
  }

  /** How a chain from depth 0 ended, with its trace `events`, begun with the counters
      `from` and ended with `to`: a failed entry check raises before anything is recorded,
      and otherwise the first quiz ran as `QuizEnded` says, which, attempt by attempt and
      through every accepted answer naming a next quiz, says how each quiz of the chain
      ran. */
  ghost predicate ChainEnded(outcome: Outcome, events: seq<Event>, cfg: Config, lib: Library, url: string,
                            clock: nat -> real, pages: nat -> FetchReply, llm: nat -> LlmReplies,
                            posts: nat -> PostReply, from: Counters, to: Counters) {
    (Entry(0, None, cfg, clock, from.ticks).Failure? ==> events == []) &&
    exists run :: QuizEnded(outcome, run, cfg, lib, Str(url), None, 0, clock, pages, llm, posts, from, to)
  }

  /** `solve_quiz(str(req.url), req.email)`: a chain from depth 0 with no start time. */
  method SolveChain(w: World, cfg: Config, lib: Library, url: string, email: string)
    returns (outcome: Outcome, ghost events: seq<Event>)
    modifies w
    ensures w.trace == old(w.trace) + events
    ensures Within(events, 0) && PostsBounded(events, PostCap(cfg))
    ensures StartsAt(events, w.clock(old(w.ticks)))
    ensures Submissions(events) <= ChainCap(cfg)
    ensures ChainEnded(outcome, events, cfg, lib, url, w.clock, w.pages, w.llm, w.posts,
                       old(w.Counts()), w.Counts())
  {
    ghost var run;
    outcome, run, events := SolveQuiz(w, cfg, lib, Str(url), email, None, 0);
    WholeChainBound(events, cfg);
  }

  /** A chain started in a given world has one ending: the outcome, and so the response,
      and the counters after it are determined by the counters it starts from. */
  lemma ChainUnique(o1: Outcome, events1: seq<Event>, to1: Counters, o2: Outcome, events2: seq<Event>,
                    to2: Counters, cfg: Config, lib: Library, url: string, clock: nat -> real,
                    pages: nat -> FetchReply, llm: nat -> LlmReplies, posts: nat -> PostReply, from: Counters)
    requires ChainEnded(o1, events1, cfg, lib, url, clock, pages, llm, posts, from, to1)
    requires ChainEnded(o2, events2, cfg, lib, url, clock, pages, llm, posts, from, to2)
    ensures o1 == o2 && StatusOf(o1) == StatusOf(o2) && to1 == to2
  {
    var run1 :| QuizEnded(o1, run1, cfg, lib, Str(url), None, 0, clock, pages, llm, posts, from, to1);
    var run2 :| QuizEnded(o2, run2, cfg, lib, Str(url), None, 0, clock, pages, llm, posts, from, to2);
    QuizUnique(o1, run1, to1, o2, run2, to2, cfg, lib, Str(url), None, 0, clock, pages, llm, posts, from);
  }

  // ---- properties of the validators and the status mapping ----

  /** The validators never alter what they accept. */
  lemma ValidatedAsGiven(email: string, secret: string, url: string)
    requires Validate(email, secret, url).Success?
    ensures var req := Validate(email, secret, url).value;
      req.email == email && req.secret == secret && req.url == url
    ensures !AllSpace(email) && !AllSpace(secret) && AllowedScheme(url)
  {
  }

  /** A URL with another scheme is refused whatever the other fields hold, and the three
      HTTP schemes pass. */
  lemma UrlSchemes(rest: string)
    ensures ValidateUrl("http://" + rest).Success?
    ensures ValidateUrl("https://" + rest).Success?
    ensures ValidateUrl("file://" + rest).Success?
    ensures ValidateUrl("ftp://" + rest).Failure?
  {
    assert IsPrefix("http://", "http://" + rest);
    assert IsPrefix("https://", "https://" + rest);
    assert IsPrefix("file://", "file://" + rest);
    var s := "ftp://" + rest;
    assert s[0] == 'f' && s[1] == 't';
  }

  /** A request with every field wrong lists all three messages, email first. */
  lemma AllErrorsReported()
    ensures Validate(" ", "", "") ==
            Failure(["Email cannot be empty", "Secret cannot be empty", "URL cannot be empty"])
  {
    assert AllSpace(" ") && AllSpace("");
    assert ErrorsOf(ValidateEmail(" ")) == ["Email cannot be empty"];
    assert ErrorsOf(ValidateSecret("")) == ["Secret cannot be empty"];
    assert ErrorsOf(ValidateUrl("")) == ["URL cannot be empty"];
    var all := ErrorsOf(ValidateEmail(" ")) + ErrorsOf(ValidateSecret("")) + ErrorsOf(ValidateUrl(""));
    assert all == ["Email cannot be empty", "Secret cannot be empty", "URL cannot be empty"];
  }

  /** A solver exception never gives a 2xx response, and only the two documented codes are
      produced for it. */
  lemma ErrorsMapToCodes(outcome: Outcome)
    requires outcome.Raised?
    ensures StatusOf(outcome).HttpError?
    ensures StatusOf(outcome).status == 400 || StatusOf(outcome).status == 500
  {
  }

  /** The depth and time-window failures from the solver's entry reach the client as 400s
      with the solver's message. */
  lemma EntryFailuresAre400(depth: nat, startTime: Option<real>, cfg: Config, clock: nat -> real, ticks: nat)
    requires Entry(depth, startTime, cfg, clock, ticks).Failure?
    ensures StatusOf(Raised(Entry(depth, startTime, cfg, clock, ticks).error)) ==
            HttpError(400, Entry(depth, startTime, cfg, clock, ticks).error.message)
  {
  }
}
