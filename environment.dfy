/** Everything the quiz solver takes from outside: its settings (app/utils/config.py), the
    behaviour of the libraries it calls (json, pandas rendering, `str()`), and a world that
    answers the browser, the LLM providers, the submission endpoint and the clock. The world
    also keeps a trace of the requests the solver makes, so that properties of a whole
    resolution chain can be stated. */
module Environment {
  import opened Wrappers
  import opened Json
  import opened Extractor

  /** The recursion ceiling that solve_quiz hard-codes. */
  const MaxDepth: nat := 10

  /** The settings the core reads. */
  datatype Config = Config(
    secret: string,        // QUIZ_SECRET: sent with every submission, AIPipe's token
    openaiKey: string,     // OPENAI_API_KEY
    useAipipe: bool,       // USE_AIPIPE
    maxRetries: int,       // MAX_RETRIES
    windowSeconds: int)    // RETRY_WINDOW_SECONDS

  /** The defaults of app/utils/config.py for the settings above. */
  function DefaultConfig(): (c: Config)
    ensures c.secret == "changeme" && c.openaiKey == "" && c.useAipipe
    ensures c.maxRetries == 3 && c.windowSeconds == 180
  {
    Config("changeme", "", true, 3, 180)
  }

  /** A decoded table attachment, one opaque row per element. */
  type Frame = seq<string>

  /** Library behaviour the model does not define. */
  datatype Library = Library(
    loads: string -> Option<Value>,    // json.loads, None when it raises
    dumps: Value -> Option<string>,    // json.dumps(v, indent=2), None when v is not serialisable
    frameText: Frame -> string,        // DataFrame.to_string()
    show: Value -> string)             // str(v)

  /** A downloaded file as the decoders see it: what `read_csv`/`read_excel` give for it
      (None when they raise) and its PDF pages. */
  datatype Download = Download(path: string, frame: Option<Frame>, pdf: seq<PdfPage>)

  /** What `fetch_page_and_downloads` returns. */
  datatype PageData = PageData(doc: Document, downloads: seq<Download>, jsData: seq<(string, Value)>)

  datatype FetchReply = Loaded(page: PageData) | FetchError(message: string)

  /** One LLM provider's reply to a prompt: the request, its status check or the walk to
      the message content raised, or the content field it holds. */
  datatype ProviderReply = Unavailable | Content(content: Value)

  /** What AIPipe and OpenAI would answer to one prompt. */
  datatype LlmReplies = LlmReplies(aipipe: ProviderReply, openai: ProviderReply)

  /** What one POST to a submission address gives: a `RequestException` (including a non-2xx
      status) or a 2xx body. */
  datatype PostReply = PostError(message: string) | Body(text: string)

  /** A Python exception: a `ValueError` (the solver's deliberate failures) or any other
      kind, with the text `str(e)` gives. */
  datatype Exception = ValueError(message: string) | OtherError(message: string)

  /** How a Python call ends: it returns a value or raises. */
  datatype Outcome = Returned(value: Value) | Raised(error: Exception)

  /** The requests the solver makes, tagged with the chain depth that made them. */
  datatype Event =
    | FetchedPage(depth: nat, url: Value, start: real)
    | Prompted(depth: nat, prompt: string)
    | Posted(depth: nat, target: string, payload: Value)

  datatype EventKind = FetchKind | PromptKind | PostKind

  function KindOf(e: Event): EventKind {
    match e
    case FetchedPage(_, _, _) => FetchKind
    case Prompted(_, _) => PromptKind
    case Posted(_, _, _) => PostKind
  }

  /** The number of events of kind `k` made at depth `d`. */
  function Count(es: seq<Event>, d: nat, k: EventKind): nat {
    if |es| == 0 then 0
    else Count(es[..|es| - 1], d, k) + if es[|es| - 1].depth == d && KindOf(es[|es| - 1]) == k then 1 else 0
  }

  /** Every event happened at a depth between `lo` and the ceiling. */
  predicate Within(es: seq<Event>, lo: nat) {
    forall i :: 0 <= i < |es| ==> lo <= es[i].depth <= MaxDepth
  }

  /** Every page fetch carries the chain start time `s`. */
  predicate StartsAt(es: seq<Event>, s: real) {
    forall i :: 0 <= i < |es| && es[i].FetchedPage? ==> es[i].start == s
  }

  lemma {:induction false} CountAppend(a: seq<Event>, b: seq<Event>, d: nat, k: EventKind)
    ensures Count(a + b, d, k) == Count(a, d, k) + Count(b, d, k)
  {
    if |b| == 0 {
      assert a + b == a;
    } else {
      assert (a + b)[..|a + b| - 1] == a + b[..|b| - 1];
      CountAppend(a, b[..|b| - 1], d, k);
    }
  }

  lemma {:induction false} CountDeeper(es: seq<Event>, d: nat, k: EventKind)
    requires Within(es, d + 1)
    ensures Count(es, d, k) == 0
  {
    if |es| > 0 {
      CountDeeper(es[..|es| - 1], d, k);
    }
  }

  lemma {:induction false} CountBound(es: seq<Event>, d: nat, k: EventKind)
    ensures Count(es, d, k) <= |es|
  {
    if |es| > 0 {
      CountBound(es[..|es| - 1], d, k);
    }
  }

  lemma WithinAppend(a: seq<Event>, b: seq<Event>, lo: nat)
    requires Within(a, lo) && Within(b, lo)
    ensures Within(a + b, lo)
  {
  }

  lemma WithinDeeper(es: seq<Event>, lo: nat)
    requires Within(es, lo + 1)
    ensures Within(es, lo)
  {
  }

  lemma StartsAtAppend(a: seq<Event>, b: seq<Event>, s: real)
    requires StartsAt(a, s) && StartsAt(b, s)
    ensures StartsAt(a + b, s)
  {
  }

  lemma TraceAssoc(a: seq<Event>, b: seq<Event>, c: seq<Event>)
    ensures a + b + c == a + (b + c)
  {
  }

  /** A trace of page fetches holds no events of the other kinds. */
  lemma {:induction false} CountFetchesOnly(es: seq<Event>, d: nat, k: EventKind)
    requires k != FetchKind
    requires forall i :: 0 <= i < |es| ==> es[i].FetchedPage?
    ensures Count(es, d, k) == 0
  {
    if |es| > 0 {
      CountFetchesOnly(es[..|es| - 1], d, k);
    }
  }

  /** How many submissions, clock readings, page fetches and prompts were made: the next
      reply of each kind is the oracle's at that index. */
  datatype Counters = Counters(submissions: nat, ticks: nat, fetches: nat, prompts: nat)

  /** The world one resolution chain runs in. Each oracle is indexed by how many requests of
      its kind were made before, so successive requests may get different answers. */
  class World {
    const clock: nat -> real
    const pages: nat -> FetchReply
    const llm: nat -> LlmReplies
    const posts: nat -> PostReply
    var ticks: nat
    var fetches: nat
    var prompts: nat
    var submissions: nat
    var trace: seq<Event>

    constructor (clock: nat -> real, pages: nat -> FetchReply, llm: nat -> LlmReplies, posts: nat -> PostReply)
      ensures this.clock == clock && this.pages == pages && this.llm == llm && this.posts == posts
      ensures ticks == 0 && fetches == 0 && prompts == 0 && submissions == 0 && trace == []
    {
      this.clock, this.pages, this.llm, this.posts := clock, pages, llm, posts;
      ticks, fetches, prompts, submissions, trace := 0, 0, 0, 0, [];
    }

    /** The counters of the requests made so far. */
    function Counts(): Counters
      reads this
    {
      Counters(submissions, ticks, fetches, prompts)
    }

    /** `time.time()` */
    method Now() returns (t: real)
      modifies this`ticks
      ensures t == clock(old(ticks)) && ticks == old(ticks) + 1
    {
      t := clock(ticks);
      ticks := ticks + 1;
    }

    /** `fetch_page_and_downloads(url)` */
    method Fetch(url: Value, depth: nat, start: real) returns (r: FetchReply)
      modifies this`fetches, this`trace
      ensures r == pages(old(fetches)) && fetches == old(fetches) + 1
      ensures trace == old(trace) + [FetchedPage(depth, url, start)]
    {
      r := pages(fetches);
      fetches := fetches + 1;
      trace := trace + [FetchedPage(depth, url, start)];
    }

    /** The providers' replies to one prompt. */
    method Ask(prompt: string, depth: nat) returns (r: LlmReplies)
      modifies this`prompts, this`trace
      ensures r == llm(old(prompts)) && prompts == old(prompts) + 1
      ensures trace == old(trace) + [Prompted(depth, prompt)]
    {
      r := llm(prompts);
      prompts := prompts + 1;
      trace := trace + [Prompted(depth, prompt)];
    }

    /** `requests.post(target, json=payload)` followed by `raise_for_status()` */
    method Post(target: string, payload: Value, depth: nat) returns (r: PostReply)
      modifies this`submissions, this`trace
      ensures r == posts(old(submissions)) && submissions == old(submissions) + 1
      ensures trace == old(trace) + [Posted(depth, target, payload)]
    {
      r := posts(submissions);
      submissions := submissions + 1;
      trace := trace + [Posted(depth, target, payload)];
    }
  }
}
