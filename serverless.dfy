/** The stand-alone `/solving` handler of api/index.py: its secret and email checks, its own
    question cascade, its one-shot LLM answer with fallbacks, and the response it shapes.
    The page fetch and the LLM request are inputs: what they give is passed in. */
module Serverless {
  import opened Wrappers
  import opened Strings
  import opened Json
  import opened Extractor

  /** The selectors this handler tries, in order; unlike the quiz solver it has no
      `[data-question]` and no exemption for the question markers. */
  const HandlerSelectors: seq<string> := [".question", "#question", "h1", "h2", "p"]

  const NoAnswer := "Unable to determine answer"
  const NoQuestion := "No question found"

  /** What the page request gives: the parsed page, or the text of the exception it raised. */
  datatype PageFetch = Fetched(doc: Document) | FetchRaised(message: string)

  /** What the AIPipe request gives: the exception it (or the walk to the content) raised,
      a status other than 200, or the content string of the first choice. */
  datatype AipipeCall = CallRaised(message: string) | NotOk | Replied(content: string)

  /** The handler's answer: a JSON body, or an `HTTPException` with its status and detail. */
  datatype Response = Ok(body: Value) | HttpError(status: int, detail: string)

  /** The first element of `sel` is taken only when its text is longer than 10 characters. */
  predicate Accepts(doc: Document, sel: string) {
    sel in doc.firstText && |doc.firstText[sel]| > 10
  }

  /** The text of the first selector in `sels` whose first element is accepted. */
  function Cascade(doc: Document, sels: seq<string>): Option<string> {
    if |sels| == 0 then None
    else if Accepts(doc, sels[0]) then Some(doc.firstText[sels[0]])
    else Cascade(doc, sels[1..])
  }

  /** The question: the cascade's pick, else the first 500 characters of all text. */
  function HandlerQuestion(doc: Document): string {
    match Cascade(doc, HandlerSelectors)
    case Some(t) => t
    case None => Take(doc.allText, 500)
  }

  /** The selector loop with its `break`, then the fallback. */
  method PickQuestion(doc: Document) returns (question: string)
    ensures question == HandlerQuestion(doc)
  {
    var found: Option<string> := None;
    var i := 0;
    while i < |HandlerSelectors|
      invariant 0 <= i <= |HandlerSelectors| && found.None?
      invariant Cascade(doc, HandlerSelectors) == Cascade(doc, HandlerSelectors[i..])
    {
      var sel := HandlerSelectors[i];
      assert HandlerSelectors[i..][1..] == HandlerSelectors[i + 1..];
      if sel in doc.firstText && doc.firstText[sel] != [] {
        var text := doc.firstText[sel];
        if |text| > 10 {
          found := Some(text);
          break;
        }
      }
      i := i + 1;
    }
    // A picked text is longer than 10 characters, so `not question` holds only when none was.
    if found.None? {
      question := Take(doc.allText, 500);
    } else {
      question := found.value;
    }
  }

  /** The answer: the LLM is asked only when the key (the expected secret) is set; an
      exception becomes "LLM Error: …", and an empty or absent answer the fixed fallback. */
  function HandlerAnswer(key: string, call: AipipeCall): (a: string)
    ensures a != []
    ensures key == [] ==> a == NoAnswer
    ensures key != [] && call.CallRaised? ==> a == "LLM Error: " + call.message
    ensures key != [] && call.NotOk? ==> a == NoAnswer
    ensures key != [] && call.Replied? ==> a == if Strip(call.content) == [] then NoAnswer else Strip(call.content)
  {
    var answer :=
      if key == [] then []
      else match call
        case CallRaised(m) => "LLM Error: " + m
        case NotOk => []
        case Replied(c) => Strip(c);
    if answer == [] then NoAnswer else answer
  }

  /** The success body: status, the question cut to 200 characters (or a placeholder when
      empty), the answer, and the requested URL echoed back. */
  function SuccessBody(question: string, answer: string, url: string): Value {
    Obj([("status", Str("success")),
         ("question", Str(if question != [] then Take(question, 200) else NoQuestion)),
         ("answer", Str(answer)),
         ("url", Str(url))])
  }

  /** The whole handler, `expected` being the `QUIZ_SECRET` environment variable. */
  function Handle(expected: string, email: string, secret: string, url: string,
                  page: PageFetch, call: AipipeCall): Response
  {
    if expected == [] || secret != expected then HttpError(403, "Invalid secret")
    else if email == [] || Strip(email) == [] then HttpError(422, "Email cannot be empty")
    else match page
      case FetchRaised(m) => HttpError(500, m)
      case Fetched(doc) => Ok(SuccessBody(HandlerQuestion(doc), HandlerAnswer(expected, call), url))
  }

  /** `POST /solving` of the serverless app. */
  method Solving(expected: string, email: string, secret: string, url: string,
                 page: PageFetch, call: AipipeCall) returns (r: Response)
    ensures r == Handle(expected, email, secret, url, page, call)
  {
    if expected == [] || secret != expected {
      return HttpError(403, "Invalid secret");
    }
    if email == [] || Strip(email) == [] {
      return HttpError(422, "Email cannot be empty");
    }
    if page.FetchRaised? {
      return HttpError(500, page.message);
    }
    var question := PickQuestion(page.doc);
    var answer := HandlerAnswer(expected, call);
    r := Ok(SuccessBody(question, answer, url));
  }

  // ---- properties ----

  /** The secret is checked first: an unset expected secret or a mismatch is a 403 whatever
      the email and the page; only then is a blank email a 422. */
  lemma SecretBeforeEmail(expected: string, email: string, secret: string, url: string,
                          page: PageFetch, call: AipipeCall)
    ensures Handle(expected, email, secret, url, page, call) == HttpError(403, "Invalid secret") <==>
            expected == [] || secret != expected
    ensures expected != [] && secret == expected ==>
              (Handle(expected, email, secret, url, page, call) == HttpError(422, "Email cannot be empty") <==> AllSpace(email))
  {
    StripEmptyIffBlank(email);
  }

  /** Past the secret check the key is set, so the LLM is always asked: the answer is never
      the no-key fallback for a reply with content. */
  lemma PastSecretAsksLlm(expected: string, email: string, secret: string, url: string,
                          doc: Document, content: string)
    requires expected != [] && secret == expected && !AllSpace(email) && Strip(content) != []
    ensures Handle(expected, email, secret, url, Fetched(doc), Replied(content)).Ok?
    ensures Handle(expected, email, secret, url, Fetched(doc), Replied(content)).body.fields[2].1 == Str(Strip(content))
  {
    StripEmptyIffBlank(email);
  }

  /** A failed fetch is a 500 carrying the exception text. */
  lemma FetchFailureIs500(expected: string, email: string, url: string, m: string, call: AipipeCall)
    requires expected != [] && !AllSpace(email)
    ensures Handle(expected, email, expected, url, FetchRaised(m), call) == HttpError(500, m)
  {
    StripEmptyIffBlank(email);
  }

  /** The cascade takes the first selector, in order, whose element is accepted. */
  lemma {:induction false} CascadeIsFirst(doc: Document, sels: seq<string>)
    ensures Cascade(doc, sels).None? <==> forall k :: 0 <= k < |sels| ==> !Accepts(doc, sels[k])
    ensures Cascade(doc, sels).Some? ==>
      exists k :: 0 <= k < |sels| && Accepts(doc, sels[k])
        && Cascade(doc, sels).value == doc.firstText[sels[k]]
        && forall j :: 0 <= j < k ==> !Accepts(doc, sels[j])
  {
    if |sels| > 0 {
      CascadeIsFirst(doc, sels[1..]);
      if !Accepts(doc, sels[0]) {
        assert forall k :: 1 <= k < |sels| ==> sels[k] == sels[1..][k - 1];
        if Cascade(doc, sels).Some? {
          var k :| 0 <= k < |sels[1..]| && Accepts(doc, sels[1..][k])
            && Cascade(doc, sels[1..]).value == doc.firstText[sels[1..][k]]
            && forall j :: 0 <= j < k ==> !Accepts(doc, sels[1..][j]);
          assert forall j :: 0 <= j < k + 1 ==> !Accepts(doc, sels[j]) by {
            forall j | 0 < j < k + 1 ensures !Accepts(doc, sels[j]) { assert sels[j] == sels[1..][j - 1]; }
          }
        }
      }
    }
  }

  /** The question is the text of an accepted element (more than 10 characters) or at most
      500 characters of the page text. */
  lemma QuestionShape(doc: Document)
    ensures var q := HandlerQuestion(doc);
      (exists k :: 0 <= k < |HandlerSelectors| && Accepts(doc, HandlerSelectors[k]) && q == doc.firstText[HandlerSelectors[k]] && |q| > 10)
      || ((forall k :: 0 <= k < |HandlerSelectors| ==> !Accepts(doc, HandlerSelectors[k])) && q == Take(doc.allText, 500))
  {
    CascadeIsFirst(doc, HandlerSelectors);
  }

  /** A short `.question` element is passed over: the threshold applies to every selector. */
  lemma NoQuestionExemption(doc: Document)
    requires ".question" in doc.firstText && |doc.firstText[".question"]| <= 10
    requires forall k :: 1 <= k < |HandlerSelectors| ==> HandlerSelectors[k] !in doc.firstText
    ensures HandlerQuestion(doc) == Take(doc.allText, 500)
  {
    CascadeIsFirst(doc, HandlerSelectors);
  }

  /** The response body's question never exceeds 200 characters and is never empty. */
  lemma SuccessBodyQuestion(question: string, answer: string, url: string)
    ensures var b := SuccessBody(question, answer, url);
      b.fields[1].0 == "question" && b.fields[1].1.Str? &&
      1 <= |b.fields[1].1.s| <= if question == [] then |NoQuestion| else 200
    ensures Get(SuccessBody(question, answer, url), "url") == Str(url)
    ensures Get(SuccessBody(question, answer, url), "status") == Str("success")
  {
    var f := SuccessBody(question, answer, url).fields;
    LookupLast(f, 0);
    LookupLast(f, 3);
  }
}
