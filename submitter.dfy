/** `submit_answer` (app/quiz/submitter.py): the POST body and the classification of what
    the submission endpoint answers. */
module Submitter {
  import opened Wrappers
  import opened Strings
  import opened Json
  import opened Environment

  /** The POST body: `email` and `answer`, then the optional fields. */
  function Payload(email: string, answer: Value, secret: string, originalUrl: Value): Value {
    Obj([("email", Str(email)), ("answer", answer)] + Extras(secret, originalUrl))
  }

  /** `secret` when non-empty and `url` when truthy, in the order the dict is filled. */
  function Extras(secret: string, originalUrl: Value): (r: seq<(string, Value)>)
    ensures forall j :: 0 <= j < |r| ==> r[j].0 == "secret" || r[j].0 == "url"
  {
    (if secret != "" then [("secret", Str(secret))] else [])
    + (if Truthy(originalUrl) then [("url", originalUrl)] else [])
  }

  /** The keys a payload can carry. */
  predicate PayloadKey(k: string) {
    k == "email" || k == "answer" || k == "secret" || k == "url"
  }

  /** What a `RequestException` gives back. */
  function ErrorDict(message: string, answer: Value): Value {
    Obj([("status", Str("error")), ("message", Str(message)), ("answer", answer)])
  }

  /** What a 2xx body that is not JSON gives back. */
  function RawDict(answer: Value, text: string): Value {
    Obj([("status", Str("success")), ("answer", answer), ("raw_response", Str(Take(text, 500)))])
  }

  /** What an httpbin echo gives back. */
  function HttpbinDict(answer: Value, echo: Value): Value {
    Obj([("status", Str("success")), ("correct", Bool(true)), ("answer", answer), ("httpbin_response", echo)])
  }

  /** Python's `"json" in result`: a substring test on text, membership on a list, a key
      test on a dict; any other value raises `TypeError`. */
  function JsonIn(result: Value): (r: Result<bool, Exception>)
    ensures r.Failure? <==> !(result.Str? || result.Arr? || result.Obj?)
  {
    match result
    case Str(s) => Success(Contains(s, "json"))
    case Arr(items) => Success(Str("json") in items)
    case Obj(_) => Success(HasKey(result, "json"))
    case _ => Failure(OtherError("argument of type '" + TypeName(result) + "' is not iterable"))
  }

  /** The part of `submit_answer` after `raise_for_status()`, for a string target. */
  function Interpret(target: string, answer: Value, reply: PostReply, loads: string -> Option<Value>): Outcome {
    match reply
    case PostError(m) => Returned(ErrorDict(m, answer))
    case Body(text) =>
      var result := match loads(text) case Some(v) => v case None => RawDict(answer, text);
      if !Contains(target, "httpbin.org") then Returned(result)
      else match JsonIn(result)
        case Failure(e) => Raised(e)
        case Success(found) => Returned(if found then HttpbinDict(answer, result) else result)
  }

  /** The message `requests` gives for a target that is not a URL string; only its
      `str()` form reaches the request. */
  function InvalidUrl(shown: string): string {
    "Invalid URL '" + shown + "': No scheme supplied. Perhaps you meant https://" + shown + "?"
  }

  /** What submitting `answer` gives when the endpoint replies `reply`; an address that is
      not a string is reported without a request. */
  function Submitted(lib: Library, target: Value, answer: Value, reply: PostReply): Outcome {
    if target.Str? then Interpret(target.s, answer, reply, lib.loads)
    else Returned(ErrorDict(InvalidUrl(lib.show(target)), answer))
  }

  /** `submit_answer(submit_url, answer, email, secret, original_url)`. A target that is not
      a string never reaches the network. */
  method SubmitAnswer(w: World, lib: Library, target: Value, answer: Value, email: string,
                      secret: string, originalUrl: Value, depth: nat) returns (r: Outcome)
    modifies w`submissions, w`trace
    ensures r == Submitted(lib, target, answer, w.posts(old(w.submissions)))
    ensures target.Str? ==>
              r == Interpret(target.s, answer, w.posts(old(w.submissions)), lib.loads) &&
              w.submissions == old(w.submissions) + 1 &&
              w.trace == old(w.trace) + [Posted(depth, target.s, Payload(email, answer, secret, originalUrl))]
    ensures !target.Str? ==>
              r == Returned(ErrorDict(InvalidUrl(lib.show(target)), answer)) &&
              w.submissions == old(w.submissions) && w.trace == old(w.trace)
  {
    var payload := [("email", Str(email)), ("answer", answer)];
    if secret != "" {
      payload := payload + [("secret", Str(secret))];
    }
    if Truthy(originalUrl) {
      payload := payload + [("url", originalUrl)];
    }
    assert Obj(payload) == Payload(email, answer, secret, originalUrl);
    if !target.Str? {
      return Returned(ErrorDict(InvalidUrl(lib.show(target)), answer));
    }
    var reply := w.Post(target.s, Obj(payload), depth);
    if reply.PostError? {
      return Returned(ErrorDict(reply.message, answer));
    }
    var result: Value;
    var parsed := lib.loads(reply.text);
    if parsed.Some? {
      result := parsed.value;
    } else {
      result := RawDict(answer, reply.text);
    }
    if Contains(target.s, "httpbin.org") {
      var found := JsonIn(result);
      if found.Failure? {
        return Raised(found.error);
      }
      if found.value {
        result := HttpbinDict(answer, result);
      }
    }
    r := Returned(result);
  }

  // ---- properties ----

  /** `email` and `answer` are always sent, whatever the answer's type. */
  lemma {:induction false} PayloadAlwaysSends(email: string, answer: Value, secret: string, originalUrl: Value)
    ensures Get(Payload(email, answer, secret, originalUrl), "email") == Str(email)
    ensures Get(Payload(email, answer, secret, originalUrl), "answer") == answer
  {
    var f := Payload(email, answer, secret, originalUrl).fields;
    var extras := Extras(secret, originalUrl);
    forall j | 1 < j < |f|
      ensures f[j].0 == "secret" || f[j].0 == "url"
    {
      assert f[j] == extras[j - 2];
    }
    LookupLast(f, 0);
    LookupLast(f, 1);
  }

  /** Nothing but the four payload keys is sent. */
  lemma {:induction false} PayloadKeysOnly(email: string, answer: Value, secret: string, originalUrl: Value)
    ensures var p := Payload(email, answer, secret, originalUrl);
      forall i :: 0 <= i < |p.fields| ==> PayloadKey(p.fields[i].0)
  {
    var f := Payload(email, answer, secret, originalUrl).fields;
    var extras := Extras(secret, originalUrl);
    forall i | 1 < i < |f|
      ensures PayloadKey(f[i].0)
    {
      assert f[i] == extras[i - 2];
    }
  }

  /** `secret` is sent exactly when it is non-empty. */
  lemma {:induction false} PayloadSecret(email: string, answer: Value, secret: string, originalUrl: Value)
    ensures var p := Payload(email, answer, secret, originalUrl);
      (HasKey(p, "secret") <==> secret != "") && (secret != "" ==> Get(p, "secret") == Str(secret))
  {
    var f := Payload(email, answer, secret, originalUrl).fields;
    if secret != "" {
      LookupLast(f, 2);
    } else {
      assert forall i :: 0 <= i < |f| ==> f[i].0 != "secret";
    }
  }

  /** `url` is sent exactly when it is truthy. */
  lemma {:induction false} PayloadUrl(email: string, answer: Value, secret: string, originalUrl: Value)
    ensures var p := Payload(email, answer, secret, originalUrl);
      (HasKey(p, "url") <==> Truthy(originalUrl)) && (Truthy(originalUrl) ==> Get(p, "url") == originalUrl)
  {
    var f := Payload(email, answer, secret, originalUrl).fields;
    if Truthy(originalUrl) {
      LookupLast(f, |f| - 1);
    } else {
      assert forall i :: 0 <= i < |f| ==> f[i].0 != "url";
    }
  }

  /** A transport failure or an error status becomes an error dict carrying the answer;
      it never raises. */
  lemma TransportErrorIsReported(target: string, answer: Value, m: string, loads: string -> Option<Value>)
    ensures var r := Interpret(target, answer, PostError(m), loads);
      r.Returned? && Get(r.value, "status") == Str("error") &&
      Get(r.value, "message") == Str(m) && Get(r.value, "answer") == answer
  {
    var f := ErrorDict(m, answer).fields;
    LookupLast(f, 0);
    LookupLast(f, 1);
    LookupLast(f, 2);
  }

  /** A 2xx body that is not JSON is a success carrying its first 500 characters, and the
      httpbin rule never rewrites it: the fallback dict has no "json" key. */
  lemma NonJsonIsSuccess(target: string, answer: Value, text: string, loads: string -> Option<Value>)
    requires loads(text).None?
    ensures Interpret(target, answer, Body(text), loads) == Returned(RawDict(answer, text))
    ensures Get(RawDict(answer, text), "status") == Str("success")
    ensures Get(RawDict(answer, text), "raw_response") == Str(Take(text, 500))
  {
    var f := RawDict(answer, text).fields;
    assert forall i :: 0 <= i < |f| ==> f[i].0 != "json";
    LookupLast(f, 0);
    LookupLast(f, 2);
  }

  /** An httpbin echo whose parsed body has a "json" key counts as correct and keeps the
      echo. */
  lemma HttpbinEchoIsCorrect(target: string, answer: Value, text: string, loads: string -> Option<Value>)
    requires Contains(target, "httpbin.org")
    requires loads(text).Some? && HasKey(loads(text).value, "json")
    ensures var r := Interpret(target, answer, Body(text), loads);
      r == Returned(HttpbinDict(answer, loads(text).value)) &&
      Get(r.value, "correct") == Bool(true) && Get(r.value, "httpbin_response") == loads(text).value
  {
    var f := HttpbinDict(answer, loads(text).value).fields;
    LookupLast(f, 1);
    LookupLast(f, 3);
  }

  /** Away from httpbin, a JSON body is returned exactly as parsed. */
  lemma JsonIsVerbatim(target: string, answer: Value, text: string, loads: string -> Option<Value>)
    requires !Contains(target, "httpbin.org") && loads(text).Some?
    ensures Interpret(target, answer, Body(text), loads) == Returned(loads(text).value)
  {
  }

  /** At httpbin, a JSON body without "json" in it is returned as parsed too. */
  lemma HttpbinWithoutJsonIsVerbatim(target: string, answer: Value, text: string, loads: string -> Option<Value>)
    requires Contains(target, "httpbin.org") && loads(text).Some?
    requires JsonIn(loads(text).value) == Success(false)
    ensures Interpret(target, answer, Body(text), loads) == Returned(loads(text).value)
  {
  }

  /** At httpbin, a JSON scalar body makes the `in` test raise `TypeError`. */
  lemma HttpbinScalarRaises(target: string, answer: Value, text: string, loads: string -> Option<Value>)
    requires Contains(target, "httpbin.org") && loads(text).Some?
    requires var v := loads(text).value; v.Null? || v.Bool? || v.Int? || v.Float?
    ensures Interpret(target, answer, Body(text), loads).Raised?
    ensures Interpret(target, answer, Body(text), loads).error.OtherError?
  {
  }
}
