/** The answer engine of app/quiz/llm.py: provider selection with its fallbacks, the prompt
    assembled from the question and its context, and the typing of the reply. */
module Llm {
  import opened Wrappers
  import opened Strings
  import opened Json
  import opened Extractor
  import opened Environment

  // ---------------------------------------------------------------------------------------
  // Provider selection

  /** What `call_aipipe_llm` returns, or None when it raises: it needs the secret as its
      token, refuses a falsy content, and logs `answer[:200]`, which raises for any content
      that cannot be sliced (a number, a boolean, a dict). */
  function AipipeAnswer(cfg: Config, reply: ProviderReply): (a: Option<Value>)
    ensures a.Some? <==>
              cfg.secret != "" && reply.Content? && (reply.content.Str? || reply.content.Arr?) &&
              Truthy(reply.content)
    ensures a.Some? ==> a.value == reply.content
  {
    if cfg.secret == "" then None
    else match reply
      case Content(v) => if (v.Str? || v.Arr?) && Truthy(v) then Some(v) else None
      case Unavailable => None
  }

  /** What `call_openai_llm` returns, or None when it raises: it needs a key starting with
      "sk-", and the client's content is a string (None makes its logging raise). */
  function OpenAiAnswer(cfg: Config, reply: ProviderReply): (a: Option<string>)
    ensures a.Some? <==> IsPrefix("sk-", cfg.openaiKey) && reply.Content? && reply.content.Str?
    ensures a.Some? ==> reply == Content(Str(a.value))
  {
    if cfg.openaiKey == "" || !IsPrefix("sk-", cfg.openaiKey) then None
    else match reply
      case Content(Str(s)) => Some(s)
      case _ => None
  }

  /** `call_llm(prompt)`: AIPipe when enabled and it answers, then OpenAI, then the mock
      answer "42". It never raises. */
  function CallLlm(cfg: Config, r: LlmReplies): (answer: Value)
    ensures cfg.useAipipe && AipipeAnswer(cfg, r.aipipe).Some? ==> answer == r.aipipe.content
    ensures (!cfg.useAipipe || AipipeAnswer(cfg, r.aipipe).None?) && OpenAiAnswer(cfg, r.openai).Some? ==>
              answer == r.openai.content
    ensures (!cfg.useAipipe || AipipeAnswer(cfg, r.aipipe).None?) && OpenAiAnswer(cfg, r.openai).None? ==>
              answer == Str("42")
    ensures cfg.secret == "" && !IsPrefix("sk-", cfg.openaiKey) ==> answer == Str("42")
    ensures answer.Str? || (answer.Arr? && cfg.useAipipe && answer == r.aipipe.content && Truthy(answer))
  {
    if cfg.useAipipe && AipipeAnswer(cfg, r.aipipe).Some? then AipipeAnswer(cfg, r.aipipe).value
    else match OpenAiAnswer(cfg, r.openai)
      case Some(s) => Str(s)
      case None => Str("42")
  }

  /** AIPipe content that cannot be sliced (a number, a boolean, a dict) is never the
      answer: OpenAI's string or the mock answer is used instead. */
  lemma UnsliceableAipipeFallsBack(cfg: Config, v: Value, o: ProviderReply)
    requires !v.Str? && !v.Arr?
    ensures var open := OpenAiAnswer(cfg, o);
      CallLlm(cfg, LlmReplies(Content(v), o)) == if open.Some? then Str(open.value) else Str("42")
  {
  }

  /** With the default settings (AIPipe on with the secret "changeme", no OpenAI key) the
      answer is AIPipe's string or list content, and otherwise the mock answer "42". */
  lemma DefaultsPreferAipipe(r: LlmReplies)
    ensures var c := r.aipipe;
      CallLlm(DefaultConfig(), r) ==
        if c.Content? && (c.content.Str? || c.content.Arr?) && Truthy(c.content) then c.content else Str("42")
  {
  }

  /** With AIPipe switched off its reply plays no part. */
  lemma AipipeOffIgnored(cfg: Config, a1: ProviderReply, a2: ProviderReply, o: ProviderReply)
    requires !cfg.useAipipe
    ensures CallLlm(cfg, LlmReplies(a1, o)) == CallLlm(cfg, LlmReplies(a2, o))
  {
  }

  // ---------------------------------------------------------------------------------------
  // Typing the reply (parse_llm_response)

  predicate IsDigit(c: char) {
    '0' <= c <= '9'
  }

  /** Python's `digitpart`: digits, with single underscores between digits. */
  predicate IsDigitPart(s: string) {
    |s| > 0 && IsDigit(s[0]) && IsDigit(s[|s| - 1])
    && (forall i :: 0 <= i < |s| ==> IsDigit(s[i]) || s[i] == '_')
    && (forall i :: 0 <= i < |s| - 1 ==> IsDigit(s[i]) || IsDigit(s[i + 1]))
  }

  /** `s` without its leading sign, if any. */
  function Unsigned(s: string): (u: string)
    ensures |u| <= |s| && u == s[|s| - |u|..]
  {
    if |s| > 0 && (s[0] == '+' || s[0] == '-') then s[1..] else s
  }

  /** What `int(s)` accepts, for a stripped `s` of ASCII digits. */
  predicate IsIntLiteral(s: string) {
    IsDigitPart(Unsigned(s))
  }

  /** The value of the digits of `s`, underscores skipped. */
  function DigitsValue(s: string): nat {
    if |s| == 0 then 0
    else if IsDigit(s[|s| - 1]) then 10 * DigitsValue(s[..|s| - 1]) + (s[|s| - 1] as int - '0' as int)
    else DigitsValue(s[..|s| - 1])
  }

  /** `int(s)` for an accepted `s`. */
  function IntValue(s: string): int {
    var v: int := DigitsValue(Unsigned(s));
    if |s| > 0 && s[0] == '-' then -v else v
  }

  /** A mantissa with a decimal point: `digitpart "." [digitpart]` or `"." digitpart`. */
  predicate IsPointFloat(m: string) {
    var i := IndexOf(m, '.');
    i >= 0 &&
    var a, b := m[..i], m[i + 1..];
    (IsDigitPart(a) && (b == [] || IsDigitPart(b))) || (a == [] && IsDigitPart(b))
  }

  /** An exponent: `e` or `E`, an optional sign, a digitpart. */
  predicate IsExponent(e: string) {
    |e| > 0 && (e[0] == 'e' || e[0] == 'E') && IsDigitPart(Unsigned(e[1..]))
  }

  /** What `float(s)` accepts, for a stripped `s` that contains a point (such a text cannot
      spell an infinity or a NaN, and its point lies in the mantissa). */
  predicate IsFloatLiteral(s: string) {
    var u := Unsigned(s);
    var m := Mantissa(u);
    IsPointFloat(m) && (m == u || IsExponent(u[|m|..]))
  }

  /** The typing of an already stripped reply text. */
  function ParseText(s: string, loads: string -> Option<Value>): Value {
    if LooksLikeJson(s) && loads(s).Some? then loads(s).value else ParseScalar(s)
  }

  predicate LooksLikeJson(s: string) {
    IsPrefix("{", s) || IsPrefix("[", s)
  }

  predicate IsTrueWord(s: string) {
    Lower(s) == "true" || Lower(s) == "yes"
  }

  predicate IsFalseWord(s: string) {
    Lower(s) == "false" || Lower(s) == "no"
  }

  /** The typing of a stripped text that is not parsed as JSON. */
  function ParseScalar(s: string): (v: Value)
    ensures v.Bool? || v.Float? || v.Int? || v == Str(s)
    ensures v.Float? ==> v == Float(s)
  {
    if IsTrueWord(s) then Bool(true)
    else if IsFalseWord(s) then Bool(false)
    else ParseNumber(s)
  }

  /** `float(s)` when `s` has a point, `int(s)` otherwise, and `s` itself when that raises. */
  function ParseNumber(s: string): (v: Value)
    ensures v == Float(s) <==> Contains(s, ".") && IsFloatLiteral(s)
    ensures v.Int? <==> !Contains(s, ".") && IsIntLiteral(s)
    ensures v.Int? ==> v.i == IntValue(s)
    ensures v == Float(s) || v.Int? || v == Str(s)
  {
    if Contains(s, ".") then (if IsFloatLiteral(s) then Float(s) else Str(s))
    else if IsIntLiteral(s) then Int(IntValue(s))
    else Str(s)
  }

  /** `parse_llm_response(reply)`: None when the reply is not a string, so that `strip()`
      raises. */
  function ParseResponse(reply: Value, loads: string -> Option<Value>): (r: Option<Value>)
    ensures r.Some? <==> reply.Str?
  {
    match reply
    case Str(text) => Some(ParseText(Strip(text), loads))
    case _ => None
  }

  /** A reply that opens like JSON and parses is the parsed value. */
  lemma ParseJsonFirst(text: string, loads: string -> Option<Value>)
    requires var s := Strip(text); (IsPrefix("{", s) || IsPrefix("[", s)) && loads(s).Some?
    ensures ParseResponse(Str(text), loads) == loads(Strip(text))
  {
  }

  /** true/yes and false/no, in any letter case, are booleans whatever `json.loads` does. */
  lemma ParseBooleans(text: string, loads: string -> Option<Value>)
    ensures IsTrueWord(Strip(text)) ==> ParseResponse(Str(text), loads) == Some(Bool(true))
    ensures IsFalseWord(Strip(text)) ==> ParseResponse(Str(text), loads) == Some(Bool(false))
  {
    var s := Strip(text);
    if |s| > 0 {
      assert Lower(s)[0] == LowerChar(s[0]);
      if LooksLikeJson(s) {
        assert s[..1] == [s[0]];
        assert Lower(s)[0] == '{' || Lower(s)[0] == '[';
      }
    }
  }

  /** A text reply that is neither JSON nor a boolean is a float exactly when it has a point
      and `float()` takes it, an int exactly when it has no point and `int()` takes it, and
      otherwise stays the stripped text. */
  lemma ParseNumbers(text: string, loads: string -> Option<Value>)
    requires var s := Strip(text);
      !(LooksLikeJson(s) && loads(s).Some?) && !IsTrueWord(s) && !IsFalseWord(s)
    ensures var s := Strip(text); var r := ParseResponse(Str(text), loads).value;
      (r == Float(s) <==> Contains(s, ".") && IsFloatLiteral(s)) &&
      (r.Int? <==> !Contains(s, ".") && IsIntLiteral(s)) &&
      (r.Int? ==> r.i == IntValue(s)) &&
      (r == Float(s) || r.Int? || r == Str(s))
  {
  }

  /** `json.loads` makes a dict of a text that opens with a brace and a list of one that
      opens with a bracket. */
  ghost predicate LoadsShape(loads: string -> Option<Value>) {
    forall s :: |s| > 0 && loads(s).Some? ==>
      (s[0] == '{' ==> loads(s).value.Obj?) && (s[0] == '[' ==> loads(s).value.Arr?)
  }

  /** What `json.loads` makes of a text that opens like JSON is never a string. */
  lemma JsonOpeningIsNotText(s: string, loads: string -> Option<Value>)
    requires LoadsShape(loads)
    ensures LooksLikeJson(s) && loads(s).Some? ==> !loads(s).value.Str?
  {
    if |s| > 0 {
      assert s[..1] == [s[0]];
    }
  }

  /** A reply that opens like JSON but that `json.loads` refuses falls through to the
      scalar rules, and none of them applies: it stays the stripped text. */
  lemma UnparsedJsonStaysText(text: string, loads: string -> Option<Value>)
    requires var s := Strip(text); LooksLikeJson(s) && loads(s).None?
    ensures ParseResponse(Str(text), loads) == Some(Str(Strip(text)))
  {
    var s := Strip(text);
    assert s[..1] == [s[0]];
    OpeningNotScalar(s);
  }

  /** No boolean word and no number starts with '{' or '['. */
  lemma OpeningNotScalar(s: string)
    requires |s| > 0 && (s[0] == '{' || s[0] == '[')
    ensures ParseScalar(s) == Str(s)
  {
    var l := Lower(s);
    assert l[0] == s[0];
    assert l != "true" && l != "yes" by { assert "true"[0] == 't' && "yes"[0] == 'y'; }
    assert l != "false" && l != "no" by { assert "false"[0] == 'f' && "no"[0] == 'n'; }
    OpeningNotNumber(s);
  }

  /** A text whose first character is neither a sign, a digit nor a point is no number. */
  lemma OpeningNotNumber(s: string)
    requires |s| > 0 && s[0] != '+' && s[0] != '-' && s[0] != '.' && !IsDigit(s[0])
    ensures !IsIntLiteral(s) && !IsFloatLiteral(s)
  {
    assert Unsigned(s) == s;
    var m := Mantissa(s);
    if |m| > 0 {
      assert m[0] == s[0];
      var i := IndexOf(m, '.');
      if i > 0 {
        assert m[..i][0] == m[0];
      }
    }
  }

  /** A reply that stays text is the stripped reply, and typing it again changes nothing. */
  lemma ParseTextIsStable(text: string, x: string, loads: string -> Option<Value>)
    requires LoadsShape(loads)
    requires ParseResponse(Str(text), loads) == Some(Str(x))
    ensures x == Strip(text)
    ensures ParseResponse(Str(x), loads) == Some(Str(x))
  {
    JsonOpeningIsNotText(Strip(text), loads);
    StripIdempotent(text);
  }

  lemma {:induction false} NatDigits(n: nat)
    ensures forall i :: 0 <= i < |NatToString(n)| ==> IsDigit(NatToString(n)[i])
    ensures DigitsValue(NatToString(n)) == n
    decreases n
  {
    var s := NatToString(n);
    if n >= 10 {
      NatDigits(n / 10);
      assert s[..|s| - 1] == NatToString(n / 10);
    }
  }

  /** `str(i)` for an integer. */
  function IntText(i: int): string {
    if i < 0 then "-" + NatToString(-i) else NatToString(i)
  }

  /** The decimal text of a natural number: digits only, with that value. */
  lemma NatTextShape(n: nat)
    ensures var t := NatToString(n);
      |t| > 0 && AllDigits(t) && IsDigitPart(t) && DigitsValue(t) == n &&
      forall k :: 0 <= k < |t| ==> t[k] != '.'
  {
    NatDigits(n);
  }

  lemma IntTextShape(i: int)
    ensures var s := IntText(i);
      |s| > 0 && IsDigit(s[|s| - 1]) && (s[0] == '-' || IsDigit(s[0])) &&
      (forall k :: 0 <= k < |s| ==> s[k] != '.') && IsIntLiteral(s) && IntValue(s) == i
  {
    var n: nat := if i < 0 then -i else i;
    var t := NatToString(n);
    NatTextShape(n);
    if i < 0 {
      var s := "-" + t;
      assert s == IntText(i);
      assert s[1..] == t;
      assert Unsigned(s) == t;
      forall k | 0 <= k < |s| ensures s[k] != '.' {
        if k > 0 {
          assert s[k] == t[k - 1];
        }
      }
    } else {
      assert t == IntText(i);
      assert IsDigit(t[0]);
      assert Unsigned(t) == t;
    }
  }

  lemma NoPointNotContained(s: string)
    requires forall k :: 0 <= k < |s| ==> s[k] != '.'
    ensures !Contains(s, ".")
  {
    forall k: nat | k <= |s| ensures !OccursAt(s, ".", k) {
      if k < |s| {
        assert s[k..k + 1][0] == s[k];
      }
    }
  }

  /** A text that opens like a number is neither JSON nor a boolean word. */
  lemma NumericOpening(s: string)
    requires |s| > 0 && (IsDigit(s[0]) || s[0] == '-' || s[0] == '+' || s[0] == '.')
    ensures !LooksLikeJson(s) && !IsTrueWord(s) && !IsFalseWord(s)
  {
    assert Lower(s)[0] == LowerChar(s[0]);
    assert s[..1] == [s[0]];
  }

  /** Trailing whitespace does not change a text whose ends are not whitespace. */
  lemma StripPad(s: string, pad: string)
    requires |s| > 0 && !IsSpace(s[0]) && !IsSpace(s[|s| - 1]) && AllSpace(pad)
    ensures Strip(s + pad) == s
  {
    var t := s + pad;
    assert LeftEdge(t) == 0;
    assert t[0..] == t;
    RightEdgeOfPad(s, pad);
  }

  lemma {:induction false} RightEdgeOfPad(s: string, pad: string)
    requires |s| > 0 && !IsSpace(s[|s| - 1]) && AllSpace(pad)
    ensures RightEdge(s + pad) == |s|
    decreases |pad|
  {
    if |pad| == 0 {
      assert s + pad == s;
    } else {
      assert (s + pad)[..|s + pad| - 1] == s + pad[..|pad| - 1];
      RightEdgeOfPad(s, pad[..|pad| - 1]);
    }
  }

  /** The decimal text of an integer, with or without trailing whitespace, comes back as
      that integer. */
  lemma IntRoundTrip(i: int, pad: string, loads: string -> Option<Value>)
    requires AllSpace(pad)
    ensures ParseResponse(Str(IntText(i) + pad), loads) == Some(Int(i))
  {
    IntTextPadded(i, pad);
    IntTextParses(i, loads);
  }

  lemma IntTextPadded(i: int, pad: string)
    requires AllSpace(pad)
    ensures Strip(IntText(i) + pad) == IntText(i)
  {
    var s := IntText(i);
    IntTextEnds(i);
    assert !IsSpace(s[0]) && !IsSpace(s[|s| - 1]);
    StripPad(s, pad);
  }

  /** `str(i)` opens with a sign or a digit and closes with a digit. */
  lemma IntTextEnds(i: int)
    ensures var s := IntText(i); |s| > 0 && (s[0] == '-' || IsDigit(s[0])) && IsDigit(s[|s| - 1])
  {
    var n: nat := if i < 0 then -i else i;
    NatTextShape(n);
    if i < 0 {
      assert IntText(i) == "-" + NatToString(n);
    }
  }

  lemma IntTextParses(i: int, loads: string -> Option<Value>)
    ensures ParseText(IntText(i), loads) == Int(i)
  {
    var s := IntText(i);
    IntTextShape(i);
    NoPointNotContained(s);
    NumericOpening(s);
    assert ParseNumber(s) == Int(i);
  }

  predicate AllDigits(s: string) {
    forall k :: 0 <= k < |s| ==> IsDigit(s[k])
  }

  lemma {:induction false} MantissaWhole(s: string)
    requires forall k :: 0 <= k < |s| ==> s[k] != 'e' && s[k] != 'E'
    ensures Mantissa(s) == s
  {
    if |s| > 0 {
      MantissaWhole(s[1..]);
    }
  }

  lemma DigitsArePart(a: string)
    requires |a| > 0 && AllDigits(a)
    ensures IsDigitPart(a)
  {
  }

  lemma IndexOfFirst(s: string, i: nat, c: char)
    requires i < |s| && s[i] == c && forall k :: 0 <= k < i ==> s[k] != c
    ensures IndexOf(s, c) == i
  {
  }

  lemma DecimalSplit(a: string, b: string, rest: string)
    ensures var s := a + "." + b + rest; s[..|a|] == a && s[|a| + 1..] == b + rest && s[|a|] == '.'
  {
  }

  lemma DecimalNoExponent(a: string, b: string, rest: string)
    requires AllDigits(a) && AllDigits(b)
    ensures var s := a + "." + b + rest; forall k :: 0 <= k < |a| + 1 + |b| ==> s[k] != 'e' && s[k] != 'E'
  {
    var s := a + "." + b + rest;
    assert forall k | 0 <= k < |a| :: s[k] == a[k];
    assert forall k | |a| < k < |a| + 1 + |b| :: s[k] == b[k - |a| - 1];
  }

  lemma DecimalPoint(a: string, b: string, rest: string)
    requires AllDigits(a)
    ensures var s := a + "." + b + rest; IndexOf(s, '.') == |a|
  {
    var s := a + "." + b + rest;
    assert forall k | 0 <= k < |a| :: s[k] == a[k];
    IndexOfFirst(s, |a|, '.');
  }

  lemma DecimalUnsigned(a: string, b: string, rest: string)
    requires |a| > 0 && AllDigits(a)
    ensures var s := a + "." + b + rest; Unsigned(s) == s && OccursAt(s, ".", |a|)
  {
    var s := a + "." + b + rest;
    assert s[0] == a[0];
  }

  /** `a.b` followed by `rest`, for digit runs `a` (not empty) and `b`: where the point is,
      and that no exponent marker occurs before `rest`. */
  lemma DecimalShape(a: string, b: string, rest: string)
    requires |a| > 0 && AllDigits(a) && AllDigits(b)
    ensures var s := a + "." + b + rest;
      Unsigned(s) == s && IndexOf(s, '.') == |a| && OccursAt(s, ".", |a|) &&
      s[..|a|] == a && s[|a| + 1..] == b + rest &&
      forall k :: 0 <= k < |a| + 1 + |b| ==> s[k] != 'e' && s[k] != 'E'
  {
    DecimalSplit(a, b, rest);
    DecimalNoExponent(a, b, rest);
    DecimalPoint(a, b, rest);
    DecimalUnsigned(a, b, rest);
  }

  lemma DecimalLiteral(a: string, b: string)
    requires |a| > 0 && AllDigits(a) && AllDigits(b)
    ensures IsFloatLiteral(a + "." + b) && Contains(a + "." + b, ".")
  {
    var s := a + "." + b;
    DecimalShape(a, b, "");
    assert s + "" == s;
    MantissaWhole(s);
    DigitsArePart(a);
    if b != [] {
      DigitsArePart(b);
    }
  }

  /** `a.b` with digit runs `a` (not empty) and `b`, even with trailing whitespace, becomes
      a float. */
  lemma DecimalIsFloat(a: string, b: string, pad: string, loads: string -> Option<Value>)
    requires |a| > 0 && AllDigits(a) && AllDigits(b) && AllSpace(pad)
    ensures ParseResponse(Str(a + "." + b + pad), loads) == Some(Float(a + "." + b))
  {
    var s := a + "." + b;
    assert s[0] == a[0];
    assert s[|s| - 1] == '.' || IsDigit(s[|s| - 1]);
    StripPad(s, pad);
    NumericOpening(s);
    DecimalLiteral(a, b);
  }

  lemma TwoPointsNoFloat(a: string, b: string, c: string)
    requires |a| > 0 && AllDigits(a) && AllDigits(b) && AllDigits(c)
    ensures var s := a + "." + b + "." + c; !IsFloatLiteral(s) && Contains(s, ".")
  {
    var s := a + "." + b + "." + c;
    DecimalShape(a, b, "." + c);
    assert s == a + "." + b + ("." + c);
    forall k | |a| + 1 + |b| <= k < |s| ensures s[k] != 'e' && s[k] != 'E' {
      if k > |a| + 1 + |b| {
        assert s[k] == c[k - |a| - 2 - |b|];
      }
    }
    MantissaWhole(s);
    var rest := b + "." + c;
    assert rest[|b|] == '.';
    SecondPointNotFloat(s, |a|, rest, |b|);
  }

  /** A point after the first one leaves no digitpart for the fraction. */
  lemma SecondPointNotFloat(m: string, i: nat, rest: string, k: nat)
    requires i > 0 && IndexOf(m, '.') == i && m[i + 1..] == rest
    requires k < |rest| && rest[k] == '.'
    ensures !IsPointFloat(m)
  {
    assert !IsDigitPart(rest) by {
      assert !IsDigit(rest[k]) && rest[k] != '_';
    }
  }

  /** A text with two points is no float and stays text. */
  lemma TwoPointsStayText(a: string, b: string, c: string, loads: string -> Option<Value>)
    requires |a| > 0 && AllDigits(a) && AllDigits(b) && AllDigits(c)
    ensures var s := a + "." + b + "." + c; ParseResponse(Str(s), loads) == Some(Str(s))
  {
    var s := a + "." + b + "." + c;
    assert s[0] == a[0];
    assert s[|s| - 1] == '.' || IsDigit(s[|s| - 1]);
    StripKeeps(s);
    NumericOpening(s);
    TwoPointsNoFloat(a, b, c);
  }

  // ---------------------------------------------------------------------------------------
  // The prompt (solve_with_llm)

  /** The context dict the solver hands to `solve_with_llm`; the CSV dict's items keep
      insertion order. */
  datatype Context = Context(
    tables: seq<Table>,
    embeddedJson: seq<Value>,
    csvData: seq<(string, Frame)>,
    pdfText: string)

  const Instruction: string := "\n\nAnalyze the data and answer the question. If the answer is a number, return just the number. If it's a boolean, return true or false. If it's JSON, return valid JSON. Be precise and concise."

  /** Rows of a table that the prompt shows. */
  const TableRows: nat := 10
  /** Rows of a CSV frame that the prompt shows. */
  const FrameRows: nat := 20
  /** Characters of PDF text that the prompt shows. */
  const PdfChars: nat := 2000

  /** One header and one JSON dump per table; None when a dump raises. */
  function TableParts(tables: seq<Table>, dumps: Value -> Option<string>): Option<seq<string>> {
    if |tables| == 0 then Some([])
    else match TableParts(tables[..|tables| - 1], dumps)
      case None => None
      case Some(ps) =>
        match dumps(Arr(Head(tables[|tables| - 1], TableRows)))
        case None => None
        case Some(d) => Some(ps + ["\nTable " + NatToString(|tables|) + ":", d])
  }

  /** One header and one rendering per CSV entry. */
  function CsvParts(csv: seq<(string, Frame)>, frameText: Frame -> string): seq<string> {
    if |csv| == 0 then []
    else CsvParts(csv[..|csv| - 1], frameText)
         + ["\n" + csv[|csv| - 1].0 + ":", frameText(Head(csv[|csv| - 1].1, FrameRows))]
  }

  /** The table section: absent when there are no tables. */
  function TableSection(ctx: Context, lib: Library): Option<seq<string>> {
    if ctx.tables == [] then Some([])
    else match TableParts(ctx.tables, lib.dumps)
      case None => None
      case Some(ps) => Some(["Available tables:"] + ps)
  }

  function CsvSection(ctx: Context, lib: Library): seq<string> {
    if ctx.csvData == [] then [] else ["\nCSV data:"] + CsvParts(ctx.csvData, lib.frameText)
  }

  function PdfSection(ctx: Context): seq<string> {
    if ctx.pdfText == "" then [] else ["\nPDF content (excerpt):", Take(ctx.pdfText, PdfChars)]
  }

  function JsonSection(ctx: Context, lib: Library): Option<seq<string>> {
    if ctx.embeddedJson == [] then Some([])
    else match lib.dumps(Arr(ctx.embeddedJson))
      case None => None
      case Some(d) => Some(["\nEmbedded JSON data:", d])
  }

  /** The prompt's parts in order, or None when a JSON dump raises. */
  function PromptParts(question: string, ctx: Context, lib: Library): Option<seq<string>> {
    var t := TableSection(ctx, lib);
    var j := JsonSection(ctx, lib);
    if t.None? || j.None? then None
    else Some(["Question: " + question + "\n"] + t.value + CsvSection(ctx, lib) + PdfSection(ctx) + j.value + [Instruction])
  }

  /** The full prompt. */
  function Prompt(question: string, ctx: Context, lib: Library): Option<string> {
    match PromptParts(question, ctx, lib)
    case None => None
    case Some(ps) => Some(Join("\n", ps))
  }

  /** Building the prompt does not raise: only the JSON dumps of the tables and of the
      embedded JSON can raise. */
  predicate PromptBuilds(ctx: Context, lib: Library) {
    TableSection(ctx, lib).Some? && JsonSection(ctx, lib).Some?
  }

  /** Whether a prompt can be built does not depend on the question. */
  lemma PromptBuildsExactly(question: string, ctx: Context, lib: Library)
    ensures Prompt(question, ctx, lib).Some? <==> PromptBuilds(ctx, lib)
  {
  }

  lemma {:induction false} JoinStartsWithFirst(sep: string, parts: seq<string>)
    requires |parts| > 0
    ensures IsPrefix(parts[0], Join(sep, parts))
  {
  }

  lemma {:induction false} JoinEndsWithLast(sep: string, parts: seq<string>)
    requires |parts| > 0
    ensures IsSuffix(parts[|parts| - 1], Join(sep, parts))
  {
    if |parts| > 1 {
      var front := parts[..|parts| - 1];
      assert parts == front + [parts[|parts| - 1]];
      JoinAppend(sep, front, parts[|parts| - 1]);
    }
  }

  /** Every prompt opens with the question and closes with the fixed instruction. */
  lemma PromptFraming(question: string, ctx: Context, lib: Library)
    requires Prompt(question, ctx, lib).Some?
    ensures IsPrefix("Question: " + question + "\n", Prompt(question, ctx, lib).value)
    ensures IsSuffix(Instruction, Prompt(question, ctx, lib).value)
  {
    var ps := PromptParts(question, ctx, lib).value;
    JoinStartsWithFirst("\n", ps);
    JoinEndsWithLast("\n", ps);
  }

  lemma {:induction false} TablePartsTotal(tables: seq<Table>, dumps: Value -> Option<string>)
    requires forall v :: dumps(v).Some?
    ensures TableParts(tables, dumps).Some?
    ensures |TableParts(tables, dumps).value| == 2 * |tables|
  {
    if |tables| > 0 {
      TablePartsTotal(tables[..|tables| - 1], dumps);
    }
  }

  /** The prompt can only fail through a JSON dump: when every value serialises, there is
      always a prompt. */
  lemma PromptTotal(question: string, ctx: Context, lib: Library)
    requires forall v :: lib.dumps(v).Some?
    ensures Prompt(question, ctx, lib).Some?
  {
    TablePartsTotal(ctx.tables, lib.dumps);
  }

  lemma {:induction false} TablePartsHeads(t1: seq<Table>, t2: seq<Table>, dumps: Value -> Option<string>)
    requires |t1| == |t2|
    requires forall i :: 0 <= i < |t1| ==> Head(t1[i], TableRows) == Head(t2[i], TableRows)
    ensures TableParts(t1, dumps) == TableParts(t2, dumps)
  {
    if |t1| > 0 {
      TablePartsHeads(t1[..|t1| - 1], t2[..|t2| - 1], dumps);
    }
  }

  lemma {:induction false} CsvPartsHeads(c1: seq<(string, Frame)>, c2: seq<(string, Frame)>, frameText: Frame -> string)
    requires |c1| == |c2|
    requires forall i :: 0 <= i < |c1| ==> c1[i].0 == c2[i].0 && Head(c1[i].1, FrameRows) == Head(c2[i].1, FrameRows)
    ensures CsvParts(c1, frameText) == CsvParts(c2, frameText)
  {
    if |c1| > 0 {
      CsvPartsHeads(c1[..|c1| - 1], c2[..|c2| - 1], frameText);
    }
  }

  /** The prompt shows only the first 10 rows of each table, the first 20 rows of each CSV
      frame and the first 2000 characters of PDF text: contexts that agree on those give
      the same prompt. The embedded JSON is shown whole. */
  lemma PromptSeesOnlyHeads(question: string, c1: Context, c2: Context, lib: Library)
    requires |c1.tables| == |c2.tables|
    requires forall i :: 0 <= i < |c1.tables| ==> Head(c1.tables[i], TableRows) == Head(c2.tables[i], TableRows)
    requires |c1.csvData| == |c2.csvData|
    requires forall i :: 0 <= i < |c1.csvData| ==>
               c1.csvData[i].0 == c2.csvData[i].0 && Head(c1.csvData[i].1, FrameRows) == Head(c2.csvData[i].1, FrameRows)
    requires Take(c1.pdfText, PdfChars) == Take(c2.pdfText, PdfChars)
    requires c1.embeddedJson == c2.embeddedJson
    ensures Prompt(question, c1, lib) == Prompt(question, c2, lib)
  {
    TablePartsHeads(c1.tables, c2.tables, lib.dumps);
    CsvPartsHeads(c1.csvData, c2.csvData, lib.frameText);
  }

  /** The prompt, assembled part by part as `solve_with_llm` does; None when a dump raises. */
  method BuildPrompt(question: string, ctx: Context, lib: Library) returns (prompt: Option<string>)
    ensures prompt == Prompt(question, ctx, lib)
  {
    var tables := BuildTableSection(ctx, lib);
    if tables.None? {
      return None;
    }
    var csv := BuildCsvSection(ctx, lib);
    var parts := ["Question: " + question + "\n"] + tables.value + csv;
    if ctx.pdfText != "" {
      parts := parts + ["\nPDF content (excerpt):", Take(ctx.pdfText, PdfChars)];
    }
    assert parts == ["Question: " + question + "\n"] + tables.value + csv + PdfSection(ctx);
    if ctx.embeddedJson != [] {
      var d := lib.dumps(Arr(ctx.embeddedJson));
      if d.None? {
        return None;
      }
      parts := parts + ["\nEmbedded JSON data:", d.value];
    }
    assert JsonSection(ctx, lib).Some?;
    assert parts == ["Question: " + question + "\n"] + tables.value + csv + PdfSection(ctx) + JsonSection(ctx, lib).value;
    parts := parts + [Instruction];
    assert PromptParts(question, ctx, lib) == Some(parts);
    prompt := Some(Join("\n", parts));
  }

  /** The loop over the tables: a header and the dump of the first rows of each. */
  method BuildTableSection(ctx: Context, lib: Library) returns (section: Option<seq<string>>)
    ensures section == TableSection(ctx, lib)
  {
    if ctx.tables == [] {
      return Some([]);
    }
    var parts := ["Available tables:"];
    var i := 0;
    while i < |ctx.tables|
      invariant 0 <= i <= |ctx.tables|
      invariant TableParts(ctx.tables[..i], lib.dumps).Some?
      invariant parts == ["Available tables:"] + TableParts(ctx.tables[..i], lib.dumps).value
    {
      assert ctx.tables[..i + 1][..i] == ctx.tables[..i];
      assert ctx.tables[..i + 1][i] == ctx.tables[i];
      var d := lib.dumps(Arr(Head(ctx.tables[i], TableRows)));
      if d.None? {
        TablePartsStaysNone(ctx.tables, i + 1, lib.dumps);
        return None;
      }
      parts := parts + ["\nTable " + NatToString(i + 1) + ":", d.value];
      i := i + 1;
    }
    assert ctx.tables[..i] == ctx.tables;
    section := Some(parts);
  }

  /** The loop over the CSV entries: a header and the rendering of the first rows of each. */
  method BuildCsvSection(ctx: Context, lib: Library) returns (section: seq<string>)
    ensures section == CsvSection(ctx, lib)
  {
    if ctx.csvData == [] {
      return [];
    }
    section := ["\nCSV data:"];
    var i := 0;
    while i < |ctx.csvData|
      invariant 0 <= i <= |ctx.csvData|
      invariant section == ["\nCSV data:"] + CsvParts(ctx.csvData[..i], lib.frameText)
    {
      assert ctx.csvData[..i + 1][..i] == ctx.csvData[..i];
      assert ctx.csvData[..i + 1][i] == ctx.csvData[i];
      var entry := ctx.csvData[i];
      section := section + ["\n" + entry.0 + ":", lib.frameText(Head(entry.1, FrameRows))];
      i := i + 1;
    }
    assert ctx.csvData[..i] == ctx.csvData;
  }

  lemma {:induction false} TablePartsStaysNone(tables: seq<Table>, k: nat, dumps: Value -> Option<string>)
    requires k <= |tables| && TableParts(tables[..k], dumps).None?
    ensures TableParts(tables, dumps).None?
    decreases |tables| - k
  {
    if k < |tables| {
      assert tables[..k + 1][..k] == tables[..k];
      TablePartsStaysNone(tables, k + 1, dumps);
    } else {
      assert tables[..k] == tables;
    }
  }

  /** The answer `solve_with_llm(question, context)` returns for the providers' replies, or
      None when it raises (a dump in the prompt, or `strip()` on a non-text reply). The
      question shapes only the prompt sent, which `SolveWithLlm` records in the trace; the
      replies to it are given in `r`. */
  function Solve(question: string, ctx: Context, cfg: Config, lib: Library, r: LlmReplies): Option<Value> {
    if PromptBuilds(ctx, lib) then ParseResponse(CallLlm(cfg, r), lib.loads) else None
  }

  /** Without any usable provider the answer is the mock answer 42. */
  lemma NoProviderAnswers42(question: string, ctx: Context, cfg: Config, lib: Library, r: LlmReplies)
    requires Prompt(question, ctx, lib).Some?
    requires cfg.secret == "" && !IsPrefix("sk-", cfg.openaiKey)
    ensures Solve(question, ctx, cfg, lib, r) == Some(Int(42))
  {
    PromptBuildsExactly(question, ctx, lib);
    IntRoundTrip(42, "", lib.loads);
    assert IntText(42) + "" == "42";
  }

  /** `solve_with_llm`: one prompt to the providers when the prompt can be built. */
  method SolveWithLlm(w: World, cfg: Config, lib: Library, question: string, ctx: Context, depth: nat)
    returns (answer: Option<Value>)
    modifies w`prompts, w`trace
    ensures answer == Solve(question, ctx, cfg, lib, w.llm(old(w.prompts)))
    ensures Prompt(question, ctx, lib).None? ==> w.prompts == old(w.prompts) && w.trace == old(w.trace)
    ensures Prompt(question, ctx, lib).Some? ==>
              w.prompts == old(w.prompts) + 1 &&
              w.trace == old(w.trace) + [Prompted(depth, Prompt(question, ctx, lib).value)]
  {
    var prompt := BuildPrompt(question, ctx, lib);
    PromptBuildsExactly(question, ctx, lib);
    if prompt.None? {
      return None;
    }
    var replies := w.Ask(prompt.value, depth);
    var reply := CallLlm(cfg, replies);
    answer := ParseResponse(reply, lib.loads);
  }
}
