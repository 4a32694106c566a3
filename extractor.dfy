/** The content normaliser of app/quiz/extractor.py: from a parsed quiz page (and the
    JavaScript variables the browser read) to the question, the submission address, the
    data links, the embedded JSON records and the HTML tables; and the page-by-page text
    of a PDF attachment. */
module Extractor {
  import opened Wrappers
  import opened Strings
  import opened Json

  /** One HTML table, as the list of row records `DataFrame.to_dict(orient="records")` gives. */
  type Table = seq<Value>

  /** What the normaliser asks of a parsed page. The HTML parser itself is not modelled. */
  datatype Document = Document(
    /** selector ↦ text of the first element it selects (`select_one`), its strings
        stripped and joined by spaces; a selector that selects nothing is absent */
    firstText: map<string, string>,
    /** all text of the page, stripped and joined by spaces */
    allText: string,
    /** the `action` attribute of each `<form>`, in document order */
    formActions: seq<Option<string>>,
    /** the `href` of each `<a>` that has one, in document order */
    hrefs: seq<string>,
    /** `script.string` of each `<script>`: absent when the element has no single text child */
    scripts: seq<Option<string>>,
    /** the tables `pandas.read_html` finds, or None when it raises */
    tables: Option<seq<Table>>)

  /** The dict `parse_html_for_quiz` returns: always exactly these five keys. */
  datatype QuizInfo = QuizInfo(
    question: Value,
    submitUrl: Value,
    links: seq<string>,
    embeddedJson: seq<Value>,
    tables: seq<Table>)

  /** The selectors tried for the question, in order. */
  const QuestionSelectors: seq<string> := [".question", "#question", "[data-question]", "h1", "h2", "p"]

  /** Link endings that mark a data file. */
  const DataSuffixes: seq<string> := [".pdf", ".csv", ".xlsx", ".xls", ".json"]

  /** The first element of selector `sel`, with text `text`, is taken as the question. */
  predicate Qualifies(sel: string, text: string) {
    text != [] && (Contains(Lower(sel), "question") || |text| > 20)
  }

  predicate Selects(doc: Document, sel: string) {
    sel in doc.firstText && Qualifies(sel, doc.firstText[sel])
  }

  /** The text of the first selector in `sels` whose first element qualifies. */
  function FirstQualifying(doc: Document, sels: seq<string>): Option<string>
  {
    if |sels| == 0 then None
    else if Selects(doc, sels[0]) then Some(doc.firstText[sels[0]])
    else FirstQualifying(doc, sels[1..])
  }

  /** The question the page text gives: the cascade's pick, else the first 500 characters of
      all text. */
  function PageQuestion(doc: Document): string {
    match FirstQualifying(doc, QuestionSelectors)
    case Some(t) => t
    case None => Take(doc.allText, 500)
  }

  /** The submission address the first form gives, `None` when it has no non-empty action. */
  function FormTarget(doc: Document): Value {
    if |doc.formActions| > 0 && doc.formActions[0].Some? && doc.formActions[0].value != []
    then Str(doc.formActions[0].value) else Null
  }

  /** `any(href.lower().endswith(ext) for ext in (...))` */
  predicate IsDataLink(href: string) {
    exists ext :: ext in DataSuffixes && IsSuffix(ext, Lower(href))
  }

  function DataLinks(hrefs: seq<string>): seq<string> {
    if |hrefs| == 0 then []
    else
      var rest := DataLinks(hrefs[..|hrefs| - 1]);
      if IsDataLink(hrefs[|hrefs| - 1]) then rest + [hrefs[|hrefs| - 1]] else rest
  }

  /** One JavaScript variable's effect on (question, submit address): a dict fills either
      only while it is still falsy. */
  function JsStep(state: (Value, Value), data: Value): (Value, Value) {
    if !data.Obj? then state
    else
      var q := if HasKey(data, "question") && !Truthy(state.0) then Get(data, "question") else state.0;
      var u := if HasKey(data, "submit_url") && !Truthy(state.1) then Get(data, "submit_url") else state.1;
      (q, u)
  }

  function JsFold(js: seq<(string, Value)>, start: (Value, Value)): (Value, Value) {
    if |js| == 0 then start else JsStep(JsFold(js[..|js| - 1], start), js[|js| - 1].1)
  }

  /** The dict-valued JavaScript variables, in order. */
  function JsDicts(js: seq<(string, Value)>): seq<Value> {
    if |js| == 0 then []
    else
      var rest := JsDicts(js[..|js| - 1]);
      if js[|js| - 1].1.Obj? then rest + [js[|js| - 1].1] else rest
  }

  /** The naive JSON candidate of a script: from its first `{` to its last `}` inclusive
      (empty when the last `}` comes before the first `{`). */
  function Candidate(text: string): Option<string> {
    var start, end := IndexOf(text, '{'), LastIndexOf(text, '}');
    if start < 0 || end < 0 then None else Some(Slice(text, start, end + 1))
  }

  /** What one `<script>` contributes to `embedded_json`. */
  function ScriptObject(script: Option<string>, parse: string -> Option<Value>): Option<Value> {
    if script.None? || script.value == [] then None
    else match Candidate(script.value)
      case None => None
      case Some(c) => parse(c)
  }

  function ScriptObjects(scripts: seq<Option<string>>, parse: string -> Option<Value>): seq<Value> {
    if |scripts| == 0 then []
    else
      var rest := ScriptObjects(scripts[..|scripts| - 1], parse);
      match ScriptObject(scripts[|scripts| - 1], parse)
      case Some(v) => rest + [v]
      case None => rest
  }

  /** The result `parse_html_for_quiz` computes, stated piece by piece. */
  function ParsedQuiz(doc: Document, js: seq<(string, Value)>, parse: string -> Option<Value>): QuizInfo {
    var qu := JsFold(js, (Str(PageQuestion(doc)), FormTarget(doc)));
    QuizInfo(qu.0, qu.1, DataLinks(doc.hrefs), JsDicts(js) + ScriptObjects(doc.scripts, parse),
             match doc.tables case Some(ts) => ts case None => [])
  }

  /** `parse_html_for_quiz(html, js_data)`: `parse` is `json.loads`, None when it raises. */
  method ParseHtmlForQuiz(doc: Document, jsData: seq<(string, Value)>, parse: string -> Option<Value>)
    returns (info: QuizInfo)
    ensures info == ParsedQuiz(doc, jsData, parse)
  {
    var question := SelectQuestion(doc);
    var submitUrl := Null;
    if |doc.formActions| > 0 && doc.formActions[0].Some? && doc.formActions[0].value != [] {
      submitUrl := Str(doc.formActions[0].value);
    }
    var links := CollectLinks(doc.hrefs);
    var q, u, embedded := ApplyJsData(Str(question), submitUrl, jsData);
    var fromScripts := ScanScripts(doc.scripts, parse);
    var tables := [];
    if doc.tables.Some? {
      tables := doc.tables.value;
    }
    info := QuizInfo(q, u, links, embedded + fromScripts, tables);
  }

  /** The selector cascade and its fallback. */
  method SelectQuestion(doc: Document) returns (question: string)
    ensures question == PageQuestion(doc)
  {
    var found := Null;
    var i := 0;
    while i < |QuestionSelectors|
      invariant 0 <= i <= |QuestionSelectors| && found == Null
      invariant FirstQualifying(doc, QuestionSelectors) == FirstQualifying(doc, QuestionSelectors[i..])
    {
      var sel := QuestionSelectors[i];
      assert QuestionSelectors[i..][1..] == QuestionSelectors[i + 1..];
      if sel in doc.firstText && doc.firstText[sel] != [] {
        var text := doc.firstText[sel];
        if Contains(Lower(sel), "question") || |text| > 20 {
          found := Str(text);
          break;
        }
      }
      i := i + 1;
    }
    if !Truthy(found) {
      found := Str(Take(doc.allText, 500));
    }
    question := found.s;
  }

  /** The data-link filter over the page's anchors. */
  method CollectLinks(hrefs: seq<string>) returns (links: seq<string>)
    ensures links == DataLinks(hrefs)
  {
    links := [];
    var i := 0;
    while i < |hrefs|
      invariant 0 <= i <= |hrefs| && links == DataLinks(hrefs[..i])
    {
      var href := hrefs[i];
      assert hrefs[..i + 1][..i] == hrefs[..i];
      if exists ext :: ext in DataSuffixes && IsSuffix(ext, Lower(href)) {
        links := links + [href];
      }
      i := i + 1;
    }
    assert hrefs[..i] == hrefs;
  }

  /** The JavaScript-variable pass: collect the dict values, fill question and address. */
  method ApplyJsData(question0: Value, submitUrl0: Value, jsData: seq<(string, Value)>)
    returns (question: Value, submitUrl: Value, embedded: seq<Value>)
    ensures (question, submitUrl) == JsFold(jsData, (question0, submitUrl0))
    ensures embedded == JsDicts(jsData)
  {
    question, submitUrl, embedded := question0, submitUrl0, [];
    var i := 0;
    while i < |jsData|
      invariant 0 <= i <= |jsData|
      invariant (question, submitUrl) == JsFold(jsData[..i], (question0, submitUrl0))
      invariant embedded == JsDicts(jsData[..i])
    {
      var data := jsData[i].1;
      assert jsData[..i + 1][..i] == jsData[..i];
      if data.Obj? {
        embedded := embedded + [data];
        if HasKey(data, "question") && !Truthy(question) {
          question := Get(data, "question");
        }
        if HasKey(data, "submit_url") && !Truthy(submitUrl) {
          submitUrl := Get(data, "submit_url");
        }
      }
      i := i + 1;
    }
    assert jsData[..i] == jsData;
  }

  /** The naive scan of inline scripts for a JSON object. */
  method ScanScripts(scripts: seq<Option<string>>, parse: string -> Option<Value>) returns (found: seq<Value>)
    ensures found == ScriptObjects(scripts, parse)
  {
    found := [];
    var i := 0;
    while i < |scripts|
      invariant 0 <= i <= |scripts| && found == ScriptObjects(scripts[..i], parse)
    {
      assert scripts[..i + 1][..i] == scripts[..i];
      var obj := ScanScript(scripts[i], parse);
      if obj.Some? {
        found := found + [obj.value];
      }
      i := i + 1;
    }
    assert scripts[..i] == scripts;
  }

  /** One pass of the script loop: skip an empty script, take the candidate between the
      braces, keep it when it parses. */
  method ScanScript(script: Option<string>, parse: string -> Option<Value>) returns (obj: Option<Value>)
    ensures obj == ScriptObject(script, parse)
  {
    obj := None;
    if script.Some? && script.value != [] {
      var text := script.value;
      ContainsChar(text, '{');
      ContainsChar(text, '}');
      LastIndexOfShape(text, '}');
      IndexOfLastIndexOf(text, '}');
      if Contains(text, "{") && Contains(text, "}") {
        var first := IndexOf(text, '{');
        var last := LastIndexOf(text, '}');
        var cand := Slice(text, first, last + 1);
        obj := parse(cand);
      }
    }
  }

  // ---- properties of the selector cascade ----

  /** The cascade takes the first selector, in order, whose first element qualifies. */
  lemma {:induction false} FirstQualifyingIsFirst(doc: Document, sels: seq<string>)
    ensures FirstQualifying(doc, sels).None? <==> forall k :: 0 <= k < |sels| ==> !Selects(doc, sels[k])
    ensures FirstQualifying(doc, sels).Some? ==>
      exists k :: 0 <= k < |sels| && Selects(doc, sels[k])
        && FirstQualifying(doc, sels).value == doc.firstText[sels[k]]
        && forall j :: 0 <= j < k ==> !Selects(doc, sels[j])
  {
    if |sels| > 0 {
      FirstQualifyingIsFirst(doc, sels[1..]);
      if !Selects(doc, sels[0]) {
        assert forall k :: 1 <= k < |sels| ==> sels[k] == sels[1..][k - 1];
        if FirstQualifying(doc, sels).Some? {
          var k :| 0 <= k < |sels[1..]| && Selects(doc, sels[1..][k])
            && FirstQualifying(doc, sels[1..]).value == doc.firstText[sels[1..][k]]
            && forall j :: 0 <= j < k ==> !Selects(doc, sels[1..][j]);
          assert forall j :: 0 <= j < k + 1 ==> !Selects(doc, sels[j]) by {
            forall j | 0 < j < k + 1 ensures !Selects(doc, sels[j]) { assert sels[j] == sels[1..][j - 1]; }
          }
        }
      }
    }
  }

  /** The three question markers accept any non-empty text; `h1`, `h2` and `p` need more
      than 20 characters. */
  lemma SelectorThreshold(k: nat, text: string)
    requires k < |QuestionSelectors|
    ensures Qualifies(QuestionSelectors[k], text) <==> text != [] && (k < 3 || |text| > 20)
  {
    var sel := QuestionSelectors[k];
    if k == 0 { assert OccursAt(Lower(sel), "question", 1); }
    else if k == 1 { assert OccursAt(Lower(sel), "question", 1); }
    else if k == 2 { assert OccursAt(Lower(sel), "question", 6); }
    else {
      assert |Lower(sel)| < |"question"|;
      assert !Contains(Lower(sel), "question");
    }
  }

  /** With no qualifying element the question is the first 500 characters of all text. */
  lemma FallbackQuestion(doc: Document)
    requires forall k :: 0 <= k < |QuestionSelectors| ==> !Selects(doc, QuestionSelectors[k])
    ensures PageQuestion(doc) == Take(doc.allText, 500) && |PageQuestion(doc)| <= 500
  {
    FirstQualifyingIsFirst(doc, QuestionSelectors);
  }

  // ---- properties of the JavaScript pass ----

  /** A truthy question (or address) is never replaced by JavaScript data: page text and the
      form outrank script variables. */
  lemma {:induction false} JsKeepsTruthy(js: seq<(string, Value)>, start: (Value, Value))
    ensures Truthy(start.0) ==> JsFold(js, start).0 == start.0
    ensures Truthy(start.1) ==> JsFold(js, start).1 == start.1
  {
    if |js| > 0 { JsKeepsTruthy(js[..|js| - 1], start); }
  }

  /** A dict-valued variable that carries `key` with a truthy value. */
  predicate SuppliesTruthy(data: Value, key: string) {
    data.Obj? && HasKey(data, key) && Truthy(Get(data, key))
  }

  /** While nothing truthy has been seen, the state is the last supplied value (or the start). */
  lemma {:induction false} JsFirstTruthyQuestion(js: seq<(string, Value)>, start: (Value, Value), k: nat)
    requires !Truthy(start.0)
    requires k < |js| && SuppliesTruthy(js[k].1, "question")
    requires forall j :: 0 <= j < k ==> !SuppliesTruthy(js[j].1, "question")
    ensures JsFold(js, start).0 == Get(js[k].1, "question")
  {
    if |js| - 1 > k {
      JsFirstTruthyQuestion(js[..|js| - 1], start, k);
      JsKeepsTruthy([js[|js| - 1]], JsFold(js[..|js| - 1], start));
      assert [js[|js| - 1]][..0] == [];
    } else {
      JsNoTruthyYet(js[..k], start, "question");
    }
  }

  /** Before the first truthy question, the folded question is falsy. */
  lemma {:induction false} JsNoTruthyYet(js: seq<(string, Value)>, start: (Value, Value), key: string)
    requires key == "question"
    requires !Truthy(start.0)
    requires forall j :: 0 <= j < |js| ==> !SuppliesTruthy(js[j].1, key)
    ensures !Truthy(JsFold(js, start).0)
  {
    if |js| > 0 {
      JsNoTruthyYet(js[..|js| - 1], start, key);
    }
  }

  /** The JavaScript submission address is used only when the form gave none, and then the
      first truthy one wins. */
  lemma {:induction false} JsFirstTruthyTarget(js: seq<(string, Value)>, start: (Value, Value), k: nat)
    requires !Truthy(start.1)
    requires k < |js| && SuppliesTruthy(js[k].1, "submit_url")
    requires forall j :: 0 <= j < k ==> !SuppliesTruthy(js[j].1, "submit_url")
    ensures JsFold(js, start).1 == Get(js[k].1, "submit_url")
  {
    if |js| - 1 > k {
      JsFirstTruthyTarget(js[..|js| - 1], start, k);
      JsKeepsTruthy([js[|js| - 1]], JsFold(js[..|js| - 1], start));
      assert [js[|js| - 1]][..0] == [];
    } else {
      JsNoTruthyTargetYet(js[..k], start);
    }
  }

  lemma {:induction false} JsNoTruthyTargetYet(js: seq<(string, Value)>, start: (Value, Value))
    requires !Truthy(start.1)
    requires forall j :: 0 <= j < |js| ==> !SuppliesTruthy(js[j].1, "submit_url")
    ensures !Truthy(JsFold(js, start).1)
  {
    if |js| > 0 {
      JsNoTruthyTargetYet(js[..|js| - 1], start);
    }
  }

  /** `embedded_json` starts with exactly the dict-valued variables, in their order. */
  lemma {:induction false} JsDictsAreTheDicts(js: seq<(string, Value)>)
    ensures forall v :: v in JsDicts(js) ==> v.Obj?
    ensures forall i :: 0 <= i < |js| && js[i].1.Obj? ==> js[i].1 in JsDicts(js)
    ensures |JsDicts(js)| <= |js|
  {
    if |js| > 0 {
      JsDictsAreTheDicts(js[..|js| - 1]);
      forall i | 0 <= i < |js| - 1 ensures js[i] == js[..|js| - 1][i] { }
    }
  }

  // ---- properties of the script scan ----

  /** The candidate is exactly the span from the first `{` to the last `}`: any text split as
      (no `{`) + `{…}` + (no `}`) yields its middle part. */
  lemma CandidateIsOuterBraceSpan(pre: string, c: string, post: string)
    requires forall k :: 0 <= k < |pre| ==> pre[k] != '{'
    requires forall k :: 0 <= k < |post| ==> post[k] != '}'
    requires |c| > 0 && c[0] == '{' && c[|c| - 1] == '}'
    ensures Candidate(pre + c + post) == Some(c)
  {
    var t := pre + c + post;
    var i, j := IndexOf(t, '{'), LastIndexOf(t, '}');
    LastIndexOfShape(t, '}');
    assert t[|pre|] == '{';
    assert t[|pre| + |c| - 1] == '}';
    assert forall k :: 0 <= k < |pre| ==> t[k] == pre[k];
    assert forall k :: |pre| + |c| <= k < |t| ==> t[k] == post[k - |pre| - |c|];
    assert t[i..j + 1] == c;
  }

  /** A script without both braces contributes nothing, whatever the parser says. */
  lemma CandidateNeedsBothBraces(text: string)
    ensures Candidate(text).Some? <==> Contains(text, "{") && Contains(text, "}")
  {
    ContainsChar(text, '{');
    ContainsChar(text, '}');
    IndexOfLastIndexOf(text, '}');
  }

  /** When the last `}` precedes the first `{` the candidate is empty. */
  lemma CandidateEmptyWhenReversed(text: string)
    requires Candidate(text).Some?
    ensures Candidate(text).value == [] <==> LastIndexOf(text, '}') < IndexOf(text, '{')
  {
  }

  // ---- properties of the link filter and the rest ----

  /** `links` keeps exactly the data links, in document order. */
  lemma {:induction false} DataLinksFilter(hrefs: seq<string>)
    ensures forall h :: h in DataLinks(hrefs) <==> h in hrefs && IsDataLink(h)
  {
    if |hrefs| > 0 {
      var pre := hrefs[..|hrefs| - 1];
      DataLinksFilter(pre);
      assert hrefs == pre + [hrefs[|hrefs| - 1]];
    }
  }

  lemma {:induction false} DataLinksAppend(a: seq<string>, b: seq<string>)
    ensures DataLinks(a + b) == DataLinks(a) + DataLinks(b)
  {
    if |b| > 0 {
      assert (a + b)[..|a + b| - 1] == a + b[..|b| - 1];
      DataLinksAppend(a, b[..|b| - 1]);
    } else {
      assert a + b == a;
    }
  }

  /** Script objects are collected in document order. */
  lemma {:induction false} ScriptObjectsAppend(a: seq<Option<string>>, b: seq<Option<string>>, parse: string -> Option<Value>)
    ensures ScriptObjects(a + b, parse) == ScriptObjects(a, parse) + ScriptObjects(b, parse)
    decreases |b|
  {
    if |b| == 0 {
      assert a + b == a;
    } else {
      assert (a + b)[..|a + b| - 1] == a + b[..|b| - 1];
      ScriptObjectsAppend(a, b[..|b| - 1], parse);
    }
  }

  /** An empty or text-less script, one without both braces, or one whose candidate does not
      parse, is skipped and the scan goes on. */
  lemma SkippedScript(a: seq<Option<string>>, s: Option<string>, b: seq<Option<string>>, parse: string -> Option<Value>)
    requires s.None? || s.value == [] || Candidate(s.value).None? || parse(Candidate(s.value).value).None?
    ensures ScriptObjects(a + [s] + b, parse) == ScriptObjects(a, parse) + ScriptObjects(b, parse)
  {
    ScriptObjectsAppend(a + [s], b, parse);
    ScriptObjectsAppend(a, [s], parse);
    assert [s][..0] == [];
  }

  /** The JavaScript dicts come first in `embedded_json`, then the script objects; a failed
      table parse leaves no tables. */
  lemma EmbeddedOrder(doc: Document, js: seq<(string, Value)>, parse: string -> Option<Value>)
    ensures var info := ParsedQuiz(doc, js, parse);
      info.embeddedJson[..|JsDicts(js)|] == JsDicts(js) &&
      info.embeddedJson[|JsDicts(js)|..] == ScriptObjects(doc.scripts, parse)
    ensures doc.tables.None? ==> ParsedQuiz(doc, js, parse).tables == []
  {
  }

  /** The page of app/tests/test_solver.py:7-21: a `<h1 class="question">` holding
      "What is 2+2?" and a form posting to "/submit". */
  lemma TestPageExample(parse: string -> Option<Value>)
    ensures var doc := Document(map[".question" := "What is 2+2?", "h1" := "What is 2+2?"],
                                "What is 2+2?", [Some("/submit")], [], [], None);
      var info := ParsedQuiz(doc, [], parse);
      info.question == Str("What is 2+2?") && info.submitUrl == Str("/submit")
      && info.links == [] && info.embeddedJson == [] && info.tables == []
  {
    var doc := Document(map[".question" := "What is 2+2?", "h1" := "What is 2+2?"],
                        "What is 2+2?", [Some("/submit")], [], [], None);
    SelectorThreshold(0, "What is 2+2?");
    assert Selects(doc, QuestionSelectors[0]);
  }

  // ---- parse_pdf ----

  /** One page as pdfplumber offers it: its text (None when it has none), or a page whose
      extraction raises. A file that cannot be opened is a first page that raises. */
  datatype PdfPage = Page(text: Option<string>) | Broken

  function PageText(p: PdfPage): string
    requires p.Page?
  {
    match p.text case Some(t) => t case None => ""
  }

  /** The texts collected before the first page that raises. */
  function CollectedTexts(pages: seq<PdfPage>): seq<string> {
    if |pages| == 0 || pages[0].Broken? then [] else [PageText(pages[0])] + CollectedTexts(pages[1..])
  }

  predicate AllReadable(pages: seq<PdfPage>) {
    forall k :: 0 <= k < |pages| ==> pages[k].Page?
  }

  lemma {:induction false} CollectedSplit(a: seq<PdfPage>, b: seq<PdfPage>)
    requires AllReadable(a)
    ensures CollectedTexts(a + b) == CollectedTexts(a) + CollectedTexts(b)
  {
    if |a| > 0 {
      assert (a + b)[1..] == a[1..] + b;
      CollectedSplit(a[1..], b);
    } else {
      assert a + b == b;
    }
  }

  /** `parse_pdf(path)`: the page texts joined by newlines; an error ends the scan and the
      pages read so far are returned. */
  method ParsePdf(pages: seq<PdfPage>) returns (text: string)
    ensures text == Join("\n", CollectedTexts(pages))
  {
    var texts: seq<string> := [];
    var i := 0;
    while i < |pages|
      invariant 0 <= i <= |pages| && AllReadable(pages[..i])
      invariant texts == CollectedTexts(pages[..i])
    {
      if pages[i].Broken? {
        break;
      }
      var t := if pages[i].text.Some? then pages[i].text.value else "";
      CollectedSplit(pages[..i], [pages[i]]);
      assert pages[..i + 1] == pages[..i] + [pages[i]];
      texts := texts + [t];
      i := i + 1;
    }
    CollectedSplit(pages[..i], pages[i..]);
    assert pages[..i] + pages[i..] == pages;
    assert CollectedTexts(pages[i..]) == [] by {
      if i < |pages| { assert pages[i..][0] == pages[i]; }
    }
    assert texts == CollectedTexts(pages);
    text := Join("\n", texts);
  }

  /** A page that raises hides every later page, and the earlier pages all appear. */
  lemma PdfStopsAtBrokenPage(a: seq<PdfPage>, b: seq<PdfPage>)
    requires AllReadable(a)
    ensures CollectedTexts(a + [Broken] + b) == CollectedTexts(a)
    ensures |CollectedTexts(a)| == |a| && forall k :: 0 <= k < |a| ==> CollectedTexts(a)[k] == PageText(a[k])
  {
    CollectedSplit(a, [Broken] + b);
    assert a + [Broken] + b == a + ([Broken] + b);
    AllReadableTexts(a);
  }

  lemma {:induction false} AllReadableTexts(a: seq<PdfPage>)
    requires AllReadable(a)
    ensures |CollectedTexts(a)| == |a| && forall k :: 0 <= k < |a| ==> CollectedTexts(a)[k] == PageText(a[k])
  {
    if |a| > 0 {
      AllReadableTexts(a[1..]);
      forall k | 0 < k < |a| ensures CollectedTexts(a)[k] == PageText(a[k]) {
        assert a[k] == a[1..][k - 1];
      }
    }
  }
}
