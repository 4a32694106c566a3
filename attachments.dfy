/** The attachment step of `solve_quiz` (app/quiz/solver.py): each downloaded file is routed
    by its extension to the table decoders or the PDF text extractor, and what it gives is
    added to the context for the language model. A file that fails to decode is skipped. */
module Attachments {
  import opened Wrappers
  import opened Strings
  import opened Extractor
  import opened Environment
  import opened Llm

  // ---------------------------------------------------------------------------------------
  // File names (pathlib)

  /** The end of `p[..n]` once its trailing slashes are dropped. */
  function SlashlessEnd(p: string, n: nat): (e: nat)
    requires n <= |p|
    ensures e <= n
  {
    if n > 0 && p[n - 1] == '/' then SlashlessEnd(p, n - 1) else n
  }

  function DropTrailingSlashes(p: string): string {
    p[..SlashlessEnd(p, |p|)]
  }

  /** `Path(path).name`: the last component. */
  function FileName(path: string): string {
    var t := DropTrailingSlashes(path);
    t[LastIndexOf(t, '/') + 1..]
  }

  /** `PurePath.suffix`: the name from its last point on, unless that point opens or ends
      the name. */
  function Suffix(name: string): string {
    var i := LastIndexOf(name, '.');
    if 0 < i < |name| - 1 then name[i..] else ""
  }

  lemma {:induction false} SlashlessEndShape(p: string, n: nat)
    requires n <= |p|
    ensures var e := SlashlessEnd(p, n);
      e <= n && (e == 0 || p[e - 1] != '/') && forall k :: e <= k < n ==> p[k] == '/'
  {
    if n > 0 && p[n - 1] == '/' {
      SlashlessEndShape(p, n - 1);
    }
  }

  /** The name is the part of the path after its last slash, trailing slashes aside: it
      holds no slash, and what precedes it is empty or ends in a slash. */
  lemma FileNameShape(path: string)
    ensures var t, n := DropTrailingSlashes(path), FileName(path);
      IsSuffix(n, t) && (forall k :: 0 <= k < |n| ==> n[k] != '/') &&
      (|n| == |t| || t[|t| - |n| - 1] == '/')
  {
    var t := DropTrailingSlashes(path);
    var i := LastIndexOf(t, '/');
    LastIndexOfShape(t, '/');
    var n := t[i + 1..];
    assert FileName(path) == n;
    assert t[|t| - |n|..] == n;
    forall k | 0 <= k < |n|
      ensures n[k] != '/'
    {
      assert n[k] == t[i + 1 + k];
    }
  }

  /** A suffix is a point followed by at least one character, none of them a point, and is
      a proper tail of the name. */
  lemma SuffixShape(name: string)
    ensures var ext := Suffix(name);
      ext != [] ==> IsSuffix(ext, name) && ext[0] == '.' && 2 <= |ext| < |name| &&
                    forall k :: 1 <= k < |ext| ==> ext[k] != '.'
    ensures Suffix(name) == [] <==> LastIndexOf(name, '.') <= 0 || LastIndexOf(name, '.') == |name| - 1
  {
    LastIndexOfShape(name, '.');
  }

  /** How a file is routed, by its lower-cased extension. */
  datatype Kind = Tabular | PdfFile | Skipped

  function KindOf(path: string): Kind {
    var ext := Lower(Suffix(FileName(path)));
    if ext == ".csv" || ext == ".xlsx" || ext == ".xls" then Tabular
    else if ext == ".pdf" then PdfFile
    else Skipped
  }

  // ---------------------------------------------------------------------------------------
  // The CSV dict

  /** The keys of a dict's items, in order. */
  function Keys(d: seq<(string, Frame)>): (ks: seq<string>)
    ensures |ks| == |d| && forall i :: 0 <= i < |d| ==> ks[i] == d[i].0
  {
    if |d| == 0 then [] else [d[0].0] + Keys(d[1..])
  }

  /** No key occurs twice, as in a dict. */
  predicate UniqueKeys(d: seq<(string, Frame)>) {
    |d| == 0 || (d[0].0 !in Keys(d[1..]) && UniqueKeys(d[1..]))
  }

  /** `d[key]` when present. */
  function FrameOf(d: seq<(string, Frame)>, key: string): (r: Option<Frame>)
    ensures r.Some? <==> key in Keys(d)
  {
    if |d| == 0 then None
    else if d[0].0 == key then Some(d[0].1)
    else FrameOf(d[1..], key)
  }

  /** `d[key] = v` on a dict's items: a present key keeps its place, a new one goes last. */
  function Put(d: seq<(string, Frame)>, key: string, v: Frame): seq<(string, Frame)> {
    if |d| == 0 then [(key, v)]
    else if d[0].0 == key then [(key, v)] + d[1..]
    else [d[0]] + Put(d[1..], key, v)
  }

  /** After `d[key] = v` the key maps to `v` and every other key is untouched. */
  lemma {:induction false} PutLookup(d: seq<(string, Frame)>, key: string, v: Frame, other: string)
    ensures FrameOf(Put(d, key, v), key) == Some(v)
    ensures other != key ==> FrameOf(Put(d, key, v), other) == FrameOf(d, other)
  {
    if |d| > 0 && d[0].0 != key {
      PutLookup(d[1..], key, v, other);
      assert Put(d, key, v)[1..] == Put(d[1..], key, v);
    }
  }

  /** `d[key] = v` keeps the key order; a new key goes last. */
  lemma {:induction false} PutKeys(d: seq<(string, Frame)>, key: string, v: Frame)
    ensures Keys(Put(d, key, v)) == if key in Keys(d) then Keys(d) else Keys(d) + [key]
  {
    if |d| > 0 {
      assert Put(d, key, v)[1..] == if d[0].0 == key then d[1..] else Put(d[1..], key, v);
      if d[0].0 != key {
        PutKeys(d[1..], key, v);
        assert key in Keys(d) <==> key in Keys(d[1..]);
      }
    }
  }

  /** `d[key] = v` keeps the keys unique. */
  lemma {:induction false} PutUnique(d: seq<(string, Frame)>, key: string, v: Frame)
    requires UniqueKeys(d)
    ensures UniqueKeys(Put(d, key, v))
  {
    if |d| > 0 {
      assert Put(d, key, v)[1..] == if d[0].0 == key then d[1..] else Put(d[1..], key, v);
      if d[0].0 != key {
        PutUnique(d[1..], key, v);
        PutKeys(d[1..], key, v);
      }
    }
  }

  // ---------------------------------------------------------------------------------------
  // Routing the downloads

  /** The text a PDF attachment adds to the context. */
  function PdfEntry(d: Download): string {
    "\n\n" + FileName(d.path) + ":\n" + Join("\n", CollectedTexts(d.pdf))
  }

  /** The context after one download. */
  function Apply(ctx: Context, d: Download): (r: Context)
    ensures r.tables == ctx.tables && r.embeddedJson == ctx.embeddedJson
    ensures r.pdfText == ctx.pdfText + if KindOf(d.path) == PdfFile then PdfEntry(d) else ""
    ensures r.csvData == if DecodedAs(d, FileName(d.path)) then Put(ctx.csvData, FileName(d.path), d.frame.value)
                         else ctx.csvData
  {
    match KindOf(d.path)
    case Tabular =>
      (match d.frame
       case Some(f) => ctx.(csvData := Put(ctx.csvData, FileName(d.path), f))
       case None => ctx)
    case PdfFile => ctx.(pdfText := ctx.pdfText + PdfEntry(d))
    case Skipped => ctx
  }

  /** The context after the downloads, in order. */
  function ApplyAll(ctx: Context, ds: seq<Download>): Context {
    if |ds| == 0 then ctx else Apply(ApplyAll(ctx, ds[..|ds| - 1]), ds[|ds| - 1])
  }

  /** The loop over the downloads. */
  method ParseDownloads(ctx0: Context, downloads: seq<Download>) returns (ctx: Context)
    ensures ctx == ApplyAll(ctx0, downloads)
  {
    ctx := ctx0;
    var i := 0;
    while i < |downloads|
      invariant 0 <= i <= |downloads|
      invariant ctx == ApplyAll(ctx0, downloads[..i])
    {
      assert downloads[..i + 1][..i] == downloads[..i];
      var d := downloads[i];
      ghost var before := ctx;
      var name := FileName(d.path);
      var ext := Lower(Suffix(name));
      if ext == ".csv" || ext == ".xlsx" || ext == ".xls" {
        if d.frame.Some? {
          ctx := ctx.(csvData := Put(ctx.csvData, name, d.frame.value));
        }
      } else if ext == ".pdf" {
        var text := ParsePdf(d.pdf);
        var entry := "\n\n" + name + ":\n" + text;
        assert entry == PdfEntry(d);
        ctx := ctx.(pdfText := ctx.pdfText + entry);
      }
      assert ctx == Apply(before, d);
      i := i + 1;
    }
    assert downloads[..i] == downloads;
  }

  lemma ApplyAllSnoc(ctx: Context, ds: seq<Download>, d: Download)
    ensures ApplyAll(ctx, ds + [d]) == Apply(ApplyAll(ctx, ds), d)
  {
    assert (ds + [d])[..|ds|] == ds;
  }

  lemma {:induction false} ApplyAllSplit(ctx: Context, a: seq<Download>, b: seq<Download>)
    ensures ApplyAll(ctx, a + b) == ApplyAll(ApplyAll(ctx, a), b)
  {
    if |b| == 0 {
      assert a + b == a;
    } else {
      var front, last := b[..|b| - 1], b[|b| - 1];
      assert b == front + [last];
      assert a + b == (a + front) + [last];
      ApplyAllSplit(ctx, a, front);
      ApplyAllSnoc(ctx, a + front, last);
      ApplyAllSnoc(ApplyAll(ctx, a), front, last);
    }
  }

  /** A download that is skipped or fails to decode leaves no trace: the result is as if
      it had not been downloaded. */
  lemma FailedDownloadIsAbsent(ctx: Context, a: seq<Download>, d: Download, b: seq<Download>)
    requires KindOf(d.path) == Skipped || (KindOf(d.path) == Tabular && d.frame.None?)
    ensures ApplyAll(ctx, a + [d] + b) == ApplyAll(ctx, a + b)
  {
    ApplyAllSplit(ctx, a + [d], b);
    ApplyAllSplit(ctx, a, b);
    assert (a + [d])[..|a + [d]| - 1] == a;
  }

  /** The page's tables and embedded JSON pass through untouched. */
  lemma {:induction false} DownloadsKeepPageData(ctx: Context, ds: seq<Download>)
    ensures ApplyAll(ctx, ds).tables == ctx.tables
    ensures ApplyAll(ctx, ds).embeddedJson == ctx.embeddedJson
  {
    if |ds| > 0 {
      DownloadsKeepPageData(ctx, ds[..|ds| - 1]);
    }
  }

  lemma AppendAssoc(a: string, b: string, c: string)
    ensures (a + b) + c == a + (b + c)
  {
  }

  /** The PDF text entries of the downloads, in order. */
  function PdfEntries(ds: seq<Download>): string {
    if |ds| == 0 then ""
    else PdfEntries(ds[..|ds| - 1]) + if KindOf(ds[|ds| - 1].path) == PdfFile then PdfEntry(ds[|ds| - 1]) else ""
  }

  /** The PDF text grows by one entry per PDF download, in download order. */
  lemma {:induction false} PdfTextAccumulates(ctx: Context, ds: seq<Download>)
    ensures ApplyAll(ctx, ds).pdfText == ctx.pdfText + PdfEntries(ds)
  {
    if |ds| > 0 {
      var front, d := ds[..|ds| - 1], ds[|ds| - 1];
      PdfTextAccumulates(ctx, front);
      var x := if KindOf(d.path) == PdfFile then PdfEntry(d) else "";
      assert ApplyAll(ctx, ds).pdfText == ApplyAll(ctx, front).pdfText + x;
      AppendAssoc(ctx.pdfText, PdfEntries(front), x);
    }
  }

  /** A successfully decoded table download of this name. */
  predicate DecodedAs(d: Download, name: string) {
    KindOf(d.path) == Tabular && d.frame.Some? && FileName(d.path) == name
  }

  /** The frame of the last download that decoded under `name`, if any. */
  function LastDecoded(ds: seq<Download>, name: string): Option<Frame> {
    if |ds| == 0 then None
    else if DecodedAs(ds[|ds| - 1], name) then ds[|ds| - 1].frame
    else LastDecoded(ds[..|ds| - 1], name)
  }

  /** A last decoded frame comes from some download that decoded under the name. */
  lemma {:induction false} LastDecodedFound(ds: seq<Download>, name: string)
    ensures LastDecoded(ds, name).Some? ==> exists i :: 0 <= i < |ds| && DecodedAs(ds[i], name)
  {
    if |ds| > 0 && !DecodedAs(ds[|ds| - 1], name) {
      var front := ds[..|ds| - 1];
      LastDecodedFound(front, name);
      if LastDecoded(ds, name).Some? {
        var i :| 0 <= i < |front| && DecodedAs(front[i], name);
        assert ds[i] == front[i];
      }
    }
  }

  /** Once some download decoded under the name, there is a last decoded frame. */
  lemma {:induction false} LastDecodedPresent(ds: seq<Download>, name: string, i: nat)
    requires i < |ds| && DecodedAs(ds[i], name)
    ensures LastDecoded(ds, name).Some?
  {
    if i < |ds| - 1 && !DecodedAs(ds[|ds| - 1], name) {
      var front := ds[..|ds| - 1];
      assert front[i] == ds[i];
      LastDecodedPresent(front, name, i);
    }
  }

  /** The last decoded frame is that of the download that decoded under the name while no
      later one did. */
  lemma {:induction false} LastDecodedIsLast(ds: seq<Download>, name: string, i: nat)
    requires i < |ds| && DecodedAs(ds[i], name)
    requires forall j :: i < j < |ds| ==> !DecodedAs(ds[j], name)
    ensures LastDecoded(ds, name) == ds[i].frame
  {
    if i < |ds| - 1 {
      var front := ds[..|ds| - 1];
      assert front[i] == ds[i];
      forall j | i < j < |front|
        ensures !DecodedAs(front[j], name)
      {
        assert front[j] == ds[j];
      }
      LastDecodedIsLast(front, name, i);
    }
  }

  /** The CSV dict keeps unique keys. */
  lemma {:induction false} CsvKeysUnique(ctx: Context, ds: seq<Download>)
    requires UniqueKeys(ctx.csvData)
    ensures UniqueKeys(ApplyAll(ctx, ds).csvData)
  {
    if |ds| > 0 {
      CsvKeysUnique(ctx, ds[..|ds| - 1]);
      var d := ds[|ds| - 1];
      if DecodedAs(d, FileName(d.path)) {
        PutUnique(ApplyAll(ctx, ds[..|ds| - 1]).csvData, FileName(d.path), d.frame.value);
      }
    }
  }

  /** After the downloads, each name maps to the frame of the last download that decoded
      under it, or to what it mapped to before; the names are those there were plus the
      names of the downloads that decoded. */
  lemma {:induction false} CsvLastWins(ctx: Context, ds: seq<Download>, name: string)
    ensures FrameOf(ApplyAll(ctx, ds).csvData, name) ==
            if LastDecoded(ds, name).Some? then LastDecoded(ds, name) else FrameOf(ctx.csvData, name)
    ensures name in Keys(ApplyAll(ctx, ds).csvData) <==>
            name in Keys(ctx.csvData) || LastDecoded(ds, name).Some?
  {
    if |ds| > 0 {
      CsvLastWins(ctx, ds[..|ds| - 1], name);
      var d := ds[|ds| - 1];
      if DecodedAs(d, FileName(d.path)) {
        PutLookup(ApplyAll(ctx, ds[..|ds| - 1]).csvData, FileName(d.path), d.frame.value, name);
      }
    }
  }
}
