/** Python's string operations that the quiz solver relies on, over `seq<char>`
    (Dafny's `char` is a Unicode scalar value, like one element of a Python `str`). */
module Strings {

  /** `s.startswith(p)` */
  predicate IsPrefix(p: string, s: string) {
    |p| <= |s| && s[..|p|] == p
  }

  /** `s.endswith(p)` */
  predicate IsSuffix(p: string, s: string) {
    |p| <= |s| && s[|s| - |p|..] == p
  }

  /** `t` occurs in `s` starting at index `i`. */
  predicate OccursAt(s: string, t: string, i: nat) {
    i + |t| <= |s| && s[i..i + |t|] == t
  }

  /** `t in s` */
  predicate Contains(s: string, t: string) {
    exists i: nat | i <= |s| :: OccursAt(s, t, i)
  }

  /** `s[:n]` for a non-negative `n`. */
  function Take(s: string, n: nat): (r: string)
    ensures |r| == if |s| <= n then |s| else n
    ensures IsPrefix(r, s)
  {
    if |s| <= n then s else s[..n]
  }

  /** `xs[:n]` for a list and a non-negative `n`. */
  function Head<T>(xs: seq<T>, n: nat): (r: seq<T>)
    ensures |r| == if |xs| <= n then |xs| else n
    ensures r == xs[..|r|]
  {
    if |xs| <= n then xs else xs[..n]
  }

  /** `s[i:j]` for indices inside the string: empty when `j <= i`. */
  function Slice(s: string, i: nat, j: nat): (r: string)
    requires i <= |s| && j <= |s|
    ensures |r| == if j <= i then 0 else j - i
    ensures j > i ==> r == s[i..j]
  {
    if j <= i then "" else s[i..j]
  }

  /** Python's `str.isspace()` for one character: the characters `str.strip()` removes. */
  predicate IsSpace(c: char) {
    c == ' ' || ('\t' <= c <= '\r') || ('\U{1C}' <= c <= '\U{1F}') || c == '\U{85}' || c == '\U{A0}'
    || c == '\U{1680}' || ('\U{2000}' <= c <= '\U{200A}') || c == '\U{2028}' || c == '\U{2029}'
    || c == '\U{202F}' || c == '\U{205F}' || c == '\U{3000}'
  }

  predicate AllSpace(s: string) {
    forall i :: 0 <= i < |s| ==> IsSpace(s[i])
  }

  /** Number of whitespace characters at the start of `s`. */
  function LeftEdge(s: string): (i: nat)
    ensures i <= |s| && AllSpace(s[..i]) && (i == |s| || !IsSpace(s[i]))
  {
    if |s| > 0 && IsSpace(s[0]) then
      var j := LeftEdge(s[1..]);
      assert s[..j + 1] == [s[0]] + s[1..][..j];
      j + 1
    else 0
  }

  /** Index just past the last non-whitespace character of `s`. */
  function RightEdge(s: string): (j: nat)
    ensures j <= |s| && AllSpace(s[j..]) && (j == 0 || !IsSpace(s[j - 1]))
  {
    if |s| > 0 && IsSpace(s[|s| - 1]) then
      var j := RightEdge(s[..|s| - 1]);
      assert forall k :: j <= k < |s| - 1 ==> s[k] == s[..|s| - 1][k];
      j
    else |s|
  }

  /** `s.strip()` */
  function Strip(s: string): (r: string)
  {
    var i := LeftEdge(s);
    s[i..][..RightEdge(s[i..])]
  }

  /** What `strip()` returns is `s` with whitespace cut from both ends, and nothing more. */
  lemma StripShape(s: string)
    ensures var r := Strip(s);
      exists i: nat, j: nat :: i <= j <= |s| && r == s[i..j] && AllSpace(s[..i]) && AllSpace(s[j..])
    ensures var r := Strip(s); r == [] || (!IsSpace(r[0]) && !IsSpace(r[|r| - 1]))
  {
    var i := LeftEdge(s);
    var j := i + RightEdge(s[i..]);
    assert Strip(s) == s[i..j];
    assert s[j..] == s[i..][j - i..];
  }

  /** Python's `not v.strip()`: empty or whitespace only. */
  lemma StripEmptyIffBlank(s: string)
    ensures Strip(s) == [] <==> AllSpace(s)
  {
    var i := LeftEdge(s);
    if Strip(s) == [] {
      assert RightEdge(s[i..]) == 0;
      forall k | 0 <= k < |s| ensures IsSpace(s[k]) {
        if k < i { assert s[..i][k] == s[k]; }
      }
    }
  }

  /** ASCII lower-casing of one character. */
  function LowerChar(c: char): char {
    if 'A' <= c <= 'Z' then (c as int + 32) as char else c
  }

  /** `s.lower()` on ASCII letters; every other character is kept. */
  function Lower(s: string): (r: string)
    ensures |r| == |s| && forall i :: 0 <= i < |s| ==> r[i] == LowerChar(s[i])
  {
    seq(|s|, i requires 0 <= i < |s| => LowerChar(s[i]))
  }

  /** `s.find(c)` for one character: the first index of `c`, or -1. */
  function IndexOf(s: string, c: char): (r: int)
    ensures -1 <= r < |s|
    ensures r >= 0 ==> s[r] == c && forall k :: 0 <= k < r ==> s[k] != c
    ensures r == -1 ==> forall k :: 0 <= k < |s| ==> s[k] != c
  {
    if |s| == 0 then -1
    else if s[0] == c then 0
    else
      var r := IndexOf(s[1..], c);
      if r == -1 then -1 else r + 1
  }

  /** `s.rfind(c)` for one character: the last index of `c`, or -1 (see LastIndexOfShape). */
  function LastIndexOf(s: string, c: char): (r: int)
    ensures -1 <= r < |s|
  {
    LastIndexBefore(s, c, |s|)
  }

  /** The last index of `c` below `n`, or -1. */
  function LastIndexBefore(s: string, c: char, n: nat): (r: int)
    requires n <= |s|
    ensures -1 <= r < n
  {
    if n == 0 then -1
    else if s[n - 1] == c then n - 1
    else LastIndexBefore(s, c, n - 1)
  }

  lemma {:induction false} LastIndexBeforeShape(s: string, c: char, n: nat)
    requires n <= |s|
    ensures var r := LastIndexBefore(s, c, n);
      (r >= 0 ==> s[r] == c && forall k :: r < k < n ==> s[k] != c) &&
      (r == -1 ==> forall k :: 0 <= k < n ==> s[k] != c)
  {
    if n > 0 && s[n - 1] != c {
      LastIndexBeforeShape(s, c, n - 1);
    }
  }

  /** The index found holds `c` and nothing after it does; -1 means `c` does not occur. */
  lemma LastIndexOfShape(s: string, c: char)
    ensures var r := LastIndexOf(s, c);
      (r >= 0 ==> s[r] == c && forall k :: r < k < |s| ==> s[k] != c) &&
      (r == -1 ==> forall k :: 0 <= k < |s| ==> s[k] != c)
  {
    LastIndexBeforeShape(s, c, |s|);
  }

  /** `c` has a first index exactly when it has a last one. */
  lemma IndexOfLastIndexOf(s: string, c: char)
    ensures IndexOf(s, c) >= 0 <==> LastIndexOf(s, c) >= 0
  {
    LastIndexOfShape(s, c);
  }

  lemma ContainsChar(s: string, c: char)
    ensures Contains(s, [c]) <==> IndexOf(s, c) >= 0
  {
    var r := IndexOf(s, c);
    if r >= 0 {
      assert OccursAt(s, [c], r);
    }
    if Contains(s, [c]) {
      var i: nat :| i <= |s| && OccursAt(s, [c], i);
      assert s[i] == s[i..i + 1][0];
    }
  }

  /** `sep.join(parts)` */
  function Join(sep: string, parts: seq<string>): (r: string)
  {
    if |parts| == 0 then ""
    else if |parts| == 1 then parts[0]
    else parts[0] + sep + Join(sep, parts[1..])
  }

  lemma {:induction false} JoinAppend(sep: string, parts: seq<string>, last: string)
    requires |parts| > 0
    ensures Join(sep, parts + [last]) == Join(sep, parts) + sep + last
  {
    if |parts| == 1 {
      assert parts + [last] == [parts[0], last];
    } else {
      assert (parts + [last])[1..] == parts[1..] + [last];
      JoinAppend(sep, parts[1..], last);
    }
  }

  /** Decimal digits of a natural number, as `str(n)` writes them. */
  function NatToString(n: nat): (r: string)
    ensures |r| > 0
    decreases n
  {
    if n < 10 then [DigitChar(n)] else NatToString(n / 10) + [DigitChar(n % 10)]
  }

  function DigitChar(d: nat): char
    requires d < 10
  {
    ('0' as int + d) as char
  }

  /** `s.replace(p, r)`: every non-overlapping occurrence of `p`, scanned from the left,
      becomes `r`. */
  function ReplaceAll(s: string, p: string, r: string): string
    requires |p| > 0
    decreases |s|
  {
    if |s| < |p| then s
    else if IsPrefix(p, s) then r + ReplaceAll(s[|p|..], p, r)
    else [s[0]] + ReplaceAll(s[1..], p, r)
  }

  lemma OccursInTail(s: string, t: string, i: nat, k: nat)
    requires k <= |s|
    ensures OccursAt(s[k..], t, i) ==> OccursAt(s, t, i + k)
  {
    if i + |t| <= |s| - k {
      assert s[k..][i..i + |t|] == s[i + k..i + k + |t|];
    }
  }

  /** Replacing a pattern that does not occur changes nothing. */
  lemma {:induction false} ReplaceAbsent(s: string, p: string, r: string)
    requires |p| > 0 && !Contains(s, p)
    ensures ReplaceAll(s, p, r) == s
    decreases |s|
  {
    if |s| >= |p| {
      assert !OccursAt(s, p, 0);
      assert s[0..|p|] == s[..|p|];
      forall i: nat | i <= |s[1..]| ensures !OccursAt(s[1..], p, i) {
        OccursInTail(s, p, i, 1);
      }
      ReplaceAbsent(s[1..], p, r);
    }
  }

  /** If the pattern occurs, the replacement appears in the result. */
  lemma {:induction false} ReplaceIntroduces(s: string, p: string, r: string)
    requires |p| > 0 && Contains(s, p)
    ensures Contains(ReplaceAll(s, p, r), r)
    decreases |s|
  {
    var i: nat :| i <= |s| && OccursAt(s, p, i);
    if IsPrefix(p, s) {
      assert OccursAt(r + ReplaceAll(s[|p|..], p, r), r, 0);
    } else {
      assert i > 0;
      assert OccursAt(s[1..], p, i - 1) by { assert s[1..][i - 1..i - 1 + |p|] == s[i..i + |p|]; }
      ReplaceIntroduces(s[1..], p, r);
      var rest := ReplaceAll(s[1..], p, r);
      var j: nat :| j <= |rest| && OccursAt(rest, r, j);
      assert ([s[0]] + rest)[j + 1..j + 1 + |r|] == rest[j..j + |r|];
      assert OccursAt([s[0]] + rest, r, j + 1);
    }
  }

  /** A result beginning with characters that are not the replacement's first character
      came from an input beginning with the same characters. */
  lemma {:induction false} ReplaceKeepsPrefix(t: string, q: string, p: string, r: string)
    requires |p| > 0 && |r| > 0
    requires forall k :: 0 <= k < |q| ==> q[k] != r[0]
    ensures IsPrefix(q, ReplaceAll(t, p, r)) ==> IsPrefix(q, t)
    decreases |t|
  {
    var out := ReplaceAll(t, p, r);
    if q == [] || |t| < |p| {
    } else if IsPrefix(p, t) {
      assert out[0] == r[0];
    } else {
      var rest := ReplaceAll(t[1..], p, r);
      assert out == [t[0]] + rest;
      ReplaceKeepsPrefix(t[1..], q[1..], p, r);
      if IsPrefix(q, out) {
        assert out[1..|q|] == rest[..|q| - 1];
        assert t[..|q|] == [t[0]] + t[1..][..|q| - 1];
      }
    }
  }

  /** "/submit" holds no "/demo", and no non-empty end of it starts "/demo". */
  lemma SubmitSegmentFacts()
    ensures !Contains("/submit", "/demo")
    ensures forall k :: 0 < k < 5 ==> "/submit"[7 - k..] != "/demo"[..k]
  {
    forall i: nat | i <= 7 ensures !OccursAt("/submit", "/demo", i) {
      if i + 5 <= 7 {
        assert i == 0 || "/submit"[i] != '/';
        assert "/submit"[1] != "/demo"[1];
      }
    }
    forall k | 0 < k < 5 ensures "/submit"[7 - k..] != "/demo"[..k] {
      assert "/submit"[7 - k] != '/';
    }
  }

  /** Putting "/submit" in front of a string without "/demo" makes none. */
  lemma {:induction false} SubmitThenClean(rest: string)
    requires !Contains(rest, "/demo")
    ensures !Contains("/submit" + rest, "/demo")
  {
    var p, r := "/demo", "/submit";
    var out := r + rest;
    SubmitSegmentFacts();
    forall i: nat | i <= |out| ensures !OccursAt(out, p, i) {
      if i + |p| <= |r| {
        assert !OccursAt(r, p, i);
        assert out[i..i + |p|] == r[i..i + |p|];
      } else if i < |r| {
        var k := |r| - i;
        assert out[i..|r|] == r[|r| - k..];
        assert r[|r| - k..] != p[..k];
      } else if i + |p| <= |out| {
        assert !OccursAt(rest, p, i - |r|);
        assert rest[i - |r|..i - |r| + |p|] == out[i..i + |p|];
      }
    }
  }

  /** A first character that does not start "/demo" there keeps the rewrite clean. */
  lemma {:induction false} KeptCharClean(s: string)
    requires |s| >= 5 && !IsPrefix("/demo", s)
    requires !Contains(ReplaceAll(s[1..], "/demo", "/submit"), "/demo")
    ensures !Contains(ReplaceAll(s, "/demo", "/submit"), "/demo")
  {
    var p, r := "/demo", "/submit";
    var out := ReplaceAll(s, p, r);
    var rest := ReplaceAll(s[1..], p, r);
    assert out == [s[0]] + rest;
    forall i: nat | i <= |out| ensures !OccursAt(out, p, i) {
      if i > 0 {
        if i + |p| <= |out| {
          assert !OccursAt(rest, p, i - 1);
          assert rest[i - 1..i - 1 + |p|] == out[i..i + |p|];
        }
      } else {
        ReplaceKeepsPrefix(s[1..], p[1..], p, r);
        assert s[..|p|] == [s[0]] + s[1..][..|p| - 1];
        if |p| <= |out| {
          assert out[..|p|] == [s[0]] + rest[..|p| - 1];
        }
      }
    }
  }

  /** After the "/demo" rewrite the address holds no "/demo" at all. */
  lemma {:induction false} DemoRewriteComplete(s: string)
    ensures !Contains(ReplaceAll(s, "/demo", "/submit"), "/demo")
    decreases |s|
  {
    var p, r := "/demo", "/submit";
    var out := ReplaceAll(s, p, r);
    if |s| < |p| {
      forall i: nat | i <= |out| ensures !OccursAt(out, p, i) { }
    } else if IsPrefix(p, s) {
      DemoRewriteComplete(s[|p|..]);
      assert out == r + ReplaceAll(s[|p|..], p, r);
      SubmitThenClean(ReplaceAll(s[|p|..], p, r));
    } else {
      DemoRewriteComplete(s[1..]);
      KeptCharClean(s);
    }
  }

  /** The "/quiz/" rewrite is a single left-to-right pass: it can leave "/quiz/" behind. */
  lemma QuizRewriteCanLeaveSegment()
    ensures ReplaceAll("/quiz/quiz/", "/quiz/", "/submit/") == "/submit/quiz/"
    ensures Contains(ReplaceAll("/quiz/quiz/", "/quiz/", "/submit/"), "/quiz/")
  {
    var s := "/quiz/quiz/";
    assert IsPrefix("/quiz/", s);
    assert s[6..] == "quiz/";
    assert ReplaceAll("quiz/", "/quiz/", "/submit/") == "quiz/";
    assert OccursAt("/submit/quiz/", "/quiz/", 7);
  }
  /** `strip()` leaves a string alone when neither end is whitespace. */
  lemma StripKeeps(s: string)
    requires s == [] || (!IsSpace(s[0]) && !IsSpace(s[|s| - 1]))
    ensures Strip(s) == s
  {
    assert LeftEdge(s) == 0;
    assert s[0..] == s;
  }

  /** Stripping twice is stripping once. */
  lemma StripIdempotent(s: string)
    ensures Strip(Strip(s)) == Strip(s)
  {
    StripShape(s);
    StripKeeps(Strip(s));
  }
}
