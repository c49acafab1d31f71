/** String operations the rule closures rely on: the whitespace set of JavaScript's
    `trim()` and `\s`, `trim()` itself, ASCII lower-casing, `includes`, `join`,
    `replace(/\s+/g, ".")`, and the class-token test behind `.close` and `.modal`. */
module Strings {

  /** ECMAScript WhiteSpace and LineTerminator code points: what `trim()` strips
      and what the regular-expression class `\s` matches. */
  predicate IsWhitespace(c: char) {
    || c == '\t' || c == '\n' || c == '\U{000B}' || c == '\U{000C}' || c == '\r' || c == ' '
    || c == '\U{00A0}' || c == '\U{1680}' || ('\U{2000}' <= c <= '\U{200A}')
    || c == '\U{2028}' || c == '\U{2029}' || c == '\U{202F}' || c == '\U{205F}'
    || c == '\U{3000}' || c == '\U{FEFF}'
  }

  /** ASCII whitespace, the separators of an HTML class attribute. */
  predicate IsAsciiWhitespace(c: char) {
    c == '\t' || c == '\n' || c == '\U{000C}' || c == '\r' || c == ' '
  }

  /** Every character is whitespace (so `s.trim()` is empty). */
  predicate Blank(s: string) {
    forall i :: 0 <= i < |s| ==> IsWhitespace(s[i])
  }

  /** `s` with its leading whitespace removed. */
  function TrimStart(s: string): (r: string)
    ensures |r| <= |s|
    ensures s != [] && IsWhitespace(s[0]) ==> |r| < |s|
  {
    if s != [] && IsWhitespace(s[0]) then TrimStart(s[1..]) else s
  }

  /** What `TrimStart` removes is a blank prefix, and what it keeps starts with
      a character that is not whitespace. */
  lemma {:induction false} TrimStartSpec(s: string)
    ensures var r := TrimStart(s);
      r == s[|s| - |r|..] && Blank(s[..|s| - |r|]) && (r == [] || !IsWhitespace(r[0]))
  {
    if s != [] && IsWhitespace(s[0]) {
      var r := TrimStart(s[1..]);
      TrimStartSpec(s[1..]);
      assert s[1..][|s| - 1 - |r|..] == s[|s| - |r|..];
      assert s[..|s| - |r|] == [s[0]] + s[1..][..|s| - 1 - |r|];
    }
  }

  /** `s` with its trailing whitespace removed. */
  function TrimEnd(s: string): (r: string)
    ensures |r| <= |s|
  {
    if s != [] && IsWhitespace(s[|s| - 1]) then TrimEnd(s[..|s| - 1]) else s
  }

  /** What `TrimEnd` removes is a blank suffix, and what it keeps ends with a
      character that is not whitespace. */
  lemma {:induction false} TrimEndSpec(s: string)
    ensures var r := TrimEnd(s);
      r == s[..|r|] && Blank(s[|r|..]) && (r == [] || !IsWhitespace(r[|r| - 1]))
  {
    if s != [] && IsWhitespace(s[|s| - 1]) {
      var r := TrimEnd(s[..|s| - 1]);
      TrimEndSpec(s[..|s| - 1]);
      assert s[|r|..] == s[..|s| - 1][|r|..] + [s[|s| - 1]];
    }
  }

  /** JavaScript's `s.trim()`. */
  function Trim(s: string): string {
    TrimEnd(TrimStart(s))
  }

  /** `s.trim()` is the slice of `s` left after stripping whitespace at both ends:
      empty exactly when `s` is blank, and otherwise starting and ending with a
      character that is not whitespace. */
  lemma TrimSpec(s: string)
    ensures var r := Trim(s);
      && (r == [] <==> Blank(s))
      && (r != [] ==> !IsWhitespace(r[0]) && !IsWhitespace(r[|r| - 1]))
      && exists i :: SliceAt(s, r, i) && Blank(s[..i]) && Blank(s[i + |r|..])
  {
    var t := TrimStart(s);
    var r := TrimEnd(t);
    var i := |s| - |t|;
    TrimStartSpec(s);
    TrimEndSpec(t);
    assert s[i..] == t && t[..|r|] == r;
    assert s[i + |r|..] == t[|r|..];
    assert SliceAt(s, r, i);
    BlankSplit(s, i);
    BlankSplit(t, |r|);
    assert r != [] ==> !Blank(r);
  }

  /** A string is blank exactly when both parts of any split are. */
  lemma BlankSplit(s: string, i: nat)
    requires i <= |s|
    ensures Blank(s) <==> Blank(s[..i]) && Blank(s[i..])
  {
    if Blank(s[..i]) && Blank(s[i..]) {
      forall k | 0 <= k < |s| ensures IsWhitespace(s[k]) {
        if k < i { assert s[k] == s[..i][k]; } else { assert s[k] == s[i..][k - i]; }
      }
    }
  }

  function LowerChar(c: char): char {
    if 'A' <= c <= 'Z' then (c as int + 32) as char else c
  }

  /** `s.toLowerCase()` restricted to ASCII letters. */
  function Lower(s: string): (r: string)
    ensures |r| == |s|
    ensures forall i :: 0 <= i < |s| ==> r[i] == LowerChar(s[i])
  {
    seq(|s|, i requires 0 <= i < |s| => LowerChar(s[i]))
  }

  /** `s.includes(k)`: `k` occurs in `s` as a contiguous slice. */
  predicate Contains(s: string, k: string) {
    exists i :: 0 <= i <= |s| - |k| && SliceAt(s, k, i)
  }

  /** `k` occurs in `s` at offset `i`. */
  predicate SliceAt(s: string, k: string, i: int) {
    0 <= i <= |s| - |k| && s[i..i + |k|] == k
  }

  /** Containment is transitive. */
  lemma ContainsTransitive(a: string, b: string, c: string)
    requires Contains(a, b) && Contains(b, c)
    ensures Contains(a, c)
  {
    var i :| 0 <= i <= |a| - |b| && SliceAt(a, b, i);
    var j :| 0 <= j <= |b| - |c| && SliceAt(b, c, j);
    forall k | 0 <= k < |c| ensures a[i + j + k] == c[k] {
      assert c[k] == b[j + k];
    }
    assert a[i + j..i + j + |c|] == c;
    assert SliceAt(a, c, i + j);
  }

  /** A slice of the argument occurs in it. */
  lemma ContainsSlice(s: string, i: nat, j: nat)
    requires i <= j <= |s|
    ensures Contains(s, s[i..j])
  {
    assert SliceAt(s, s[i..j], i);
  }

  /** Containment survives lower-casing both sides. */
  lemma LowerContains(s: string, k: string)
    requires Contains(s, k)
    ensures Contains(Lower(s), Lower(k))
  {
    var i :| 0 <= i <= |s| - |k| && SliceAt(s, k, i);
    assert Lower(s)[i..i + |k|] == Lower(k);
    assert SliceAt(Lower(s), Lower(k), i);
  }

  /** `parts.join(sep)`. */
  function Join(parts: seq<string>, sep: string): string {
    if |parts| == 0 then ""
    else if |parts| == 1 then parts[0]
    else Join(parts[..|parts| - 1], sep) + sep + parts[|parts| - 1]
  }

  /** `s.replace(/\s+/g, ".")`: every maximal run of whitespace becomes one dot. */
  function DotRuns(s: string): string
    decreases |s|
  {
    if s == [] then ""
    else if IsWhitespace(s[0]) then "." + DotRuns(TrimStart(s))
    else [s[0]] + DotRuns(s[1..])
  }

  /** The rewritten class name holds no whitespace and is never longer. */
  lemma {:induction false} DotRunsClean(s: string)
    ensures forall i :: 0 <= i < |DotRuns(s)| ==> !IsWhitespace(DotRuns(s)[i])
    ensures |DotRuns(s)| <= |s|
    decreases |s|
  {
    if s != [] {
      var r := DotRuns(s);
      if IsWhitespace(s[0]) {
        var rest := DotRuns(TrimStart(s));
        DotRunsClean(TrimStart(s));
        assert r == "." + rest;
        assert forall i :: 1 <= i < |r| ==> r[i] == rest[i - 1];
      } else {
        var rest := DotRuns(s[1..]);
        DotRunsClean(s[1..]);
        assert r == [s[0]] + rest;
        assert forall i :: 1 <= i < |r| ==> r[i] == rest[i - 1];
      }
    }
  }

  /** Without whitespace there is nothing to replace. */
  lemma {:induction false} DotRunsNoWhitespace(s: string)
    requires forall i :: 0 <= i < |s| ==> !IsWhitespace(s[i])
    ensures DotRuns(s) == s
  {
    if s != [] {
      DotRunsNoWhitespace(s[1..]);
    }
  }

  /** Leading whitespace followed by text that does not start with whitespace
      trims to that text. */
  lemma {:induction false} TrimStartBlank(w: string, b: string)
    requires Blank(w)
    requires b == [] || !IsWhitespace(b[0])
    ensures TrimStart(w + b) == b
  {
    if w != [] {
      assert (w + b)[1..] == w[1..] + b;
      TrimStartBlank(w[1..], b);
    }
  }

  /** Trimming the front of a string that ends with a non-whitespace character
      never reaches what follows it. */
  lemma {:induction false} TrimStartConcat(a: string, t: string)
    requires a != [] && !IsWhitespace(a[|a| - 1])
    ensures TrimStart(a + t) == TrimStart(a) + t
  {
    if IsWhitespace(a[0]) {
      assert (a + t)[1..] == a[1..] + t;
      TrimStartConcat(a[1..], t);
    }
  }

  /** A whitespace run between text that does not end with whitespace and text
      that does not start with it becomes exactly one dot, and the text on either
      side is rewritten on its own. With `DotRunsNoWhitespace` this fixes the
      result for every input: each maximal run of whitespace becomes one ".",
      and every other character stays, in order. */
  lemma DotRunsSplit(a: string, w: string, b: string)
    requires w != [] && Blank(w)
    requires a == [] || !IsWhitespace(a[|a| - 1])
    requires b == [] || !IsWhitespace(b[0])
    ensures DotRuns(a + w + b) == DotRuns(a) + "." + DotRuns(b)
  {
    DotRunsSplitRight(a, w, b);
    ConcatAssoc(a, w, b);
    ConcatAssoc(DotRuns(a), ".", DotRuns(b));
  }

  /** Concatenation is associative. */
  lemma ConcatAssoc<T>(x: seq<T>, y: seq<T>, z: seq<T>)
    ensures x + y + z == x + (y + z)
  {
  }

  /** `DotRunsSplit` with the concatenations grouped to the right, by induction on `a`. */
  lemma {:induction false} DotRunsSplitRight(a: string, w: string, b: string)
    requires w != [] && Blank(w)
    requires a == [] || !IsWhitespace(a[|a| - 1])
    requires b == [] || !IsWhitespace(b[0])
    ensures DotRuns(a + (w + b)) == DotRuns(a) + ("." + DotRuns(b))
    decreases |a|
  {
    if a == [] {
      TrimStartBlank(w, b);
      assert a + (w + b) == w + b && (w + b)[0] == w[0];
      DotRunsUnfoldRun(w + b);
    } else if IsWhitespace(a[0]) {
      var rest := TrimStart(a);
      TrimStartKeepsLast(a);
      DotRunsSplitRight(rest, w, b);
      TrimStartConcat(a, w + b);
      DotRunsRunStep(a, w + b, rest, "." + DotRuns(b));
    } else {
      DotRunsSplitRight(a[1..], w, b);
      DotRunsCharStep(a, w + b, "." + DotRuns(b));
    }
  }

  /** Trimming the front of a string that ends with a non-whitespace character
      keeps that character. */
  lemma TrimStartKeepsLast(a: string)
    requires a != [] && !IsWhitespace(a[|a| - 1])
    ensures TrimStart(a) != [] && TrimStart(a)[|TrimStart(a)| - 1] == a[|a| - 1]
  {
    TrimStartSpec(a);
    assert a[..|a|] == a;
    assert !Blank(a);
  }

  /** One step of `DotRuns` over a leading whitespace run. */
  lemma DotRunsUnfoldRun(s: string)
    requires s != [] && IsWhitespace(s[0])
    ensures DotRuns(s) == "." + DotRuns(TrimStart(s))
  {
  }

  /** One step of `DotRuns` over a leading character that is not whitespace. */
  lemma DotRunsUnfoldChar(s: string)
    requires s != [] && !IsWhitespace(s[0])
    ensures DotRuns(s) == [s[0]] + DotRuns(s[1..])
  {
  }

  /** The induction step over a leading run of `a`: the run becomes the leading dot
      on both sides. */
  lemma DotRunsRunStep(a: string, t: string, rest: string, tail: string)
    requires a != [] && IsWhitespace(a[0]) && rest == TrimStart(a)
    requires TrimStart(a + t) == rest + t
    requires DotRuns(rest + t) == DotRuns(rest) + tail
    ensures DotRuns(a + t) == DotRuns(a) + tail
  {
    assert (a + t)[0] == a[0];
    DotRunsUnfoldRun(a + t);
    DotRunsUnfoldRun(a);
    ConcatAssoc(".", DotRuns(rest), tail);
  }

  /** The induction step over a leading character of `a` that is not whitespace:
      the character is kept on both sides. */
  lemma DotRunsCharStep(a: string, t: string, tail: string)
    requires a != [] && !IsWhitespace(a[0])
    requires DotRuns(a[1..] + t) == DotRuns(a[1..]) + tail
    ensures DotRuns(a + t) == DotRuns(a) + tail
  {
    assert (a + t)[0] == a[0] && (a + t)[1..] == a[1..] + t;
    DotRunsUnfoldChar(a + t);
    DotRunsUnfoldChar(a);
    ConcatAssoc([a[0]], DotRuns(a[1..]), tail);
  }

  /** `t` is one of the whitespace-separated tokens of the class attribute `s`
      (the `.t` selector and `classList.contains(t)`). */
  predicate HasToken(s: string, t: string) {
    exists i :: 0 <= i <= |s| - |t| && SliceAt(s, t, i)
      && (i == 0 || IsAsciiWhitespace(s[i - 1]))
      && (i + |t| == |s| || IsAsciiWhitespace(s[i + |t|]))
  }

  /** A class token is in particular a substring of the attribute, so `.modal`
      selects nothing that `[class*="modal"]` does not. */
  lemma TokenIsSubstring(s: string, t: string)
    requires HasToken(s, t)
    ensures Contains(s, t)
  {
  }
}
