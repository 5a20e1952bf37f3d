/**
 * The parts of Python's `str` and of `textwrap.dedent` that the fact checker
 * relies on: whitespace trimming, lower-casing, `sep.join`, `split("\n")`,
 * decimal formatting of a counter and the removal of a common indent.
 */
module Text {
  import opened Wrappers

  const WhitespaceChars: set<char> := {
    ' ', '\t', '\n', '\U{0b}', '\U{0c}', '\r', '\U{1c}', '\U{1d}', '\U{1e}', '\U{1f}', '\U{85}', '\U{a0}',
    '\U{1680}', '\U{2000}', '\U{2001}', '\U{2002}', '\U{2003}', '\U{2004}', '\U{2005}', '\U{2006}',
    '\U{2007}', '\U{2008}', '\U{2009}', '\U{200a}', '\U{2028}', '\U{2029}', '\U{202f}', '\U{205f}', '\U{3000}'
  }

  /** Python's whitespace: `str.isspace`, what `str.strip()` removes and what `\s` matches in a `str` regex. */
  predicate IsSpace(c: char) {
    c in WhitespaceChars
  }

  /**
   * The first index at or after `i` and before `e` that holds no whitespace,
   * `e` when there is none: where a left strip of `s[i..e]` begins.
   */
  function SkipSpace(s: string, i: nat, e: nat): (j: nat)
    requires i <= e <= |s|
    ensures i <= j <= e
    ensures j < e ==> !IsSpace(s[j])
    decreases e - i
  {
    if i < e && IsSpace(s[i]) then SkipSpace(s, i + 1, e) else i
  }

  /** What a left strip skips is whitespace. */
  lemma {:induction false} SkipSpaceDrops(s: string, i: nat, e: nat)
    requires i <= e <= |s|
    ensures forall k :: i <= k < SkipSpace(s, i, e) ==> IsSpace(s[k])
    decreases e - i
  {
    if i < e && IsSpace(s[i]) {
      SkipSpaceDrops(s, i + 1, e);
    }
  }

  /** A left strip stops at the first character that is not whitespace. */
  lemma {:induction false} SkipSpaceStops(s: string, i: nat, e: nat, k: nat)
    requires i <= k <= e <= |s|
    requires forall m :: i <= m < k ==> IsSpace(s[m])
    requires k < e ==> !IsSpace(s[k])
    ensures SkipSpace(s, i, e) == k
    decreases k - i
  {
    if i < k {
      SkipSpaceStops(s, i + 1, e, k);
    }
  }

  /**
   * The end of `s[..j]` once its trailing whitespace is dropped: where a
   * right strip of `s[..j]` ends.
   */
  function SkipSpaceBack(s: string, j: nat): (i: nat)
    requires j <= |s|
    ensures i <= j
    ensures i > 0 ==> !IsSpace(s[i - 1])
  {
    if j > 0 && IsSpace(s[j - 1]) then SkipSpaceBack(s, j - 1) else j
  }

  /** What a right strip drops is whitespace. */
  lemma {:induction false} SkipSpaceBackDrops(s: string, j: nat)
    requires j <= |s|
    ensures forall k :: SkipSpaceBack(s, j) <= k < j ==> IsSpace(s[k])
  {
    if j > 0 && IsSpace(s[j - 1]) {
      SkipSpaceBackDrops(s, j - 1);
    }
  }

  /** A right strip stops after the last character that is not whitespace. */
  lemma {:induction false} SkipSpaceBackStops(s: string, j: nat, k: nat)
    requires k <= j <= |s|
    requires forall m :: k <= m < j ==> IsSpace(s[m])
    requires k > 0 ==> !IsSpace(s[k - 1])
    ensures SkipSpaceBack(s, j) == k
    decreases j - k
  {
    if k < j {
      SkipSpaceBackStops(s, j - 1, k);
    }
  }

  /** `s` neither starts nor ends with whitespace. */
  predicate Trimmed(s: string) {
    s != [] ==> !IsSpace(s[0]) && !IsSpace(s[|s| - 1])
  }

  /** `s.strip()`: `s` without its leading and trailing whitespace. */
  function Strip(s: string): (r: string)
    ensures |r| <= |s|
    ensures Trimmed(r)
  {
    var e := SkipSpaceBack(s, |s|);
    s[SkipSpace(s, 0, e)..e]
  }

  /** A string without surrounding whitespace is its own strip. */
  lemma StripFixed(s: string)
    requires Trimmed(s)
    ensures Strip(s) == s
  {
    SkipSpaceBackStops(s, |s|, |s|);
    SkipSpaceStops(s, 0, |s|, 0);
  }

  /** Stripping twice is stripping once. */
  lemma StripIdempotent(s: string)
    ensures Strip(Strip(s)) == Strip(s)
  {
    StripFixed(Strip(s));
  }

  /** `s.strip()` is empty exactly when `s` is all whitespace. */
  lemma StripEmptyIff(s: string)
    ensures Strip(s) == [] <==> forall i :: 0 <= i < |s| ==> IsSpace(s[i])
  {
    var e := SkipSpaceBack(s, |s|);
    SkipSpaceBackDrops(s, |s|);
    SkipSpaceDrops(s, 0, e);
    if Strip(s) != [] {
      var b := SkipSpace(s, 0, e);
      assert b < e && !IsSpace(s[b]);
    }
  }

  /** Whitespace, then a text without surrounding whitespace, then whitespace: the strip is that text. */
  lemma StripSurrounded(front: string, core: string, back: string)
    requires forall i :: 0 <= i < |front| ==> IsSpace(front[i])
    requires forall i :: 0 <= i < |back| ==> IsSpace(back[i])
    requires core != [] && Trimmed(core)
    ensures Strip(front + core + back) == core
  {
    var s := front + core + back;
    var e := |front| + |core|;
    SkipSpaceBackStops(s, |s|, e);
    SkipSpaceStops(s, 0, e, |front|);
    assert s[|front|..e] == core;
  }

  /** Whitespace, then a core that starts and ends with a visible character, then anything: the strip starts with that core. */
  lemma StripKeepsFront(front: string, core: string, back: string)
    requires forall i :: 0 <= i < |front| ==> IsSpace(front[i])
    requires core != [] && !IsSpace(core[0]) && !IsSpace(core[|core| - 1])
    ensures StartsWith(Strip(front + core + back), core)
  {
    var s := front + core + back;
    var last := |front| + |core| - 1;
    assert s[last] == core[|core| - 1];
    var e := SkipSpaceBack(s, |s|);
    SkipSpaceBackDrops(s, |s|);
    assert e > last;
    SkipSpaceStops(s, 0, e, |front|);
    assert s[|front|..|front| + |core|] == core;
    assert s[|front|..e][..|core|] == s[|front|..|front| + |core|];
  }

  /** ASCII lower-casing of one character. */
  function LowerChar(c: char): char {
    if 'A' <= c <= 'Z' then (c as int + 32) as char else c
  }

  /** `s.lower()`, restricted to ASCII letters. */
  function Lower(s: string): (r: string)
    ensures |r| == |s|
    ensures forall i :: 0 <= i < |r| ==> !('A' <= r[i] <= 'Z')
    ensures forall i :: 0 <= i < |s| && !('A' <= s[i] <= 'Z') ==> r[i] == s[i]
    ensures forall i :: 0 <= i < |s| && 'A' <= s[i] <= 'Z' ==> r[i] as int == s[i] as int + 32
  {
    seq(|s|, i requires 0 <= i < |s| => LowerChar(s[i]))
  }

  /** Lower-casing twice is lower-casing once. */
  lemma LowerIdempotent(s: string)
    ensures Lower(Lower(s)) == Lower(s)
  {
    var once := Lower(s);
    assert forall i :: 0 <= i < |once| ==> Lower(once)[i] == once[i];
  }

  predicate StartsWith(s: string, prefix: string) {
    |prefix| <= |s| && s[..|prefix|] == prefix
  }

  predicate EndsWith(s: string, suffix: string) {
    |suffix| <= |s| && s[|s| - |suffix|..] == suffix
  }

  /** The first `n` elements, Python's `xs[:n]` for a non-negative `n`. */
  function Take<T>(xs: seq<T>, n: nat): (r: seq<T>)
    ensures |r| <= n && |r| <= |xs|
    ensures |r| == n || |r| == |xs|
    ensures r == xs[..|r|]
  {
    if |xs| <= n then xs else xs[..n]
  }

  /** `sep.join(xs)`. */
  function Join(sep: string, xs: seq<string>): string {
    if |xs| == 0 then ""
    else if |xs| == 1 then xs[0]
    else xs[0] + sep + Join(sep, xs[1..])
  }

  /** Joining one more element appends a separator and that element. */
  lemma {:induction false} JoinAppend(sep: string, xs: seq<string>, x: string)
    requires xs != []
    ensures Join(sep, xs + [x]) == Join(sep, xs) + sep + x
    decreases |xs|
  {
    if |xs| > 1 {
      assert (xs + [x])[1..] == xs[1..] + [x];
      JoinAppend(sep, xs[1..], x);
    }
  }

  /** Unfolding a join one element further along. */
  lemma JoinFrom(sep: string, xs: seq<string>, i: nat)
    requires i + 1 < |xs|
    ensures Join(sep, xs[i..]) == xs[i] + sep + Join(sep, xs[i + 1..])
  {
    assert xs[i..][1..] == xs[i + 1..];
  }

  /** Joining two non-empty lists puts one separator between their joins. */
  lemma {:induction false} JoinConcat(sep: string, a: seq<string>, b: seq<string>)
    requires a != [] && b != []
    ensures Join(sep, a + b) == Join(sep, a) + sep + Join(sep, b)
    decreases |a|
  {
    assert (a + b)[0] == a[0];
    if |a| == 1 {
      assert (a + b)[1..] == b;
    } else {
      assert (a + b)[1..] == a[1..] + b;
      JoinConcat(sep, a[1..], b);
    }
  }

  /** A join starts with its first element. */
  lemma JoinStartsWith(sep: string, xs: seq<string>)
    requires xs != []
    ensures StartsWith(Join(sep, xs), xs[0])
  {
    if |xs| > 1 {
      assert Join(sep, xs)[..|xs[0]|] == xs[0];
    }
  }

  /** A prefix of a prefix is a prefix. */
  lemma StartsWithTrans(a: string, b: string, c: string)
    requires StartsWith(a, b) && StartsWith(b, c)
    ensures StartsWith(a, c)
  {
    assert a[..|c|] == b[..|c|];
  }

  /** `s.split("\n")`: the segments between line feeds, always at least one. */
  function SplitLines(s: string): (r: seq<string>)
    ensures |r| >= 1
    ensures forall i :: 0 <= i < |r| ==> '\n' !in r[i]
  {
    if s == [] then [[]]
    else
      var rest := SplitLines(s[1..]);
      if s[0] == '\n' then [[]] + rest
      else [[s[0]] + rest[0]] + rest[1..]
  }

  /** `"\n".join(s.split("\n")) == s`. */
  lemma {:induction false} JoinSplitLines(s: string)
    ensures Join("\n", SplitLines(s)) == s
  {
    if s != [] {
      var rest := SplitLines(s[1..]);
      JoinSplitLines(s[1..]);
      if s[0] == '\n' {
        assert SplitLines(s) == [[]] + rest;
        assert Join("\n", SplitLines(s)) == "" + "\n" + Join("\n", rest);
      } else if |rest| == 1 {
        assert SplitLines(s) == [[s[0]] + rest[0]];
      } else {
        var ls := SplitLines(s);
        assert ls == [[s[0]] + rest[0]] + rest[1..];
        assert ls[1..] == rest[1..];
        assert Join("\n", rest) == rest[0] + "\n" + Join("\n", rest[1..]);
      }
    }
  }

  /** Splitting at a line feed splits the two sides independently. */
  lemma {:induction false} SplitLinesConcat(a: string, b: string)
    ensures SplitLines(a + "\n" + b) == SplitLines(a) + SplitLines(b)
  {
    if a == [] {
      assert (a + "\n" + b)[1..] == b;
    } else {
      assert (a + "\n" + b)[1..] == a[1..] + "\n" + b;
      SplitLinesConcat(a[1..], b);
    }
  }

  /** A string without line feeds is one segment. */
  lemma {:induction false} SplitLinesSingle(a: string)
    requires '\n' !in a
    ensures SplitLines(a) == [a]
  {
    if a != [] {
      assert a[0] != '\n';
      SplitLinesSingle(a[1..]);
      assert [a[0]] + a[1..] == a;
    }
  }

  /** `"\n".join(lines).split("\n") == lines` for lines without line feeds. */
  lemma {:induction false} SplitJoinLines(lines: seq<string>)
    requires lines != []
    requires forall i :: 0 <= i < |lines| ==> '\n' !in lines[i]
    ensures SplitLines(Join("\n", lines)) == lines
  {
    SplitLinesSingle(lines[0]);
    if |lines| > 1 {
      SplitJoinLines(lines[1..]);
      SplitLinesConcat(lines[0], Join("\n", lines[1..]));
      assert lines == [lines[0]] + lines[1..];
    }
  }

  function DigitChar(d: nat): char
    requires d < 10
  {
    "0123456789"[d]
  }

  /** `str(n)` for a non-negative integer: its decimal digits, with no leading zero. */
  function NatToString(n: nat): (r: string)
    ensures r != []
    ensures forall i :: 0 <= i < |r| ==> '0' <= r[i] <= '9'
    ensures |r| > 1 ==> r[0] != '0'
  {
    if n < 10 then [DigitChar(n)] else NatToString(n / 10) + [DigitChar(n % 10)]
  }

  /** The number a string of decimal digits denotes (`int(s)`). */
  function DecimalValue(s: string): nat
    requires forall i :: 0 <= i < |s| ==> '0' <= s[i] <= '9'
  {
    if s == [] then 0 else 10 * DecimalValue(s[..|s| - 1]) + (s[|s| - 1] as int - '0' as int)
  }

  /** `int(str(n)) == n`. */
  lemma {:induction false} NatToStringRoundTrip(n: nat)
    ensures DecimalValue(NatToString(n)) == n
  {
    if n >= 10 {
      NatToStringRoundTrip(n / 10);
      var r := NatToString(n);
      assert r[..|r| - 1] == NatToString(n / 10);
    }
  }

  // ---- textwrap.dedent ----

  predicate IsIndentChar(c: char) {
    c == ' ' || c == '\t'
  }

  /** A line made only of spaces and tabs (the empty line included). */
  predicate IsBlankLine(line: string) {
    forall i :: 0 <= i < |line| ==> IsIndentChar(line[i])
  }

  /** The leading run of spaces and tabs of a line. */
  function Indent(line: string): (r: string)
    ensures |r| <= |line| && r == line[..|r|]
    ensures IsBlankLine(r)
    ensures |r| < |line| ==> !IsIndentChar(line[|r|])
  {
    if line != [] && IsIndentChar(line[0]) then [line[0]] + Indent(line[1..]) else []
  }

  /** The longest common prefix of two strings. */
  function CommonPrefix(a: string, b: string): (r: string)
    ensures |r| <= |a| && |r| <= |b| && r == a[..|r|] && r == b[..|r|]
    ensures |r| < |a| && |r| < |b| ==> a[|r|] != b[|r|]
  {
    if a == [] || b == [] || a[0] != b[0] then [] else [a[0]] + CommonPrefix(a[1..], b[1..])
  }

  /** A run of spaces and tabs followed by a visible character is the indent of the line. */
  lemma {:induction false} IndentOf(pad: string, x: string)
    requires IsBlankLine(pad)
    requires x != [] && !IsIndentChar(x[0])
    ensures Indent(pad + x) == pad
  {
    if pad != [] {
      assert (pad + x)[1..] == pad[1..] + x;
      IndentOf(pad[1..], x);
      assert [pad[0]] + pad[1..] == pad;
    } else {
      assert pad + x == x;
    }
  }

  /** A line that starts with a run of spaces and tabs has an indent that starts with that run. */
  lemma IndentCovers(line: string, m: string)
    requires IsBlankLine(m) && StartsWith(line, m)
    ensures StartsWith(Indent(line), m)
  {
    var r := Indent(line);
    assert forall k :: 0 <= k < |m| ==> line[k] == m[k];
    assert |r| >= |m|;
    assert r[..|m|] == line[..|m|];
  }

  /** Two strings that share a prefix have a common prefix that extends it. */
  lemma CommonPrefixKeeps(a: string, b: string, m: string)
    requires StartsWith(a, m) && StartsWith(b, m)
    ensures StartsWith(CommonPrefix(a, b), m)
  {
    var r := CommonPrefix(a, b);
    assert forall k :: 0 <= k < |m| ==> a[k] == m[k] == b[k];
    assert |r| >= |m|;
    assert r[..|m|] == a[..|m|];
  }

  /** Blank lines are emptied before anything else (`^[ \t]+$` replaced by nothing). */
  function ClearBlank(line: string): string {
    if IsBlankLine(line) then "" else line
  }

  function ClearBlanks(lines: seq<string>): seq<string> {
    seq(|lines|, i requires 0 <= i < |lines| => ClearBlank(lines[i]))
  }

  /** The common indent of the non-blank lines, `None` when every line is blank. */
  function Margin(lines: seq<string>): (r: Option<string>)
    ensures r.None? <==> forall i :: 0 <= i < |lines| ==> IsBlankLine(lines[i])
    ensures r.Some? ==> forall i :: 0 <= i < |lines| && !IsBlankLine(lines[i]) ==> StartsWith(Indent(lines[i]), r.value)
  {
    if lines == [] then None
    else
      var rest := Margin(lines[1..]);
      assert forall i :: 1 <= i < |lines| ==> lines[i] == lines[1..][i - 1];
      if IsBlankLine(lines[0]) then rest
      else match rest
        case None => Some(Indent(lines[0]))
        case Some(m) => Some(CommonPrefix(Indent(lines[0]), m))
  }

  /**
   * When every non-blank line starts with the run of spaces and tabs `m`,
   * and there is a non-blank line, the margin extends `m`.
   */
  lemma {:induction false} MarginAtLeast(lines: seq<string>, m: string)
    requires IsBlankLine(m)
    requires forall i :: 0 <= i < |lines| && !IsBlankLine(lines[i]) ==> StartsWith(lines[i], m)
    requires exists i :: 0 <= i < |lines| && !IsBlankLine(lines[i])
    ensures Margin(lines).Some? && StartsWith(Margin(lines).value, m)
  {
    var rest := lines[1..];
    assert forall i :: 1 <= i < |lines| ==> lines[i] == rest[i - 1];
    if IsBlankLine(lines[0]) {
      var i :| 0 <= i < |lines| && !IsBlankLine(lines[i]);
      assert !IsBlankLine(rest[i - 1]);
      MarginAtLeast(rest, m);
    } else {
      IndentCovers(lines[0], m);
      if exists i :: 0 <= i < |rest| && !IsBlankLine(rest[i]) {
        MarginAtLeast(rest, m);
        CommonPrefixKeeps(Indent(lines[0]), Margin(rest).value, m);
      }
    }
  }

  /** Two strings that are prefixes of each other are equal. */
  lemma PrefixBothWays(a: string, b: string)
    requires StartsWith(a, b) && StartsWith(b, a)
    ensures a == b
  {
    assert |a| == |b|;
    assert a == a[..|a|];
  }

  /**
   * The margin is exactly `m` when every non-blank line starts with it and
   * the non-blank line `lines[j]` is indented by exactly `m`.
   */
  lemma MarginIs(lines: seq<string>, m: string, j: nat)
    requires IsBlankLine(m)
    requires forall i :: 0 <= i < |lines| && !IsBlankLine(lines[i]) ==> StartsWith(lines[i], m)
    requires j < |lines| && !IsBlankLine(lines[j]) && Indent(lines[j]) == m
    ensures Margin(lines) == Some(m)
  {
    assert exists i :: 0 <= i < |lines| && !IsBlankLine(lines[i]) by {
      assert !IsBlankLine(lines[j]);
    }
    MarginAtLeast(lines, m);
    var v := Margin(lines).value;
    assert StartsWith(Indent(lines[j]), v);
    PrefixBothWays(v, m);
  }

  function RemovePrefix(line: string, prefix: string): string {
    if StartsWith(line, prefix) then line[|prefix|..] else line
  }

  function RemovePrefixes(lines: seq<string>, prefix: string): seq<string> {
    seq(|lines|, i requires 0 <= i < |lines| => RemovePrefix(lines[i], prefix))
  }

  /**
   * Emptying blank lines and then removing a prefix keeps every line a
   * suffix of the line it came from, and keeps the lines free of line feeds.
   */
  lemma DedentedLines(src: seq<string>, prefix: string)
    requires src != []
    requires forall i :: 0 <= i < |src| ==> '\n' !in src[i]
    ensures SplitLines(Join("\n", RemovePrefixes(ClearBlanks(src), prefix))) == RemovePrefixes(ClearBlanks(src), prefix)
    ensures forall i :: 0 <= i < |src| ==> EndsWith(src[i], RemovePrefixes(ClearBlanks(src), prefix)[i])
  {
    var out := RemovePrefixes(ClearBlanks(src), prefix);
    forall i | 0 <= i < |out|
      ensures '\n' !in out[i] && EndsWith(src[i], out[i])
    {
      var c := ClearBlank(src[i]);
      if StartsWith(c, prefix) {
        assert forall k :: 0 <= k < |out[i]| ==> out[i][k] == c[|prefix| + k];
      }
    }
    SplitJoinLines(out);
  }

  /**
   * `textwrap.dedent(text)` (the regular-expression algorithm, as before
   * Python 3.14): blank lines are emptied, then the longest indent common to
   * all non-blank lines is removed from the start of every line that has it.
   */
  function Dedent(text: string): string {
    var lines := ClearBlanks(SplitLines(text));
    Join("\n", RemovePrefixes(lines, Margin(lines).GetOr("")))
  }

  /** The dedented text has as many lines as `text`, each a suffix of the line it came from. */
  lemma DedentKeepsLines(text: string)
    ensures |SplitLines(Dedent(text))| == |SplitLines(text)|
    ensures forall i :: 0 <= i < |SplitLines(text)| ==> EndsWith(SplitLines(text)[i], SplitLines(Dedent(text))[i])
  {
    var lines := ClearBlanks(SplitLines(text));
    DedentedLines(SplitLines(text), Margin(lines).GetOr(""));
  }

  /** A line made of a run of spaces and tabs followed by a text. */
  lemma PaddedLine(pad: string, x: string)
    requires IsBlankLine(pad)
    ensures IsBlankLine(pad + x) <==> IsBlankLine(x)
    ensures StartsWith(pad + x, pad) && RemovePrefix(pad + x, pad) == x
    ensures x != [] && !IsIndentChar(x[0]) ==> Indent(pad + x) == pad
  {
    assert forall i :: 0 <= i < |x| ==> (pad + x)[|pad| + i] == x[i];
    assert (pad + x)[..|pad|] == pad;
    assert (pad + x)[|pad|..] == x;
    if x != [] && !IsIndentChar(x[0]) {
      IndentOf(pad, x);
    }
  }

  /**
   * Dedenting lines that are each empty or the run `pad` followed by a text,
   * one text starting visibly: the result is the texts with the blank ones
   * emptied.
   */
  lemma DedentPadded(src: seq<string>, text: seq<string>, pad: string, j: nat)
    requires IsBlankLine(pad)
    requires |src| == |text| && j < |text|
    requires forall i :: 0 <= i < |src| ==> '\n' !in src[i]
    requires forall i :: 0 <= i < |src| ==> src[i] == pad + text[i] || src[i] == text[i] == ""
    requires text[j] != [] && !IsIndentChar(text[j][0])
    ensures Dedent(Join("\n", src)) == Join("\n", ClearBlanks(text))
  {
    SplitJoinLines(src);
    var lines := ClearBlanks(src);
    forall i | 0 <= i < |src|
      ensures IsBlankLine(text[i]) ==> lines[i] == ""
      ensures !IsBlankLine(text[i]) ==> lines[i] == pad + text[i] && StartsWith(lines[i], pad)
      ensures RemovePrefix(lines[i], pad) == ClearBlank(text[i])
    {
      PaddedLine(pad, text[i]);
    }
    PaddedLine(pad, text[j]);
    MarginIs(lines, pad, j);
    assert RemovePrefixes(lines, pad) == ClearBlanks(text);
  }

  /** Lines between an empty first line and a blank last line. */
  lemma ClearBlanksFramed(body: seq<string>, last: string)
    requires IsBlankLine(last)
    ensures ClearBlanks([""] + body + [last]) == [""] + ClearBlanks(body) + [""]
  {
  }

  /** Lines that are empty or not blank are kept as they are. */
  lemma ClearBlanksVisible(lines: seq<string>)
    requires forall i :: 0 <= i < |lines| ==> lines[i] == "" || !IsBlankLine(lines[i])
    ensures ClearBlanks(lines) == lines
  {
  }

  /** Blank lines are cleared one by one. */
  lemma ClearBlanksSnoc(lines: seq<string>, x: string)
    ensures ClearBlanks(lines + [x]) == ClearBlanks(lines) + [ClearBlank(x)]
  {
  }

  /** Lines between two empty lines join to the joined lines between line feeds. */
  lemma JoinFramed(body: seq<string>)
    requires body != []
    ensures Join("\n", [""] + body + [""]) == "\n" + Join("\n", body) + "\n"
  {
    JoinConcat("\n", [""] + body, [""]);
    JoinConcat("\n", [""], body);
  }

  /** A line that starts visibly is not blank and is kept as it is. */
  lemma VisibleLine(x: string)
    requires x != [] && !IsIndentChar(x[0])
    ensures !IsBlankLine(x) && ClearBlank(x) == x
  {
  }

  /** Dedenting lines one of which starts visibly: the margin is empty and only the blank lines change. */
  lemma DedentUnindented(lines: seq<string>, j: nat)
    requires j < |lines| && lines[j] != [] && !IsIndentChar(lines[j][0])
    requires forall i :: 0 <= i < |lines| ==> '\n' !in lines[i]
    ensures Dedent(Join("\n", lines)) == Join("\n", ClearBlanks(lines))
  {
    var cleared := ClearBlanks(lines);
    assert Margin(cleared) == Some("") by {
      assert cleared[j] == lines[j];
      PaddedLine("", lines[j]);
      assert "" + lines[j] == lines[j];
      MarginIs(cleared, "", j);
    }
    assert RemovePrefixes(cleared, "") == cleared by {
      forall i | 0 <= i < |cleared|
        ensures RemovePrefix(cleared[i], "") == cleared[i]
      {
        assert cleared[i][0..] == cleared[i];
      }
    }
    SplitJoinLines(lines);
  }

  /** A text that opens with an empty line and then the line `head`. */
  lemma SplitAfterEmpty(head: string, rest: string)
    requires '\n' !in head
    ensures SplitLines("\n" + head + "\n" + rest) == ["", head] + SplitLines(rest)
  {
    assert "\n" + head + "\n" + rest == "" + "\n" + (head + "\n" + rest);
    SplitLinesConcat("", head + "\n" + rest);
    SplitLinesConcat(head, rest);
    SplitLinesSingle(head);
  }

  /** Lines that open with an empty line join to a line feed, the second line and the rest. */
  lemma JoinOpening(lines: seq<string>)
    requires |lines| >= 3 && lines[0] == ""
    ensures Join("\n", lines) == "\n" + lines[1] + "\n" + Join("\n", lines[2..])
  {
    JoinFrom("\n", lines, 0);
    JoinFrom("\n", lines, 1);
    assert lines[0..] == lines;
  }

  lemma Regroup(p: string, x: string, tail: string)
    ensures "\n" + (p + x) + "\n" + tail == ("\n" + p) + x + ("\n" + tail)
  {
  }

  /**
   * Lines that open with an empty line and then `pad + x`, `x` starting
   * visibly: once dedented they still open that way, with part of `pad`.
   */
  lemma DedentOpening(lines: seq<string>, pad: string, x: string) returns (p: string, tail: string)
    requires |lines| >= 3 && lines[0] == "" && lines[1] == pad + x
    requires IsBlankLine(pad) && x != [] && !IsIndentChar(x[0])
    ensures IsBlankLine(p)
    ensures Join("\n", RemovePrefixes(ClearBlanks(lines), Margin(ClearBlanks(lines)).GetOr(""))) ==
            ("\n" + p) + x + ("\n" + tail)
  {
    var cleared := ClearBlanks(lines);
    PaddedLine(pad, x);
    assert !IsBlankLine(x) by {
      assert !IsIndentChar(x[0]);
    }
    assert cleared[0] == "" && cleared[1] == pad + x;
    var m := Margin(cleared).value;
    assert StartsWith(pad, m);
    p := pad[|m|..];
    assert IsBlankLine(p) by {
      assert forall i :: 0 <= i < |p| ==> p[i] == pad[|m| + i];
    }
    var out := RemovePrefixes(cleared, m);
    assert out[1] == p + x by {
      assert (pad + x)[..|m|] == pad[..|m|];
      assert (pad + x)[|m|..] == p + x;
    }
    assert out[0] == "";
    tail := Join("\n", out[2..]);
    JoinOpening(out);
    Regroup(p, x, tail);
  }

  /**
   * A text that opens with an empty line and then a line `pad + x`, `x`
   * starting visibly: the dedent keeps `x` behind part of `pad`.
   */
  lemma DedentKeepsLine(head: string, pad: string, x: string, rest: string) returns (p: string, tail: string)
    requires head == pad + x && IsBlankLine(pad)
    requires x != [] && !IsIndentChar(x[0]) && '\n' !in x
    ensures IsBlankLine(p)
    ensures Dedent("\n" + head + "\n" + rest) == ("\n" + p) + x + ("\n" + tail)
  {
    assert '\n' !in head by {
      assert forall i :: 0 <= i < |pad| ==> IsIndentChar(pad[i]);
    }
    SplitAfterEmpty(head, rest);
    p, tail := DedentOpening(["", head] + SplitLines(rest), pad, x);
  }
}
