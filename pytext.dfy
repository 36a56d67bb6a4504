/** The three Python `str` methods the device-list parser relies on, with their
    CPython meaning: `strip()` and `split()` with no argument use the characters
    for which `str.isspace()` holds, and `splitlines()` breaks at its own, smaller
    set of line boundaries (treating "\r\n" as one boundary). */
module PyText {

  /** `c.isspace()` in CPython: U+0009..U+000D, U+001C..U+0020, U+0085, U+00A0,
      U+1680, U+2000..U+200A, U+2028, U+2029, U+202F, U+205F, U+3000. */
  predicate IsWhitespace(c: char) {
    || ('\t' <= c <= '\r')
    || ('\U{1C}' <= c <= ' ')
    || c == '\U{85}' || c == '\U{A0}' || c == '\U{1680}'
    || ('\U{2000}' <= c <= '\U{200A}')
    || c == '\U{2028}' || c == '\U{2029}' || c == '\U{202F}' || c == '\U{205F}' || c == '\U{3000}'
  }

  /** A line boundary of `str.splitlines()`: \n, \r, \v, \f, U+001C..U+001E, U+0085,
      U+2028, U+2029 ("\r\n" is handled by `BreakWidth`). */
  predicate IsLineBreak(c: char) {
    || c == '\n' || c == '\r' || c == '\U{0B}' || c == '\U{0C}'
    || ('\U{1C}' <= c <= '\U{1E}')
    || c == '\U{85}' || c == '\U{2028}' || c == '\U{2029}'
  }

  /** Every string consisting of whitespace only (including the empty string). */
  predicate Blank(s: string) {
    forall i :: 0 <= i < |s| ==> IsWhitespace(s[i])
  }

  /** A non-empty string without whitespace: what `split()` can produce. */
  predicate IsWord(s: string) {
    s != [] && forall i :: 0 <= i < |s| ==> !IsWhitespace(s[i])
  }

  predicate NoLineBreaks(s: string) {
    forall i :: 0 <= i < |s| ==> !IsLineBreak(s[i])
  }

  // ---------------------------------------------------------------- strip()

  /** `s.lstrip()`: the suffix of `s` left after its leading whitespace. */
  function LStrip(s: string): (r: string)
    ensures |r| <= |s| && r == s[|s| - |r|..]
    ensures Blank(s[..|s| - |r|])
    ensures r == [] || !IsWhitespace(r[0])
    decreases |s|
  {
    if s != [] && IsWhitespace(s[0]) then
      var r := LStrip(s[1..]);
      assert s[1..][..|s| - 1 - |r|] == s[1..|s| - |r|];
      r
    else
      s
  }

  /** `s.rstrip()`: the prefix of `s` left after its trailing whitespace. */
  function RStrip(s: string): (r: string)
    ensures |r| <= |s| && r == s[..|r|]
    ensures Blank(s[|r|..])
    ensures r == [] || !IsWhitespace(r[|r| - 1])
    decreases |s|
  {
    if s != [] && IsWhitespace(s[|s| - 1]) then
      var r := RStrip(s[..|s| - 1]);
      assert s[|r|..] == s[..|s| - 1][|r|..] + [s[|s| - 1]];
      r
    else
      s
  }

  /** `s.strip()`. */
  function Strip(s: string): string {
    RStrip(LStrip(s))
  }

  /** `s.strip()` is the part of `s` between its leading and its trailing
      whitespace, and starts and ends with a visible character (or is empty). */
  lemma StripShape(s: string)
    ensures var r := Strip(s); var i := |s| - |LStrip(s)|;
      && i + |r| <= |s|
      && (forall k :: 0 <= k < |r| ==> r[k] == s[i + k])
      && (forall k :: 0 <= k < i ==> IsWhitespace(s[k]))
      && (forall k :: i + |r| <= k < |s| ==> IsWhitespace(s[k]))
      && (r == [] || (!IsWhitespace(r[0]) && !IsWhitespace(r[|r| - 1])))
  {
    LStripPointwise(s);
    RStripPointwise(LStrip(s));
  }

  lemma LStripPointwise(s: string)
    ensures var l := LStrip(s); var i := |s| - |l|;
      && (forall k :: 0 <= k < |l| ==> l[k] == s[i + k])
      && (forall k :: 0 <= k < i ==> IsWhitespace(s[k]))
  {
    var l := LStrip(s);
    var i := |s| - |l|;
    var p := s[..i];
    assert Blank(p);
    forall k | 0 <= k < i ensures IsWhitespace(s[k]) {
      assert p[k] == s[k];
    }
  }

  lemma RStripPointwise(l: string)
    ensures var r := RStrip(l);
      && (forall k :: 0 <= k < |r| ==> r[k] == l[k])
      && (forall k :: |r| <= k < |l| ==> IsWhitespace(l[k]))
  {
    var r := RStrip(l);
    var t := l[|r|..];
    assert Blank(t);
    forall k | |r| <= k < |l| ensures IsWhitespace(l[k]) {
      assert t[k - |r|] == l[k];
    }
  }

  /** `s.strip()` is empty exactly when `s` is blank. */
  lemma StripEmptyIffBlank(s: string)
    ensures Strip(s) == [] <==> Blank(s)
  {
    var l := LStrip(s);
    var i := |s| - |l|;
    if RStrip(l) == [] {
      assert l[0..] == l;
      assert s[..i] == s;
    }
  }

  /** Stripping a string that starts and ends with non-whitespace, followed by a
      blank tail, gives the string back. */
  lemma StripKeepsCore(core: string, tail: string)
    requires core != [] && !IsWhitespace(core[0]) && !IsWhitespace(core[|core| - 1])
    requires Blank(tail)
    ensures Strip(core + tail) == core
  {
    var s := core + tail;
    assert LStrip(s) == s;
    RStripBlankTail(core, tail);
  }

  lemma {:induction false} RStripBlankTail(core: string, tail: string)
    requires core != [] && !IsWhitespace(core[|core| - 1])
    requires Blank(tail)
    ensures RStrip(core + tail) == core
    decreases |tail|
  {
    if tail == [] {
      assert core + tail == core;
    } else {
      var s := core + tail;
      assert s[..|s| - 1] == core + tail[..|tail| - 1];
      assert IsWhitespace(s[|s| - 1]) by { assert s[|s| - 1] == tail[|tail| - 1]; }
      RStripBlankTail(core, tail[..|tail| - 1]);
    }
  }

  // ----------------------------------------------------------- splitlines()

  /** The first line boundary at or after `i`, or `|s|` if there is none. */
  function LineEnd(s: string, i: nat): (j: nat)
    requires i <= |s|
    ensures i <= j <= |s|
    ensures j < |s| ==> IsLineBreak(s[j])
    ensures forall k :: i <= k < j ==> !IsLineBreak(s[k])
    decreases |s| - i
  {
    if i == |s| || IsLineBreak(s[i]) then i else LineEnd(s, i + 1)
  }

  /** How many characters the boundary at `j` takes: two for "\r\n", one otherwise. */
  function BreakWidth(s: string, j: nat): (w: nat)
    requires j < |s|
    ensures 1 <= w <= |s| - j
  {
    if s[j] == '\r' && j + 1 < |s| && s[j + 1] == '\n' then 2 else 1
  }

  /** `s.splitlines()`: the lines of `s` without their boundaries; a final boundary
      does not start an extra empty line, and the empty string has no lines. */
  function SplitLines(s: string): (lines: seq<string>)
    ensures forall k :: 0 <= k < |lines| ==> NoLineBreaks(lines[k])
    ensures |lines| <= |s|
    ensures s != [] ==> lines != []
    decreases |s|
  {
    if s == [] then []
    else
      var j := LineEnd(s, 0);
      if j == |s| then [s]
      else [s[..j]] + SplitLines(s[j + BreakWidth(s, j)..])
  }

  /** The lines laid end to end. */
  function Concat(lines: seq<string>): string {
    if lines == [] then "" else lines[0] + Concat(lines[1..])
  }

  /** `s` with every line-boundary character removed. */
  function DropBreaks(s: string): (r: string)
    ensures NoLineBreaks(r)
  {
    if s == [] then ""
    else
      var rest := DropBreaks(s[1..]);
      if IsLineBreak(s[0]) then rest else [s[0]] + rest
  }

  lemma {:induction false} DropBreaksAppend(a: string, b: string)
    ensures DropBreaks(a + b) == DropBreaks(a) + DropBreaks(b)
    decreases |a|
  {
    if a == [] {
      assert a + b == b;
    } else {
      assert (a + b)[0] == a[0] && (a + b)[1..] == a[1..] + b;
      DropBreaksAppend(a[1..], b);
    }
  }

  lemma {:induction false} DropBreaksOfLine(s: string)
    requires NoLineBreaks(s)
    ensures DropBreaks(s) == s
    decreases |s|
  {
    if s != [] {
      assert NoLineBreaks(s[1..]) by {
        forall k | 0 <= k < |s| - 1 ensures !IsLineBreak(s[1..][k]) { assert s[1..][k] == s[k + 1]; }
      }
      DropBreaksOfLine(s[1..]);
    }
  }

  /** `splitlines()` loses nothing but the boundaries: its lines laid end to end are
      the text with every line-boundary character removed. */
  lemma {:induction false} SplitLinesKeepsText(s: string)
    ensures Concat(SplitLines(s)) == DropBreaks(s)
    decreases |s|
  {
    if s != [] {
      var j := LineEnd(s, 0);
      FirstLineKept(s, j);
      if j == |s| {
        assert s[..j] == s;
        assert Concat([s]) == s + Concat([]);
      } else {
        var w := BreakWidth(s, j);
        var line, b, rest := s[..j], s[j..j + w], s[j + w..];
        assert s == line + b + rest;
        assert b[0] == s[j];
        if w == 1 && b[0] == '\r' && rest != [] {
          assert rest[0] == s[j + 1];
        }
        SplitLinesKeepsText(rest);
        KeepsTextStep(line, b, rest);
      }
    }
  }

  /** One step of `SplitLinesKeepsText`: a line and its boundary in front of a rest
      whose lines already lay out its text. */
  lemma KeepsTextStep(line: string, b: string, rest: string)
    requires NoLineBreaks(line)
    requires b == "\r\n" || (|b| == 1 && IsLineBreak(b[0]) && !(b == "\r" && rest != [] && rest[0] == '\n'))
    requires Concat(SplitLines(rest)) == DropBreaks(rest)
    ensures Concat(SplitLines(line + b + rest)) == DropBreaks(line + b + rest)
  {
    var s := line + b + rest;
    SplitAtBreak(line, b, rest);
    ConcatCons(line, SplitLines(rest));
    assert Concat(SplitLines(s)) == line + DropBreaks(rest);
    BreakDroppedAfterLine(line, b, rest);
  }

  /** Dropping the boundaries of a line, a boundary and a rest leaves the line
      followed by what the rest leaves. */
  lemma BreakDroppedAfterLine(line: string, b: string, rest: string)
    requires NoLineBreaks(line)
    requires b == "\r\n" || (|b| == 1 && IsLineBreak(b[0]))
    ensures DropBreaks(line + b + rest) == line + DropBreaks(rest)
  {
    var tail := b + rest;
    assert line + b + rest == line + tail;
    DropBreaksOfLine(line);
    DropBreaksAppend(line, tail);
    DropBreaksAppend(b, rest);
    BreakDropped(b);
    assert DropBreaks(tail) == DropBreaks(rest);
  }

  /** A boundary leaves nothing behind once the boundaries are dropped. */
  lemma BreakDropped(b: string)
    requires b == "\r\n" || (|b| == 1 && IsLineBreak(b[0]))
    ensures DropBreaks(b) == []
  {
    assert DropBreaks(b) == DropBreaks(b[1..]);
    if |b| == 2 {
      assert b[1..][0] == '\n' && b[1..][1..] == [];
    }
  }

  lemma ConcatCons(line: string, lines: seq<string>)
    ensures Concat([line] + lines) == line + Concat(lines)
  {
    assert ([line] + lines)[1..] == lines;
  }

  lemma FirstLineKept(s: string, j: nat)
    requires j <= |s| && forall k :: 0 <= k < j ==> !IsLineBreak(s[k])
    ensures DropBreaks(s[..j]) == s[..j]
  {
    assert NoLineBreaks(s[..j]) by {
      forall k | 0 <= k < j ensures !IsLineBreak(s[..j][k]) { assert s[..j][k] == s[k]; }
    }
    DropBreaksOfLine(s[..j]);
  }

  /** A string without line boundaries is one line (or none, if empty). */
  lemma OneLine(s: string)
    requires NoLineBreaks(s)
    ensures SplitLines(s) == if s == [] then [] else [s]
  {
    if s != [] {
      assert LineEnd(s, 0) == |s|;
    }
  }

  /** A line followed by one boundary `b` and the rest: the line comes first, then the
      lines of the rest. The boundary is "\r\n" or a single boundary character, except
      a "\r" with a "\n" after it (that pair is one boundary). With `OneLine` this
      fixes `SplitLines` on every string. */
  lemma SplitAtBreak(line: string, b: string, rest: string)
    requires NoLineBreaks(line)
    requires b == "\r\n" || (|b| == 1 && IsLineBreak(b[0]) && !(b == "\r" && rest != [] && rest[0] == '\n'))
    ensures SplitLines(line + b + rest) == [line] + SplitLines(rest)
  {
    var s := line + b + rest;
    assert s[|line|] == b[0];
    assert forall k :: 0 <= k < |line| ==> s[k] == line[k];
    var j := LineEnd(s, 0);
    assert j == |line|;
    if b == "\r\n" {
      assert s[j + 1] == '\n';
    } else if j + 1 < |s| {
      assert s[j + 1] == rest[0];
    }
    assert BreakWidth(s, j) == |b|;
    assert s[..j] == line;
    assert s[j + |b|..] == rest;
  }

  // ----------------------------------------------------------------- split()

  /** The end of the run of non-whitespace characters that starts at `i`. */
  function WordEnd(s: string, i: nat): (j: nat)
    requires i <= |s|
    ensures i <= j <= |s|
    ensures j < |s| ==> IsWhitespace(s[j])
    ensures forall k :: i <= k < j ==> !IsWhitespace(s[k])
    decreases |s| - i
  {
    if i == |s| || IsWhitespace(s[i]) then i else WordEnd(s, i + 1)
  }

  /** `WordEnd` stops at the first whitespace character (or the end). */
  lemma {:induction false} WordEndAt(s: string, i: nat, n: nat)
    requires i <= n <= |s|
    requires forall k :: i <= k < n ==> !IsWhitespace(s[k])
    requires n == |s| || IsWhitespace(s[n])
    ensures WordEnd(s, i) == n
    decreases n - i
  {
    if i < n {
      WordEndAt(s, i + 1, n);
    }
  }

  /** `s.split()`: the maximal runs of non-whitespace characters, in order. */
  function Tokens(s: string): (ts: seq<string>)
    ensures forall k :: 0 <= k < |ts| ==> IsWord(ts[k])
    decreases |s|
  {
    if s == [] then []
    else if IsWhitespace(s[0]) then Tokens(s[1..])
    else
      var j := WordEnd(s, 0);
      [s[..j]] + Tokens(s[j..])
  }

  /** `split()` finds no token exactly in a blank string. */
  lemma {:induction false} TokensEmptyIffBlank(s: string)
    ensures Tokens(s) == [] <==> Blank(s)
    decreases |s|
  {
    if s != [] {
      if IsWhitespace(s[0]) {
        TokensEmptyIffBlank(s[1..]);
        if Blank(s[1..]) {
          forall k | 0 <= k < |s| ensures IsWhitespace(s[k]) {
            if k > 0 { assert s[k] == s[1..][k - 1]; }
          }
        }
        if Blank(s) {
          forall k | 0 <= k < |s| - 1 ensures IsWhitespace(s[1..][k]) { assert s[1..][k] == s[k + 1]; }
        }
      }
    }
  }

  /** A word followed by whitespace (or nothing) is split off as the first token. */
  lemma WordFirst(w: string, rest: string)
    requires IsWord(w)
    requires rest == [] || IsWhitespace(rest[0])
    ensures Tokens(w + rest) == [w] + Tokens(rest)
  {
    var s := w + rest;
    assert s[0] == w[0];
    assert forall k :: 0 <= k < |w| ==> s[k] == w[k];
    WordEndAt(s, 0, |w|);
    var j := WordEnd(s, 0);
    assert s[..j] == w && s[j..] == rest;
  }

  /** Leading whitespace does not change the tokens. */
  lemma {:induction false} TokensSkipBlank(ws: string, rest: string)
    requires Blank(ws)
    ensures Tokens(ws + rest) == Tokens(rest)
    decreases |ws|
  {
    if ws != [] {
      var s := ws + rest;
      assert IsWhitespace(s[0]);
      assert s[1..] == ws[1..] + rest;
      TokensSkipBlank(ws[1..], rest);
    } else {
      assert ws + rest == rest;
    }
  }

  /** Two words separated by a blank run split into exactly those two words. */
  lemma TokensOfPair(a: string, sep: string, b: string)
    requires IsWord(a) && IsWord(b)
    requires sep != [] && Blank(sep)
    ensures Tokens(a + sep + b) == [a, b]
  {
    assert a + sep + b == a + (sep + b);
    assert (sep + b)[0] == sep[0];
    WordFirst(a, sep + b);
    TokensSkipBlank(sep, b);
    WordFirst(b, []);
    assert b + [] == b;
    assert Tokens([]) == [];
  }
}
