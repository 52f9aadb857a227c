/**
 * The Python `str` and slicing built-ins that the reply extractor relies on,
 * written out with Python's own edge cases: `strip()` with no argument,
 * `startswith`, `splitlines()`, `"\n".join`, `find`, `rfind` and `s[i:j]`
 * with negative or out-of-range bounds.
 */
module PyText {

  /** The characters for which Python's `str.isspace()` holds; `strip()` removes these. */
  predicate IsSpace(c: char)
  {
    c == ' ' || c == '\t' || c == '\n' || c == '\r' || c == '\U{0B}' || c == '\U{0C}'
    || c == '\U{1C}' || c == '\U{1D}' || c == '\U{1E}' || c == '\U{1F}'
    || c == '\U{85}' || c == '\U{A0}' || c == '\U{1680}'
    || ('\U{2000}' <= c <= '\U{200A}')
    || c == '\U{2028}' || c == '\U{2029}' || c == '\U{202F}' || c == '\U{205F}' || c == '\U{3000}'
  }

  /** The line boundaries recognised by `str.splitlines()` ("\r\n" is handled as one boundary). */
  predicate IsLineBreak(c: char)
  {
    c == '\n' || c == '\r' || c == '\U{0B}' || c == '\U{0C}'
    || c == '\U{1C}' || c == '\U{1D}' || c == '\U{1E}'
    || c == '\U{85}' || c == '\U{2028}' || c == '\U{2029}'
  }

  predicate AllSpace(s: string)
  {
    forall k :: 0 <= k < |s| ==> IsSpace(s[k])
  }

  predicate NoLineBreak(s: string)
  {
    forall k :: 0 <= k < |s| ==> !IsLineBreak(s[k])
  }

  /** Index of the first non-space character, or |s| when there is none. */
  function FirstNonSpace(s: string): (i: nat)
    ensures i <= |s|
    ensures forall n :: 0 <= n < i ==> IsSpace(s[n])
    ensures i < |s| ==> !IsSpace(s[i])
  {
    if s == [] || !IsSpace(s[0]) then 0
    else 1 + FirstNonSpace(s[1..])
  }

  /** End of the last non-space character (one past it), or 0 when there is none. */
  function EndOfNonSpace(s: string): (j: nat)
    ensures j <= |s|
    ensures forall n :: j <= n < |s| ==> IsSpace(s[n])
    ensures j > 0 ==> !IsSpace(s[j - 1])
  {
    if s == [] || !IsSpace(s[|s| - 1]) then |s|
    else EndOfNonSpace(s[..|s| - 1])
  }

  /** `s.strip()`: drop leading and trailing whitespace. */
  function Strip(s: string): (r: string)
    ensures |r| <= |s|
    ensures r == [] <==> AllSpace(s)
    ensures r != [] ==> !IsSpace(r[0]) && !IsSpace(r[|r| - 1])
  {
    var i, j := FirstNonSpace(s), EndOfNonSpace(s);
    if i < j then s[i..j]
    else []
  }

  /** `s.startswith(p)`, written as Python defines it: `s[:len(p)] == p` with p no longer than s. */
  predicate StartsWith(s: string, p: string): (b: bool)
    ensures b <==> |p| <= |s| && forall k :: 0 <= k < |p| ==> s[k] == p[k]
  {
    |p| <= |s| && s[..|p|] == p
  }

  /** Index of the first line boundary in s, or |s| when there is none. */
  function FirstLineBreak(s: string): (k: nat)
    ensures k <= |s|
    ensures forall n :: 0 <= n < k ==> !IsLineBreak(s[n])
    ensures k < |s| ==> IsLineBreak(s[k])
  {
    if s == [] || IsLineBreak(s[0]) then 0
    else 1 + FirstLineBreak(s[1..])
  }

  /**
   * `s.splitlines()`: the lines of s without their boundaries; a boundary at
   * the very end does not start a further (empty) line, and "" has no lines.
   */
  function SplitLines(s: string): (lines: seq<string>)
    ensures forall n :: 0 <= n < |lines| ==> NoLineBreak(lines[n])
    ensures lines == [] <==> s == []
    decreases |s|
  {
    if s == [] then []
    else
      var k := FirstLineBreak(s);
      if k == |s| then [s]
      else
        [s[..k]] + SplitLines(s[k + BreakWidth(s, k)..])
  }

  /** How many characters the boundary at k takes: two for "\r\n", one otherwise. */
  function BreakWidth(s: string, k: nat): (w: nat)
    requires k < |s|
    ensures 1 <= w && k + w <= |s|
    ensures w == 2 <==> s[k] == '\r' && k + 1 < |s| && s[k + 1] == '\n'
  {
    if s[k] == '\r' && k + 1 < |s| && s[k + 1] == '\n' then 2 else 1
  }

  /** The number of characters in all the parts together. */
  function TotalLength(parts: seq<string>): nat
  {
    if parts == [] then 0 else |parts[0]| + TotalLength(parts[1..])
  }

  /** `sep.join(parts)`: every part, with one separator between each two. */
  function Join(sep: string, parts: seq<string>): (r: string)
    ensures |r| == if parts == [] then 0 else TotalLength(parts) + (|parts| - 1) * |sep|
    ensures parts != [] ==> r[..|parts[0]|] == parts[0]
  {
    if parts == [] then []
    else if |parts| == 1 then parts[0]
    else parts[0] + sep + Join(sep, parts[1..])
  }

  /** `s.find(c)`: the first index of c, or -1. */
  function Find(s: string, c: char): (r: int)
    ensures -1 <= r < |s|
    ensures r == -1 <==> c !in s
    ensures r >= 0 ==> s[r] == c && forall n :: 0 <= n < r ==> s[n] != c
  {
    if s == [] then -1
    else if s[0] == c then 0
    else
      var k := Find(s[1..], c);
      if k < 0 then -1 else k + 1
  }

  /** `s.rfind(c)`: the last index of c, or -1. */
  function RFind(s: string, c: char): (r: int)
    ensures -1 <= r < |s|
    ensures r == -1 <==> c !in s
    ensures r >= 0 ==> s[r] == c && forall n :: r < n < |s| ==> s[n] != c
  {
    if s == [] then -1
    else if s[|s| - 1] == c then |s| - 1
    else
      var init := s[..|s| - 1];
      assert s == init + [s[|s| - 1]];
      RFind(init, c)
  }

  /** How Python turns a slice bound into a position in 0..n (negative counts from the end). */
  function SliceBound(i: int, n: nat): (p: nat)
    ensures p <= n
    ensures 0 <= i <= n ==> p == i
    ensures i < 0 && 0 <= n + i ==> p == n + i
    ensures n + i < 0 ==> p == 0
    ensures i > n ==> p == n
  {
    if i < 0 then (if i + n < 0 then 0 else i + n)
    else if i > n then n
    else i
  }

  /** `s[start:stop]` on a Python string or list. */
  function PySlice<T>(s: seq<T>, start: int, stop: int): (r: seq<T>)
    ensures var lo, hi := SliceBound(start, |s|), SliceBound(stop, |s|);
      (lo < hi ==> r == s[lo..hi]) && (hi <= lo ==> r == [])
  {
    var lo, hi := SliceBound(start, |s|), SliceBound(stop, |s|);
    if lo < hi then s[lo..hi] else []
  }

  /** Only '\n' may serve as a line boundary in s (no "\r", form feed, ...). */
  predicate OnlyNewlineBreaks(s: string)
  {
    forall k :: 0 <= k < |s| && IsLineBreak(s[k]) ==> s[k] == '\n'
  }

  /** `s.split("\n")`: always one more piece than there are '\n' characters. */
  function SplitNewline(s: string): (parts: seq<string>)
    ensures |parts| >= 1
    ensures forall n :: 0 <= n < |parts| ==> '\n' !in parts[n]
  {
    var k := Find(s, '\n');
    if k < 0 then [s] else [s[..k]] + SplitNewline(s[k + 1..])
  }

  /**
   * s with every line boundary written as a single "\n" ("\r\n" counts as one
   * boundary), read character by character.
   */
  function NormalizeBreaks(s: string): (r: string)
    ensures |r| <= |s|
    decreases |s|
  {
    if s == [] then []
    else if IsLineBreak(s[0]) then "\n" + NormalizeBreaks(s[BreakWidth(s, 0)..])
    else [s[0]] + NormalizeBreaks(s[1..])
  }

  /** Whether s ends at a line boundary (or is empty), so that `split` has one more piece than `splitlines`. */
  predicate EndsAtBreak(s: string)
  {
    s == [] || IsLineBreak(s[|s| - 1])
  }

  /**
   * What `splitlines()` returns, stated without it: the pieces between the
   * "\n"s once every boundary is written as "\n", less the empty piece after
   * a boundary that ends the text (and "" has no lines at all).
   */
  lemma {:induction false} SplitLinesPieces(s: string)
    ensures SplitNewline(NormalizeBreaks(s)) == SplitLines(s) + (if EndsAtBreak(s) then [""] else [])
    decreases |s|
  {
    if s != [] {
      var k := FirstLineBreak(s);
      if k == |s| {
        OneLinePieces(s);
      } else {
        var rest := s[k + BreakWidth(s, k)..];
        FirstLinePieces(s, k, rest);
        SplitLinesPieces(rest);
        PrependLine(SplitNewline(NormalizeBreaks(s)), SplitNewline(NormalizeBreaks(rest)),
                    SplitLines(s), SplitLines(rest), s[..k], if EndsAtBreak(s) then [""] else []);
      }
    }
  }

  lemma PrependLine(pieces: seq<string>, restPieces: seq<string>, lines: seq<string>, restLines: seq<string>,
                    first: string, tail: seq<string>)
    requires pieces == [first] + restPieces && lines == [first] + restLines
    requires restPieces == restLines + tail
    ensures pieces == lines + tail
  {
  }

  lemma OneLinePieces(s: string)
    requires s != [] && FirstLineBreak(s) == |s|
    ensures !EndsAtBreak(s)
    ensures SplitNewline(NormalizeBreaks(s)) == SplitLines(s)
  {
    assert NoLineBreak(s);
    NoNewlineIn(s);
    assert s + [] == s;
    NormalizePrefix(s, []);
  }

  /** Splitting off the first line of s, both ways: by `splitlines()` and by "\n" after normalising. */
  lemma FirstLinePieces(s: string, k: nat, rest: string)
    requires k == FirstLineBreak(s) && k < |s| && rest == s[k + BreakWidth(s, k)..]
    ensures SplitNewline(NormalizeBreaks(s)) == [s[..k]] + SplitNewline(NormalizeBreaks(rest))
    ensures SplitLines(s) == [s[..k]] + SplitLines(rest)
    ensures EndsAtBreak(rest) == EndsAtBreak(s)
  {
    var pre := s[..k];
    assert NoLineBreak(pre);
    NormalizeSplitAt(s, k);
    NormalizeFromBreak(s, k);
    NoNewlineIn(pre);
    SplitNewlineCons(pre, NormalizeBreaks(rest));
    SplitLinesFirstLine(s, k, rest);
    assert rest != [] ==> rest[|rest| - 1] == s[|s| - 1];
  }

  /** The first line of s ends at its first boundary k, and the lines after it are those of rest, the text after that boundary. */
  lemma SplitLinesFirstLine(s: string, k: nat, rest: string)
    requires k == FirstLineBreak(s) && k < |s| && rest == s[k + BreakWidth(s, k)..]
    ensures SplitLines(s) == [s[..k]] + SplitLines(rest)
  {
    var lines := SplitLines(s);
    assert lines == [s[..k]] + SplitLines(rest);
  }

  /** The text of all the lines, joined by "\n", is the text with its boundaries written as "\n". */
  lemma JoinSplitLines(s: string)
    requires s != [] && !IsLineBreak(s[|s| - 1])
    ensures Join("\n", SplitLines(s)) == NormalizeBreaks(s)
  {
    assert !EndsAtBreak(s);
    SplitLinesPieces(s);
    assert SplitNewline(NormalizeBreaks(s)) == SplitLines(s);
    JoinSplitNewline(NormalizeBreaks(s));
  }

  lemma NoNewlineIn(s: string)
    requires NoLineBreak(s)
    ensures '\n' !in s
  {
  }

  lemma SplitNewlineCons(pre: string, t: string)
    requires '\n' !in pre
    ensures SplitNewline(pre + ("\n" + t)) == [pre] + SplitNewline(t)
  {
    var s := pre + ("\n" + t);
    assert s[|pre|] == '\n';
    forall n | 0 <= n < |pre| ensures s[n] != '\n' { assert s[n] == pre[n]; }
    assert Find(s, '\n') == |pre| by { assert '\n' in s; }
    assert s[..|pre|] == pre && s[|pre| + 1..] == t;
  }

  /** A last piece without "\n", added after a "\n", is the last piece of the split. */
  lemma {:induction false} SplitNewlineSnoc(x: string, last: string)
    requires '\n' !in last
    ensures SplitNewline(x + ("\n" + last)) == SplitNewline(x) + [last]
    decreases |x|
  {
    var k := Find(x, '\n');
    if k < 0 {
      SplitNewlineTwo(x, last);
    } else {
      SplitNewlineSnoc(x[k + 1..], last);
      SplitNewlineSnocStep(x, k, last);
    }
  }

  lemma SplitNewlineSnocStep(x: string, k: nat, last: string)
    requires k == Find(x, '\n') && k < |x|
    requires SplitNewline(x[k + 1..] + ("\n" + last)) == SplitNewline(x[k + 1..]) + [last]
    ensures SplitNewline(x + ("\n" + last)) == SplitNewline(x) + [last]
  {
    SplitNewlineAppendAt(x, "\n" + last, k);
    SplitNewlineAt(x, k);
  }

  /** When x holds a "\n", `(x + t).split("\n")` takes off the same first piece as `x.split("\n")`. */
  lemma SplitNewlineAppendAt(x: string, t: string, k: nat)
    requires k == Find(x, '\n')
    ensures SplitNewline(x + t) == [x[..k]] + SplitNewline(x[k + 1..] + t)
  {
    var y := x + t;
    FindInPrefix(x, t, '\n');
    SplitNewlineAt(y, k);
    assert y[..k] == x[..k] && y[k + 1..] == x[k + 1..] + t;
  }

  /** The first occurrence of c in x is also its first occurrence in x + t. */
  lemma FindInPrefix(x: string, t: string, c: char)
    requires Find(x, c) >= 0
    ensures Find(x + t, c) == Find(x, c)
  {
    var k, y := Find(x, c), x + t;
    assert y[k] == c && c in y;
    forall n | 0 <= n < k ensures y[n] != c { assert y[n] == x[n]; }
  }

  /** `split("\n")` takes off the piece before the first "\n" at k. */
  lemma SplitNewlineAt(s: string, k: nat)
    requires k == Find(s, '\n')
    ensures SplitNewline(s) == [s[..k]] + SplitNewline(s[k + 1..])
  {
  }

  lemma SplitNewlineTwo(x: string, last: string)
    requires '\n' !in x && '\n' !in last
    ensures SplitNewline(x + ("\n" + last)) == [x] + [last]
  {
    assert SplitNewline(last) == [last] by { assert Find(last, '\n') == -1; }
    SplitNewlineCons(x, last);
  }

  /** Normalising s from its start up to k leaves that boundary-free part as it was. */
  lemma NormalizeSplitAt(s: string, k: nat)
    requires k <= |s| && NoLineBreak(s[..k])
    ensures NormalizeBreaks(s) == s[..k] + NormalizeBreaks(s[k..])
  {
    assert s == s[..k] + s[k..];
    NormalizePrefix(s[..k], s[k..]);
  }

  /** A boundary at k, "\r\n" or a single character, normalises to one "\n". */
  lemma NormalizeFromBreak(s: string, k: nat)
    requires k < |s| && IsLineBreak(s[k])
    ensures NormalizeBreaks(s[k..]) == "\n" + NormalizeBreaks(s[k + BreakWidth(s, k)..])
  {
    var t := s[k..];
    assert t[0] == s[k];
    assert BreakWidth(t, 0) == BreakWidth(s, k);
    assert t[BreakWidth(t, 0)..] == s[k + BreakWidth(s, k)..];
    NormalizeAtBreak(t);
  }

  /** Text without boundaries passes through normalisation unchanged, whatever follows it. */
  lemma {:induction false} NormalizePrefix(a: string, b: string)
    requires NoLineBreak(a)
    ensures NormalizeBreaks(a + b) == a + NormalizeBreaks(b)
    decreases |a|
  {
    if a != [] {
      var t := a[1..];
      assert NoLineBreak(t) by {
        forall n | 0 <= n < |t| ensures !IsLineBreak(t[n]) { assert t[n] == a[n + 1]; }
      }
      NormalizePrefix(t, b);
      assert !IsLineBreak(a[0]);
      calc {
        NormalizeBreaks(a + b);
        { assert (a + b)[0] == a[0] && (a + b)[1..] == t + b; }
        [a[0]] + NormalizeBreaks(t + b);
        [a[0]] + (t + NormalizeBreaks(b));
        { assert a == [a[0]] + t; }
        a + NormalizeBreaks(b);
      }
    } else {
      assert a + b == b;
    }
  }

  lemma NormalizeAtBreak(t: string)
    requires t != [] && IsLineBreak(t[0])
    ensures NormalizeBreaks(t) == "\n" + NormalizeBreaks(t[BreakWidth(t, 0)..])
  {
  }

  lemma {:induction false} TotalLengthAppend(a: seq<string>, b: seq<string>)
    ensures TotalLength(a + b) == TotalLength(a) + TotalLength(b)
    decreases |a|
  {
    if a != [] {
      assert (a + b)[0] == a[0] && (a + b)[1..] == a[1..] + b;
      TotalLengthAppend(a[1..], b);
    } else {
      assert a + b == b;
    }
  }

  /** Joining the middle of a list (`parts[1:-1]`) never gives more text than joining all of it. */
  lemma JoinInnerNoLonger(sep: string, parts: seq<string>)
    ensures |Join(sep, PySlice(parts, 1, -1))| <= |Join(sep, parts)|
  {
    if |parts| > 2 {
      var mid := parts[1..|parts| - 1];
      assert parts == [parts[0]] + mid + [parts[|parts| - 1]];
      TotalLengthAppend([parts[0]] + mid, [parts[|parts| - 1]]);
      TotalLengthAppend([parts[0]], mid);
      assert (|parts| - 1) * |sep| == (|mid| - 1) * |sep| + 2 * |sep|;
    }
  }

  /** Stripping is determined by its result: whatever is framed by whitespace and neither starts nor ends with it. */
  lemma StripUnique(a: string, m: string, b: string)
    requires AllSpace(a) && AllSpace(b)
    requires m != [] ==> !IsSpace(m[0]) && !IsSpace(m[|m| - 1])
    ensures Strip(a + m + b) == m
  {
    var s := a + m + b;
    if m == [] {
      assert s == a + b;
      assert AllSpace(s) by {
        forall k | 0 <= k < |s| ensures IsSpace(s[k]) {
          if k < |a| { assert s[k] == a[k]; } else { assert s[k] == b[k - |a|]; }
        }
      }
    } else {
      var i, j := FirstNonSpace(s), EndOfNonSpace(s);
      assert s[|a|] == m[0];
      assert s[|a| + |m| - 1] == m[|m| - 1];
      assert i == |a|;
      assert j == |a| + |m|;
      assert s[i..j] == m;
    }
  }

  /** A non-empty string without line boundaries is one line. */
  lemma SplitLinesOneLine(s: string)
    requires s != [] && NoLineBreak(s)
    ensures SplitLines(s) == [s]
  {
  }

  /** Joining the pieces of `s.split("\n")` with "\n" gives s back. */
  lemma {:induction false} JoinSplitNewline(s: string)
    ensures Join("\n", SplitNewline(s)) == s
    decreases |s|
  {
    var k := Find(s, '\n');
    if k >= 0 {
      var rest := s[k + 1..];
      JoinSplitNewline(rest);
      JoinCons("\n", s[..k], SplitNewline(rest));
      SplitAround(s, k);
    }
  }

  lemma JoinCons(sep: string, first: string, tail: seq<string>)
    requires |tail| >= 1
    ensures Join(sep, [first] + tail) == first + sep + Join(sep, tail)
  {
    assert ([first] + tail)[1..] == tail;
  }

  lemma SplitAround(s: string, k: nat)
    requires k < |s|
    ensures s == s[..k] + [s[k]] + s[k + 1..]
  {
  }

  /**
   * When '\n' is the only boundary in body and a non-empty boundary-free last
   * line follows it, `splitlines()` agrees with `split("\n")`: the lines of
   * `body + "\n" + last` are the pieces of body followed by last.
   */
  lemma {:induction false} SplitLinesBeforeLastLine(body: string, last: string)
    requires OnlyNewlineBreaks(body)
    requires last != [] && NoLineBreak(last)
    ensures SplitLines(body + "\n" + last) == SplitNewline(body) + [last]
    decreases |body|
  {
    var p := Find(body, '\n');
    if p < 0 {
      SplitLinesSingleBodyLine(body, last);
    } else {
      var head, rest := body[..p], body[p + 1..];
      assert OnlyNewlineBreaks(rest) by {
        forall n | 0 <= n < |rest| && IsLineBreak(rest[n]) ensures rest[n] == '\n' { assert rest[n] == body[p + 1 + n]; }
      }
      calc {
        SplitLines(body + "\n" + last);
        { SplitLinesFirstBodyLine(body, p, last); }
        [head] + SplitLines(rest + "\n" + last);
        { SplitLinesBeforeLastLine(rest, last); }
        [head] + (SplitNewline(rest) + [last]);
        ([head] + SplitNewline(rest)) + [last];
        { assert SplitNewline(body) == [head] + SplitNewline(rest); }
        SplitNewline(body) + [last];
      }
    }
  }

  lemma SplitLinesSingleBodyLine(body: string, last: string)
    requires OnlyNewlineBreaks(body) && '\n' !in body
    requires last != [] && NoLineBreak(last)
    ensures SplitLines(body + "\n" + last) == [body, last]
  {
    var t := body + "\n" + last;
    assert NoLineBreak(body) by {
      forall n | 0 <= n < |body| ensures !IsLineBreak(body[n]) { assert body[n] in body; }
    }
    assert t[..|body|] == body && t[|body| + 1..] == last;
    SplitLinesAtNewline(t, |body|);
    SplitLinesOneLine(last);
  }

  lemma SplitLinesFirstBodyLine(body: string, p: nat, last: string)
    requires OnlyNewlineBreaks(body)
    requires p < |body| && body[p] == '\n' && forall n :: 0 <= n < p ==> body[n] != '\n'
    ensures SplitLines(body + "\n" + last) == [body[..p]] + SplitLines(body[p + 1..] + "\n" + last)
  {
    var t := body + "\n" + last;
    assert NoLineBreak(body[..p]) by {
      forall n | 0 <= n < p ensures !IsLineBreak(body[..p][n]) { assert body[..p][n] == body[n]; }
    }
    assert t[..p] == body[..p] && t[p + 1..] == body[p + 1..] + "\n" + last;
    SplitLinesAtNewline(t, p);
  }

  /** The first line boundary of t is at k when t[k] is '\n' and none comes before it. */
  lemma FirstLineBreakAt(t: string, k: nat)
    requires k < |t| && t[k] == '\n' && NoLineBreak(t[..k])
    ensures FirstLineBreak(t) == k
  {
  }

  /** A '\n' that ends the first line of t splits off exactly that line. */
  lemma SplitLinesAtNewline(t: string, k: nat)
    requires k < |t| && t[k] == '\n' && NoLineBreak(t[..k])
    ensures SplitLines(t) == [t[..k]] + SplitLines(t[k + 1..])
  {
    FirstLineBreakAt(t, k);
    assert BreakWidth(t, k) == 1;
    SplitLinesFirstLine(t, k, t[k + 1..]);
  }
}
