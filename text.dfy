/**
 * The parts of Python's str that the STL reader relies on: splitlines,
 * strip, split with a maximum number of splits, and startswith. Characters
 * are Unicode code points; whitespace and line boundaries are Python's.
 */
module Text {
  /** str.isspace for one character. */
  predicate IsSpace(c: char) {
    var n := c as int;
    || 9 <= n <= 13
    || 28 <= n <= 32
    || n == 0x85 || n == 0xA0 || n == 0x1680
    || 0x2000 <= n <= 0x200A
    || n == 0x2028 || n == 0x2029 || n == 0x202F || n == 0x205F || n == 0x3000
  }

  /** A line boundary for str.splitlines. */
  predicate IsLineBreak(c: char) {
    var n := c as int;
    || 10 <= n <= 13
    || 28 <= n <= 30
    || n == 0x85 || n == 0x2028 || n == 0x2029
  }

  predicate NoBreaks(s: string) {
    forall i :: 0 <= i < |s| ==> !IsLineBreak(s[i])
  }

  /** Two texts without line boundaries make one. */
  lemma NoBreaksJoin(a: string, b: string)
    ensures NoBreaks(a) && NoBreaks(b) ==> NoBreaks(a + b)
  {
    assert forall i :: |a| <= i < |a + b| ==> (a + b)[i] == b[i - |a|];
  }

  predicate NoSpaces(s: string) {
    forall i :: 0 <= i < |s| ==> !IsSpace(s[i])
  }

  /** The index of the first line boundary in s, or |s| when there is none. */
  function FirstBreak(s: string): (k: nat)
    ensures k <= |s|
    ensures k < |s| ==> IsLineBreak(s[k])
    ensures NoBreaks(s[..k])
  {
    if s == [] || IsLineBreak(s[0]) then 0
    else
      var k := 1 + FirstBreak(s[1..]);
      assert s[..k] == [s[0]] + s[1..][..k - 1];
      k
  }

  /** str.splitlines(): "\r\n" is one boundary, and a final boundary opens no empty line. */
  function SplitLines(s: string): (lines: seq<string>)
    ensures forall i :: 0 <= i < |lines| ==> NoBreaks(lines[i])
    ensures s != [] ==> lines != []
    decreases |s|
  {
    if s == [] then []
    else
      var k := FirstBreak(s);
      if k == |s| then [s]
      else
        var next := if s[k] == '\r' && k + 1 < |s| && s[k + 1] == '\n' then k + 2 else k + 1;
        [s[..k]] + SplitLines(s[next..])
  }

  /** The text written by one f.write(line + "\n") per line. */
  function JoinLines(lines: seq<string>): string {
    if lines == [] then [] else lines[0] + "\n" + JoinLines(lines[1..])
  }

  lemma {:induction false} JoinLinesAppend(a: seq<string>, b: seq<string>)
    ensures JoinLines(a + b) == JoinLines(a) + JoinLines(b)
  {
    if a == [] {
      assert a + b == b;
    } else {
      assert (a + b)[0] == a[0];
      assert (a + b)[1..] == a[1..] + b;
      JoinLinesAppend(a[1..], b);
    }
  }

  /** str.lstrip(): the suffix left once the leading whitespace is gone. */
  function LStrip(s: string): (r: string)
    ensures |r| <= |s|
    ensures r != [] ==> !IsSpace(r[0])
  {
    if s != [] && IsSpace(s[0]) then LStrip(s[1..]) else s
  }

  /** lstrip keeps a suffix of s and removes only whitespace. */
  lemma {:induction false} LStripRemovesSpaces(s: string)
    ensures LStrip(s) == s[|s| - |LStrip(s)|..]
    ensures forall i :: 0 <= i < |s| - |LStrip(s)| ==> IsSpace(s[i])
  {
    if s != [] && IsSpace(s[0]) {
      LStripRemovesSpaces(s[1..]);
      assert s[1..][|s| - 1 - |LStrip(s)|..] == s[|s| - |LStrip(s)|..];
      assert forall i :: 1 <= i < |s| ==> s[i] == s[1..][i - 1];
    }
  }

  /** str.rstrip(): the prefix left once the trailing whitespace is gone. */
  function RStrip(s: string): (r: string)
    ensures |r| <= |s|
    ensures r != [] ==> !IsSpace(r[|r| - 1])
  {
    if s != [] && IsSpace(s[|s| - 1]) then RStrip(s[..|s| - 1]) else s
  }

  /** rstrip keeps a prefix of s and removes only whitespace. */
  lemma {:induction false} RStripRemovesSpaces(s: string)
    ensures RStrip(s) == s[..|RStrip(s)|]
    ensures forall i :: |RStrip(s)| <= i < |s| ==> IsSpace(s[i])
  {
    if s != [] && IsSpace(s[|s| - 1]) {
      RStripRemovesSpaces(s[..|s| - 1]);
      assert s[..|s| - 1][..|RStrip(s)|] == s[..|RStrip(s)|];
    }
  }

  /**
   * str.strip(): the part of s between its leading and its trailing
   * whitespace, which neither starts nor ends with whitespace.
   */
  function Strip(s: string): (r: string)
    ensures |r| <= |s|
    ensures r != [] ==> !IsSpace(r[0]) && !IsSpace(r[|r| - 1])
  {
    var t := LStrip(s);
    RStripRemovesSpaces(t);
    RStrip(t)
  }

  /**
   * strip keeps a contiguous part of s, starting where lstrip stops, and what
   * it removes before and after that part is whitespace.
   */
  lemma StripRemovesSpaces(s: string)
    ensures var i, r := |s| - |LStrip(s)|, Strip(s);
      && i + |r| <= |s| && r == s[i..i + |r|]
      && (forall j :: 0 <= j < i ==> IsSpace(s[j]))
      && (forall j :: i + |r| <= j < |s| ==> IsSpace(s[j]))
  {
    var t := LStrip(s);
    var i, r := |s| - |t|, RStrip(t);
    assert t == s[i..] && forall j :: 0 <= j < i ==> IsSpace(s[j]) by {
      LStripRemovesSpaces(s);
    }
    assert r == t[..|r|] && forall j :: |r| <= j < |t| ==> IsSpace(t[j]) by {
      RStripRemovesSpaces(t);
    }
    assert r == s[i..i + |r|];
    forall j | i + |r| <= j < |s| ensures IsSpace(s[j]) {
      assert s[j] == t[j - i];
    }
  }

  /** str.startswith(prefix) */
  predicate StartsWith(s: string, prefix: string) {
    |prefix| <= |s| && s[..|prefix|] == prefix
  }

  /** The longest prefix of s without whitespace. */
  function TakeWord(s: string): (w: string)
    ensures |w| <= |s| && w == s[..|w|] && NoSpaces(w)
    ensures |w| < |s| ==> IsSpace(s[|w|])
    ensures s != [] && !IsSpace(s[0]) ==> w != []
  {
    if s == [] || IsSpace(s[0]) then [] else [s[0]] + TakeWord(s[1..])
  }

  /**
   * str.split(None, maxsplit): words separated by runs of whitespace, at most
   * maxsplit splits; the rest of the string, leading whitespace removed, is the
   * last part.
   */
  function Split(s: string, maxsplit: nat): (parts: seq<string>)
    ensures |parts| <= maxsplit + 1
    ensures forall i :: 0 <= i < |parts| ==> parts[i] != [] && !IsSpace(parts[i][0])
    ensures forall i :: 0 <= i < |parts| - 1 ==> NoSpaces(parts[i])
    decreases |s|
  {
    var t := LStrip(s);
    if t == [] then []
    else if maxsplit == 0 then [t]
    else
      var w := TakeWord(t);
      var rest := Split(t[|w|..], maxsplit - 1);
      WordThenParts(w, rest);
      [w] + rest
  }

  lemma WordThenParts(w: string, rest: seq<string>)
    requires w != [] && !IsSpace(w[0]) && NoSpaces(w)
    requires forall i :: 0 <= i < |rest| ==> rest[i] != [] && !IsSpace(rest[i][0])
    requires forall i :: 0 <= i < |rest| - 1 ==> NoSpaces(rest[i])
    ensures forall i :: 0 <= i < |[w] + rest| ==> ([w] + rest)[i] != [] && !IsSpace(([w] + rest)[i][0])
    ensures forall i :: 0 <= i < |[w] + rest| - 1 ==> NoSpaces(([w] + rest)[i])
  {
    assert forall i :: 1 <= i < |[w] + rest| ==> ([w] + rest)[i] == rest[i - 1];
  }

  lemma FirstBreakAfter(line: string, rest: string)
    requires NoBreaks(line)
    requires rest != [] && IsLineBreak(rest[0])
    ensures FirstBreak(line + rest) == |line|
  {
    var s := line + rest;
    assert s[|line|] == rest[0];
    assert forall i :: 0 <= i < |line| ==> s[i] == line[i];
  }

  /** Lines without boundaries, written one per line, split back into the same lines. */
  lemma {:induction false} SplitLinesJoinLines(lines: seq<string>)
    requires forall i :: 0 <= i < |lines| ==> NoBreaks(lines[i])
    ensures SplitLines(JoinLines(lines)) == lines
  {
    if lines != [] {
      var l, tail := lines[0], JoinLines(lines[1..]);
      var s := JoinLines(lines);
      assert s == l + ("\n" + tail);
      FirstBreakAfter(l, "\n" + tail);
      assert s[|l|] == '\n';
      assert s[..|l|] == l;
      assert s[|l| + 1..] == tail;
      SplitLinesJoinLines(lines[1..]);
    }
  }

  lemma LStripSpaces(spaces: string, s: string)
    requires forall i :: 0 <= i < |spaces| ==> IsSpace(spaces[i])
    requires s != [] && !IsSpace(s[0])
    ensures LStrip(spaces + s) == s
    decreases |spaces|
  {
    if spaces != [] {
      assert (spaces + s)[1..] == spaces[1..] + s;
      LStripSpaces(spaces[1..], s);
    }
  }

  /** Indentation is stripped from a line that ends in a non-space character. */
  lemma StripIndented(spaces: string, s: string)
    requires forall i :: 0 <= i < |spaces| ==> IsSpace(spaces[i])
    requires s != [] && !IsSpace(s[0]) && !IsSpace(s[|s| - 1])
    ensures Strip(spaces + s) == s
  {
    LStripSpaces(spaces, s);
  }

  lemma TakeWordOf(w: string, rest: string)
    requires NoSpaces(w)
    requires rest == [] || IsSpace(rest[0])
    ensures TakeWord(w + rest) == w
    decreases |w|
  {
    var s := w + rest;
    if w != [] {
      assert s[0] == w[0] && !IsSpace(w[0]);
      assert s[1..] == w[1..] + rest;
      assert NoSpaces(w[1..]);
      TakeWordOf(w[1..], rest);
      assert TakeWord(s) == [w[0]] + w[1..];
    } else {
      assert s == rest;
    }
  }

  /** With splits left, a leading word is split off. */
  lemma SplitWord(w: string, rest: string, maxsplit: nat)
    requires w != [] && NoSpaces(w) && maxsplit > 0
    requires rest == [] || IsSpace(rest[0])
    ensures Split(w + rest, maxsplit) == [w] + Split(rest, maxsplit - 1)
  {
    var s := w + rest;
    assert s[0] == w[0];
    assert LStrip(s) == s;
    TakeWordOf(w, rest);
    assert s[|w|..] == rest;
  }

  /** Leading whitespace never makes a part of its own. */
  lemma SplitSpace(c: char, rest: string, maxsplit: nat)
    requires IsSpace(c)
    ensures Split([c] + rest, maxsplit) == Split(rest, maxsplit)
  {
    assert ([c] + rest)[1..] == rest;
  }

  /** With no splits left, the rest is one part. */
  lemma SplitLast(w: string)
    requires w != [] && !IsSpace(w[0])
    ensures Split(w, 0) == [w]
  {
  }
}
