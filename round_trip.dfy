/**
 * The fallback writer's ASCII STL read back by the preview's ASCII parser:
 * every facet comes back as the triangle that was written, each coordinate
 * passed once through the number format and back.
 */
module RoundTrip {
  import opened Results
  import opened Vectors
  import opened Text
  import opened Mesh
  import opened StlReader

  /**
   * What the round trip needs of the number format: every number is written
   * as one non-empty word, and reading that word back gives the number
   * rounded by q (for "%.8e", to nine significant digits).
   */
  ghost predicate Rereadable(fmt: real -> string, parseFloat: string -> Option<real>, q: real -> real) {
    forall x :: fmt(x) != [] && NoSpaces(fmt(x)) && parseFloat(fmt(x)) == Some(q(x))
  }

  function Reread(v: Vec3, q: real -> real): Vec3 {
    Vec3(q(v.x), q(v.y), q(v.z))
  }

  function RereadTriangle(t: Triangle, q: real -> real): Triangle {
    Triangle(Reread(t.a, q), Reread(t.b, q), Reread(t.c, q))
  }

  function RereadAll(tris: seq<Triangle>, q: real -> real): (ts: seq<Triangle>)
    ensures |ts| == |tris|
    ensures forall k :: 0 <= k < |ts| ==> ts[k] == RereadTriangle(tris[k], q)
  {
    seq(|tris|, k requires 0 <= k < |tris| => RereadTriangle(tris[k], q))
  }

  /** A vertex line as the parser sees it once stripped. */
  function VertexWords(v: Vec3, fmt: real -> string): string {
    NumbersLine("vertex ", fmt(v.x), fmt(v.y), fmt(v.z))
  }

  /** Whitespace includes every line boundary. */
  lemma SpacelessBreakless(s: string)
    requires NoSpaces(s)
    ensures NoBreaks(s)
  {
  }

  /** Three numbers after a fixed start, one space apart: the shape of the normal and vertex lines. */
  function NumbersLine(start: string, a: string, b: string, c: string): string {
    start + a + " " + b + " " + c
  }

  lemma NumbersLineBreakless(start: string, a: string, b: string, c: string)
    requires NoBreaks(start) && NoSpaces(a) && NoSpaces(b) && NoSpaces(c)
    ensures NoBreaks(NumbersLine(start, a, b, c))
  {
    SpacelessBreakless(a);
    SpacelessBreakless(b);
    SpacelessBreakless(c);
    NoBreaksJoin(start, a);
    NoBreaksJoin(start + a, " ");
    NoBreaksJoin(start + a + " ", b);
    NoBreaksJoin(start + a + " " + b, " ");
    NoBreaksJoin(start + a + " " + b + " ", c);
  }

  /** Stripping removes the indentation and nothing else when the last number is a non-empty word. */
  lemma NumbersLineStrip(indent: string, start: string, a: string, b: string, c: string)
    requires forall i :: 0 <= i < |indent| ==> IsSpace(indent[i])
    requires start != [] && !IsSpace(start[0])
    requires c != [] && NoSpaces(c)
    ensures Strip(NumbersLine(indent + start, a, b, c)) == NumbersLine(start, a, b, c)
  {
    var s := NumbersLine(start, a, b, c);
    assert NumbersLine(indent + start, a, b, c) == indent + s;
    assert s[0] == start[0];
    assert s[|s| - 1] == c[|c| - 1];
    StripIndented(indent, s);
  }

  /** A stripped vertex line splits into the keyword and the three numbers. */
  lemma SplitVertexWords(a: string, b: string, c: string)
    requires a != [] && b != [] && c != []
    requires NoSpaces(a) && NoSpaces(b) && NoSpaces(c)
    ensures Split(NumbersLine("vertex ", a, b, c), 3) == ["vertex", a, b, c]
  {
    var bc := " " + c;
    var abc := " " + (b + bc);
    var all := " " + (a + abc);
    assert NumbersLine("vertex ", a, b, c) == "vertex" + all;
    calc {
      Split("vertex" + all, 3);
      { assert NoSpaces("vertex"); SplitWord("vertex", all, 3); }
      ["vertex"] + Split(all, 2);
      { SplitSpace(' ', a + abc, 2); SplitWord(a, abc, 2); }
      ["vertex"] + ([a] + Split(abc, 1));
      { SplitSpace(' ', b + bc, 1); SplitWord(b, bc, 1); }
      ["vertex"] + ([a] + ([b] + Split(bc, 0)));
      { SplitSpace(' ', c, 0); SplitLast(c); }
      ["vertex"] + ([a] + ([b] + [c]));
    }
  }

  lemma ParseVertexWords(v: Vec3, fmt: real -> string, parseFloat: string -> Option<real>, q: real -> real)
    requires Rereadable(fmt, parseFloat, q)
    ensures ParseVertex(NumbersLine("vertex ", fmt(v.x), fmt(v.y), fmt(v.z)), parseFloat) == Some(Reread(v, q))
  {
    SplitVertexWords(fmt(v.x), fmt(v.y), fmt(v.z));
  }

  lemma NotVertexLine(s: string)
    requires s != [] && s[0] != 'v'
    ensures !IsVertexLine(s)
  {
    if |VertexPrefix| <= |s| {
      assert s[..|VertexPrefix|][0] == s[0];
    }
  }

  /** An indented keyword line that does not begin with "v" is skipped by the parser. */
  lemma OtherLineSkipped(indent: string, s: string)
    requires forall i :: 0 <= i < |indent| ==> IsSpace(indent[i])
    requires s != [] && !IsSpace(s[0]) && !IsSpace(s[|s| - 1]) && s[0] != 'v'
    ensures !IsVertexLine(Strip(indent + s))
  {
    StripIndented(indent, s);
  }

  /** The written vertex line, once stripped, is the vertex keyword and the three numbers. */
  lemma VertexLineStrip(v: Vec3, fmt: real -> string, parseFloat: string -> Option<real>, q: real -> real)
    requires Rereadable(fmt, parseFloat, q)
    ensures Strip(VertexLine(v, fmt)) == VertexWords(v, fmt)
    ensures IsVertexLine(VertexWords(v, fmt))
  {
    assert VertexLine(v, fmt) == NumbersLine("      " + "vertex ", fmt(v.x), fmt(v.y), fmt(v.z));
    NumbersLineStrip("      ", "vertex ", fmt(v.x), fmt(v.y), fmt(v.z));
    var w := VertexWords(v, fmt);
    assert w[..|VertexPrefix|] == VertexPrefix;
  }

  /** The facet's normal line is skipped. */
  lemma NormalLineSkipped(n: Vec3, fmt: real -> string, parseFloat: string -> Option<real>, q: real -> real)
    requires Rereadable(fmt, parseFloat, q)
    ensures !IsVertexLine(Strip("  facet normal " + fmt(n.x) + " " + fmt(n.y) + " " + fmt(n.z)))
  {
    var head := NumbersLine("facet normal ", fmt(n.x), fmt(n.y), fmt(n.z));
    assert "  facet normal " + fmt(n.x) + " " + fmt(n.y) + " " + fmt(n.z)
        == NumbersLine("  " + "facet normal ", fmt(n.x), fmt(n.y), fmt(n.z));
    NumbersLineStrip("  ", "facet normal ", fmt(n.x), fmt(n.y), fmt(n.z));
    assert head[0] == 'f';
    NotVertexLine(head);
  }

  /** The loop and facet keyword lines are skipped. */
  lemma KeywordLinesSkipped()
    ensures !IsVertexLine(Strip("    outer loop"))
    ensures !IsVertexLine(Strip("    endloop"))
    ensures !IsVertexLine(Strip("  endfacet"))
  {
    assert "    outer loop" == "    " + "outer loop";
    OtherLineSkipped("    ", "outer loop");
    assert "    endloop" == "    " + "endloop";
    OtherLineSkipped("    ", "endloop");
    assert "  endfacet" == "  " + "endfacet";
    OtherLineSkipped("  ", "endfacet");
  }

  /** Seven lines of which only the middle three are vertex lines. */
  lemma SevenLines(ls: seq<string>)
    requires |ls| == 7
    requires !IsVertexLine(Strip(ls[0])) && !IsVertexLine(Strip(ls[1]))
    requires IsVertexLine(Strip(ls[2])) && IsVertexLine(Strip(ls[3])) && IsVertexLine(Strip(ls[4]))
    requires !IsVertexLine(Strip(ls[5])) && !IsVertexLine(Strip(ls[6]))
    ensures VertexLines(ls) == [Strip(ls[2]), Strip(ls[3]), Strip(ls[4])]
  {
    assert ls[..0] == [];
    TwoSkipped(ls, 0, []);
    ThreeKept(ls, 2, []);
    TwoSkipped(ls, 5, [] + [Strip(ls[2]), Strip(ls[3]), Strip(ls[4])]);
    assert ls[..7] == ls;
  }

  /** A line the reader does not take as a vertex line leaves the collected lines as they were. */
  lemma LineSkipped(ls: seq<string>, i: nat, acc: seq<string>)
    requires i < |ls| && VertexLines(ls[..i]) == acc && !IsVertexLine(Strip(ls[i]))
    ensures VertexLines(ls[..i + 1]) == acc
  {
    VertexLinesStep(ls, i);
  }

  /** A vertex line is appended, stripped, to the collected lines. */
  lemma LineKept(ls: seq<string>, i: nat, acc: seq<string>)
    requires i < |ls| && VertexLines(ls[..i]) == acc && IsVertexLine(Strip(ls[i]))
    ensures VertexLines(ls[..i + 1]) == acc + [Strip(ls[i])]
  {
    VertexLinesStep(ls, i);
  }

  /** Two lines in a row that are not vertex lines add nothing. */
  lemma TwoSkipped(ls: seq<string>, i: nat, acc: seq<string>)
    requires i + 2 <= |ls| && VertexLines(ls[..i]) == acc
    requires !IsVertexLine(Strip(ls[i])) && !IsVertexLine(Strip(ls[i + 1]))
    ensures VertexLines(ls[..i + 2]) == acc
  {
    LineSkipped(ls, i, acc);
    LineSkipped(ls, i + 1, acc);
  }

  /** Three vertex lines in a row are appended, stripped and in order. */
  lemma ThreeKept(ls: seq<string>, i: nat, acc: seq<string>)
    requires i + 3 <= |ls| && VertexLines(ls[..i]) == acc
    requires IsVertexLine(Strip(ls[i])) && IsVertexLine(Strip(ls[i + 1])) && IsVertexLine(Strip(ls[i + 2]))
    ensures VertexLines(ls[..i + 3]) == acc + [Strip(ls[i]), Strip(ls[i + 1]), Strip(ls[i + 2])]
  {
    LineKept(ls, i, acc);
    LineKept(ls, i + 1, acc + [Strip(ls[i])]);
    LineKept(ls, i + 2, acc + [Strip(ls[i])] + [Strip(ls[i + 1])]);
  }

  /** Of a facet's seven lines, exactly the three vertex lines reach the parser. */
  lemma FacetVertexLines(t: Triangle, sqrt: real -> real, fmt: real -> string, parseFloat: string -> Option<real>, q: real -> real)
    requires Rereadable(fmt, parseFloat, q)
    ensures VertexLines(FacetLines(t, sqrt, fmt)) == [VertexWords(t.a, fmt), VertexWords(t.b, fmt), VertexWords(t.c, fmt)]
  {
    var ls := FacetLines(t, sqrt, fmt);
    var n := Normal(t, sqrt);
    assert ls[0] == "  facet normal " + fmt(n.x) + " " + fmt(n.y) + " " + fmt(n.z);
    assert ls[1] == "    outer loop" && ls[5] == "    endloop" && ls[6] == "  endfacet";
    assert ls[2] == VertexLine(t.a, fmt) && ls[3] == VertexLine(t.b, fmt) && ls[4] == VertexLine(t.c, fmt);
    NormalLineSkipped(n, fmt, parseFloat, q);
    KeywordLinesSkipped();
    VertexLineStrip(t.a, fmt, parseFloat, q);
    VertexLineStrip(t.b, fmt, parseFloat, q);
    VertexLineStrip(t.c, fmt, parseFloat, q);
    SevenLines(ls);
  }

  /** The stripped vertex lines the writer emits, three per triangle, in order. */
  function WrittenVertexWords(tris: seq<Triangle>, fmt: real -> string): (ws: seq<string>)
    ensures |ws| == 3 * |tris|
  {
    if tris == [] then []
    else
      var t := tris[|tris| - 1];
      WrittenVertexWords(tris[..|tris| - 1], fmt) + [VertexWords(t.a, fmt), VertexWords(t.b, fmt), VertexWords(t.c, fmt)]
  }

  /** The vertices of the triangles, three per triangle, in order. */
  function Corners(tris: seq<Triangle>): (vs: seq<Vec3>)
    ensures |vs| == 3 * |tris|
  {
    if tris == [] then []
    else
      var t := tris[|tris| - 1];
      Corners(tris[..|tris| - 1]) + [t.a, t.b, t.c]
  }

  lemma {:induction false} FacetsVertexLines(tris: seq<Triangle>, sqrt: real -> real, fmt: real -> string, parseFloat: string -> Option<real>, q: real -> real)
    requires Rereadable(fmt, parseFloat, q)
    ensures VertexLines(AllFacetLines(tris, sqrt, fmt)) == WrittenVertexWords(tris, fmt)
  {
    if tris != [] {
      var init, t := tris[..|tris| - 1], tris[|tris| - 1];
      FacetsVertexLines(init, sqrt, fmt, parseFloat, q);
      VertexLinesAppend(AllFacetLines(init, sqrt, fmt), FacetLines(t, sqrt, fmt));
      FacetVertexLines(t, sqrt, fmt, parseFloat, q);
    }
  }

  /** The solid's first and last lines are skipped. */
  lemma SolidLinesSkipped()
    ensures VertexLines(["solid " + SolidName]) == []
    ensures VertexLines(["endsolid " + SolidName]) == []
  {
    var first, last := "solid " + SolidName, "endsolid " + SolidName;
    StripIndented([], first);
    assert [] + first == first;
    NotVertexLine(first);
    VertexLinesOfOther(first);
    StripIndented([], last);
    assert [] + last == last;
    NotVertexLine(last);
    VertexLinesOfOther(last);
  }

  lemma StlVertexLines(tris: seq<Triangle>, sqrt: real -> real, fmt: real -> string, parseFloat: string -> Option<real>, q: real -> real)
    requires Rereadable(fmt, parseFloat, q)
    ensures VertexLines(StlLines(tris, sqrt, fmt)) == WrittenVertexWords(tris, fmt)
  {
    var body := AllFacetLines(tris, sqrt, fmt);
    SolidLinesSkipped();
    VertexLinesAppend(["solid " + SolidName] + body, ["endsolid " + SolidName]);
    VertexLinesAppend(["solid " + SolidName], body);
    FacetsVertexLines(tris, sqrt, fmt, parseFloat, q);
    assert [] + WrittenVertexWords(tris, fmt) + [] == WrittenVertexWords(tris, fmt);
  }

  lemma ParseOneMore(ws: seq<string>, vs: seq<Vec3>, line: string, v: Vec3, parseFloat: string -> Option<real>)
    requires ParseVertices(ws, parseFloat) == Success(vs)
    requires ParseVertex(line, parseFloat) == Some(v)
    ensures ParseVertices(ws + [line], parseFloat) == Success(vs + [v])
  {
    ParseVerticesSnoc(ws, line, parseFloat);
  }

  lemma ParseThree(ws: seq<string>, vs: seq<Vec3>, la: string, lb: string, lc: string, r: Triangle, parseFloat: string -> Option<real>)
    requires ParseVertices(ws, parseFloat) == Success(vs)
    requires ParseVertex(la, parseFloat) == Some(r.a)
    requires ParseVertex(lb, parseFloat) == Some(r.b)
    requires ParseVertex(lc, parseFloat) == Some(r.c)
    ensures ParseVertices(ws + [la, lb, lc], parseFloat) == Success(vs + [r.a, r.b, r.c])
  {
    var w1, w2 := ws + [la], ws + [la] + [lb];
    ParseOneMore(ws, vs, la, r.a, parseFloat);
    ParseOneMore(w1, vs + [r.a], lb, r.b, parseFloat);
    ParseOneMore(w2, vs + [r.a] + [r.b], lc, r.c, parseFloat);
    AppendThree(ws, la, lb, lc);
    AppendThree(vs, r.a, r.b, r.c);
  }

  lemma AppendThree<T>(s: seq<T>, a: T, b: T, c: T)
    ensures s + [a] + [b] + [c] == s + [a, b, c]
  {
  }

  /** Every written vertex line parses, to the vertex with each coordinate reread. */
  lemma {:induction false} ParseWritten(tris: seq<Triangle>, fmt: real -> string, parseFloat: string -> Option<real>, q: real -> real)
    requires Rereadable(fmt, parseFloat, q)
    ensures ParseVertices(WrittenVertexWords(tris, fmt), parseFloat) == Success(Corners(RereadAll(tris, q)))
  {
    if tris != [] {
      var init, t := tris[..|tris| - 1], tris[|tris| - 1];
      var ws := WrittenVertexWords(init, fmt);
      ParseWritten(init, fmt, parseFloat, q);
      ParseVertexWords(t.a, fmt, parseFloat, q);
      ParseVertexWords(t.b, fmt, parseFloat, q);
      ParseVertexWords(t.c, fmt, parseFloat, q);
      var r := RereadTriangle(t, q);
      ParseThree(ws, Corners(RereadAll(init, q)), VertexWords(t.a, fmt), VertexWords(t.b, fmt), VertexWords(t.c, fmt), r, parseFloat);
      var rs := RereadAll(tris, q);
      assert rs[..|rs| - 1] == RereadAll(init, q);
      assert Corners(rs) == Corners(RereadAll(init, q)) + [r.a, r.b, r.c];
    }
  }

  /** Grouping the corners in threes gives the triangles back. */
  lemma {:induction false} GroupCorners(tris: seq<Triangle>)
    ensures Group3(Corners(tris)) == tris
  {
    var vs := Corners(tris);
    forall k | 0 <= k < |tris|
      ensures Triangle(vs[3 * k], vs[3 * k + 1], vs[3 * k + 2]) == tris[k]
    {
      CornersAt(tris, k);
    }
  }

  lemma {:induction false} CornersAt(tris: seq<Triangle>, k: nat)
    requires k < |tris|
    ensures var vs := Corners(tris);
      vs[3 * k] == tris[k].a && vs[3 * k + 1] == tris[k].b && vs[3 * k + 2] == tris[k].c
  {
    var init := tris[..|tris| - 1];
    if k < |init| {
      CornersAt(init, k);
      assert init[k] == tris[k];
    }
  }

  /** No line holds a line boundary, so splitting the text finds the same lines. */
  predicate LinesBreakless(lines: seq<string>) {
    forall i :: 0 <= i < |lines| ==> NoBreaks(lines[i])
  }

  lemma BreaklessJoin(a: seq<string>, b: seq<string>)
    requires LinesBreakless(a) && LinesBreakless(b)
    ensures LinesBreakless(a + b)
  {
    assert forall i :: |a| <= i < |a + b| ==> (a + b)[i] == b[i - |a|];
  }

  lemma FacetBreakless(t: Triangle, sqrt: real -> real, fmt: real -> string, parseFloat: string -> Option<real>, q: real -> real)
    requires Rereadable(fmt, parseFloat, q)
    ensures LinesBreakless(FacetLines(t, sqrt, fmt))
  {
    var ls := FacetLines(t, sqrt, fmt);
    var n := Normal(t, sqrt);
    assert NoBreaks(ls[0]) by {
      assert ls[0] == NumbersLine("  facet normal ", fmt(n.x), fmt(n.y), fmt(n.z));
      NumbersLineBreakless("  facet normal ", fmt(n.x), fmt(n.y), fmt(n.z));
    }
    assert NoBreaks(ls[1]) && NoBreaks(ls[5]) && NoBreaks(ls[6]) by {
      KeywordLinesBreakless();
    }
    assert NoBreaks(ls[2]) by {
      VertexLineBreakless(t.a, fmt, parseFloat, q);
    }
    assert NoBreaks(ls[3]) by {
      VertexLineBreakless(t.b, fmt, parseFloat, q);
    }
    assert NoBreaks(ls[4]) by {
      VertexLineBreakless(t.c, fmt, parseFloat, q);
    }
  }

  lemma KeywordLinesBreakless()
    ensures NoBreaks("    outer loop") && NoBreaks("    endloop") && NoBreaks("  endfacet")
  {
  }

  lemma VertexLineBreakless(v: Vec3, fmt: real -> string, parseFloat: string -> Option<real>, q: real -> real)
    requires Rereadable(fmt, parseFloat, q)
    ensures NoBreaks(VertexLine(v, fmt))
  {
    assert VertexLine(v, fmt) == NumbersLine("      vertex ", fmt(v.x), fmt(v.y), fmt(v.z));
    NumbersLineBreakless("      vertex ", fmt(v.x), fmt(v.y), fmt(v.z));
  }

  lemma {:induction false} FacetsBreakless(tris: seq<Triangle>, sqrt: real -> real, fmt: real -> string, parseFloat: string -> Option<real>, q: real -> real)
    requires Rereadable(fmt, parseFloat, q)
    ensures LinesBreakless(AllFacetLines(tris, sqrt, fmt))
  {
    if tris != [] {
      var init := tris[..|tris| - 1];
      FacetsBreakless(init, sqrt, fmt, parseFloat, q);
      FacetBreakless(tris[|tris| - 1], sqrt, fmt, parseFloat, q);
      BreaklessJoin(AllFacetLines(init, sqrt, fmt), FacetLines(tris[|tris| - 1], sqrt, fmt));
    }
  }

  lemma StlBreakless(tris: seq<Triangle>, sqrt: real -> real, fmt: real -> string, parseFloat: string -> Option<real>, q: real -> real)
    requires Rereadable(fmt, parseFloat, q)
    ensures LinesBreakless(StlLines(tris, sqrt, fmt))
  {
    var head, body, tail := ["solid " + SolidName], AllFacetLines(tris, sqrt, fmt), ["endsolid " + SolidName];
    assert LinesBreakless(body) by {
      FacetsBreakless(tris, sqrt, fmt, parseFloat, q);
    }
    assert LinesBreakless(head) && LinesBreakless(tail) by {
      SolidLinesBreakless();
    }
    BreaklessJoin(head, body);
    BreaklessJoin(head + body, tail);
  }

  lemma SolidLinesBreakless()
    ensures LinesBreakless(["solid " + SolidName]) && LinesBreakless(["endsolid " + SolidName])
  {
    assert NoBreaks("solid " + SolidName) && NoBreaks("endsolid " + SolidName);
  }

  /**
   * The round trip: the preview's ASCII parser reads the fallback writer's
   * text back as the triangles that were written, in order, each coordinate
   * passed once through the number format.
   */
  lemma WriteThenRead(tris: seq<Triangle>, sqrt: real -> real, fmt: real -> string, parseFloat: string -> Option<real>, q: real -> real)
    requires Rereadable(fmt, parseFloat, q)
    ensures AsciiTriangles(JoinLines(StlLines(tris, sqrt, fmt)), parseFloat) == Success(RereadAll(tris, q))
  {
    var lines := StlLines(tris, sqrt, fmt);
    StlBreakless(tris, sqrt, fmt, parseFloat, q);
    SplitLinesJoinLines(lines);
    StlVertexLines(tris, sqrt, fmt, parseFloat, q);
    ParseWritten(tris, fmt, parseFloat, q);
    GroupCorners(RereadAll(tris, q));
  }
}
