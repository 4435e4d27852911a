/**
 * The STL reader of the preview renderer: the ASCII parser that groups
 * vertex lines into triangles, the binary parser over the 80-byte header,
 * the little-endian triangle count and 50-byte records, and the dispatch
 * between the two.
 */
module StlReader {
  import opened Results
  import opened Numerics
  import opened Vectors
  import opened Text

  type Byte = b: int | 0 <= b < 256

  datatype ReadError =
    | MalformedVertex(line: string)  // a vertex line without three numbers
    | HeaderTooShort                 // fewer than 84 bytes
    | Truncated                      // fewer bytes than the count's records need

  const VertexPrefix := "vertex "

  /** A stripped line that the ASCII parser reads as a vertex. */
  predicate IsVertexLine(line: string) {
    StartsWith(line, VertexPrefix)
  }

  /** The stripped vertex lines, in order; every other line is skipped. */
  function VertexLines(lines: seq<string>): (vls: seq<string>)
    ensures |vls| <= |lines|
  {
    if lines == [] then []
    else
      var line := Strip(lines[|lines| - 1]);
      VertexLines(lines[..|lines| - 1]) + (if IsVertexLine(line) then [line] else [])
  }

  lemma {:induction false} VertexLinesAppend(a: seq<string>, b: seq<string>)
    ensures VertexLines(a + b) == VertexLines(a) + VertexLines(b)
    decreases |b|
  {
    if b != [] {
      var b' := b[..|b| - 1];
      assert (a + b)[..|a + b| - 1] == a + b';
      VertexLinesAppend(a, b');
    } else {
      assert a + b == a;
    }
  }

  /**
   * The three numbers after "vertex": the line is split at most three times,
   * must give exactly four parts, and each number must parse.
   */
  function ParseVertex(line: string, parseFloat: string -> Option<real>): (v: Option<Vec3>)
    ensures var parts := Split(line, 3);
      v.Some? <==> |parts| == 4 && forall i :: 1 <= i < 4 ==> parseFloat(parts[i]).Some?
    ensures v.Some? ==> var parts := Split(line, 3);
      v.value == Vec3(parseFloat(parts[1]).value, parseFloat(parts[2]).value, parseFloat(parts[3]).value)
  {
    var parts := Split(line, 3);
    if |parts| != 4 then None
    else
      match (parseFloat(parts[1]), parseFloat(parts[2]), parseFloat(parts[3]))
      case (Some(x), Some(y), Some(z)) => Some(Vec3(x, y, z))
      case _ => None
  }

  /** Every vertex line parsed, or the first one that does not parse. */
  function ParseVertices(vls: seq<string>, parseFloat: string -> Option<real>): (r: Result<seq<Vec3>, ReadError>)
    ensures r.Success? ==> |r.value| == |vls|
  {
    if vls == [] then Success([])
    else
      match ParseVertices(vls[..|vls| - 1], parseFloat)
      case Failure(e) => Failure(e)
      case Success(vs) =>
        match ParseVertex(vls[|vls| - 1], parseFloat)
        case None => Failure(MalformedVertex(vls[|vls| - 1]))
        case Some(v) => Success(vs + [v])
  }

  /** Consecutive triples of vertices; an incomplete last triple is dropped. */
  function Group3(vs: seq<Vec3>): (ts: seq<Triangle>)
    ensures |ts| == |vs| / 3
    ensures forall k :: 0 <= k < |ts| ==> ts[k] == Triangle(vs[3 * k], vs[3 * k + 1], vs[3 * k + 2])
  {
    seq(|vs| / 3, k requires 0 <= k < |vs| / 3 => Triangle(vs[3 * k], vs[3 * k + 1], vs[3 * k + 2]))
  }

  /** What the ASCII parser returns for a list of lines. */
  function AsciiTrianglesOfLines(lines: seq<string>, parseFloat: string -> Option<real>): Result<seq<Triangle>, ReadError> {
    match ParseVertices(VertexLines(lines), parseFloat)
    case Failure(e) => Failure(e)
    case Success(vs) => Success(Group3(vs))
  }

  function AsciiTriangles(text: string, parseFloat: string -> Option<real>): Result<seq<Triangle>, ReadError> {
    AsciiTrianglesOfLines(SplitLines(text), parseFloat)
  }

  /** With k vertex lines that all parse, the parser returns floor(k / 3) triangles. */
  lemma AsciiTriangleCount(lines: seq<string>, parseFloat: string -> Option<real>)
    requires AsciiTrianglesOfLines(lines, parseFloat).Success?
    ensures |AsciiTrianglesOfLines(lines, parseFloat).value| == |VertexLines(lines)| / 3
  {
  }

  /** The vertex lines of a prefix grow by at most the next line, stripped. */
  lemma VertexLinesStep(lines: seq<string>, i: nat)
    requires i < |lines|
    ensures VertexLines(lines[..i + 1])
         == VertexLines(lines[..i]) + (if IsVertexLine(Strip(lines[i])) then [Strip(lines[i])] else [])
  {
    assert lines[..i + 1][..i] == lines[..i];
  }

  lemma VertexLinesOfOther(line: string)
    requires !IsVertexLine(Strip(line))
    ensures VertexLines([line]) == []
  {
    VertexLinesStep([line], 0);
    assert [line][..0] == [] && [line][..1] == [line];
  }

  lemma {:induction false} VertexLinesSkip(before: seq<string>, line: string, after: seq<string>)
    requires VertexLines([line]) == []
    ensures VertexLines(before + [line] + after) == VertexLines(before + after)
  {
    calc {
      VertexLines(before + [line] + after);
      { VertexLinesAppend(before + [line], after); }
      VertexLines(before + [line]) + VertexLines(after);
      { VertexLinesAppend(before, [line]); }
      VertexLines(before) + VertexLines([line]) + VertexLines(after);
      { assert VertexLines(before) + [] == VertexLines(before); }
      VertexLines(before) + VertexLines(after);
      { VertexLinesAppend(before, after); }
      VertexLines(before + after);
    }
  }

  /** Lines that are not vertex lines (facet, normal, loop keywords, blank lines) do not change the result. */
  lemma NonVertexLineIgnored(before: seq<string>, line: string, after: seq<string>, parseFloat: string -> Option<real>)
    requires !IsVertexLine(Strip(line))
    ensures AsciiTrianglesOfLines(before + [line] + after, parseFloat)
         == AsciiTrianglesOfLines(before + after, parseFloat)
  {
    VertexLinesOfOther(line);
    VertexLinesSkip(before, line, after);
  }

  lemma ParseVerticesSnoc(vls: seq<string>, line: string, parseFloat: string -> Option<real>)
    ensures ParseVertices(vls + [line], parseFloat)
         == match ParseVertices(vls, parseFloat)
            case Failure(e) => Failure(e)
            case Success(vs) =>
              match ParseVertex(line, parseFloat)
              case None => Failure(MalformedVertex(line))
              case Some(v) => Success(vs + [v])
  {
    assert (vls + [line])[..|vls|] == vls;
  }

  /** A line that does not parse ends the parse: later lines cannot change the error. */
  lemma {:induction false} ParseVerticesFailureSticks(a: seq<string>, b: seq<string>, parseFloat: string -> Option<real>)
    requires ParseVertices(a, parseFloat).Failure?
    ensures ParseVertices(a + b, parseFloat) == ParseVertices(a, parseFloat)
    decreases |b|
  {
    if b == [] {
      assert a + b == a;
    } else {
      var b' := b[..|b| - 1];
      ParseVerticesFailureSticks(a, b', parseFloat);
      assert (a + b)[..|a + b| - 1] == a + b';
    }
  }

  /** One more line: either skipped, or parsed as the next vertex. */
  lemma ParseStep(lines: seq<string>, i: nat, parseFloat: string -> Option<real>, vs: seq<Vec3>)
    requires i < |lines|
    requires ParseVertices(VertexLines(lines[..i]), parseFloat) == Success(vs)
    ensures var line := Strip(lines[i]);
      ParseVertices(VertexLines(lines[..i + 1]), parseFloat)
      == if !IsVertexLine(line) then Success(vs)
         else match ParseVertex(line, parseFloat)
              case None => Failure(MalformedVertex(line))
              case Some(v) => Success(vs + [v])
  {
    VertexLinesStep(lines, i);
    var line := Strip(lines[i]);
    if IsVertexLine(line) {
      ParseVerticesSnoc(VertexLines(lines[..i]), line, parseFloat);
    } else {
      assert VertexLines(lines[..i]) + [] == VertexLines(lines[..i]);
    }
  }

  /** A failure on a prefix of the lines is the result for all of them. */
  lemma PrefixFailure(lines: seq<string>, n: nat, parseFloat: string -> Option<real>)
    requires n <= |lines|
    requires ParseVertices(VertexLines(lines[..n]), parseFloat).Failure?
    ensures AsciiTrianglesOfLines(lines, parseFloat) == Failure(ParseVertices(VertexLines(lines[..n]), parseFloat).error)
  {
    assert lines[..n] + lines[n..] == lines;
    VertexLinesAppend(lines[..n], lines[n..]);
    ParseVerticesFailureSticks(VertexLines(lines[..n]), VertexLines(lines[n..]), parseFloat);
  }

  /** The parser's state: the finished triangles and the pending vertices are exactly the vertices read so far. */
  ghost predicate Buffered(triangles: seq<Triangle>, current: seq<Vec3>, vs: seq<Vec3>) {
    && |triangles| == |vs| / 3
    && |current| == |vs| % 3
    && current == vs[3 * |triangles|..]
    && forall k :: 0 <= k < |triangles| ==> triangles[k] == Triangle(vs[3 * k], vs[3 * k + 1], vs[3 * k + 2])
  }

  lemma BufferedStep(triangles: seq<Triangle>, current: seq<Vec3>, vs: seq<Vec3>, v: Vec3)
    requires Buffered(triangles, current, vs)
    ensures var c := current + [v];
      if |c| == 3 then Buffered(triangles + [Triangle(c[0], c[1], c[2])], [], vs + [v])
      else Buffered(triangles, c, vs + [v])
  {
    var vs' := vs + [v];
    assert vs'[3 * |triangles|..] == current + [v];
  }

  /** The ASCII parser: a line scanner with a buffer of at most two pending vertices. */
  method ParseAsciiStl(text: string, parseFloat: string -> Option<real>) returns (result: Result<seq<Triangle>, ReadError>)
    ensures result == AsciiTriangles(text, parseFloat)
  {
    var lines := SplitLines(text);
    var triangles: seq<Triangle> := [];
    var current: seq<Vec3> := [];
    ghost var vs: seq<Vec3> := [];
    for i := 0 to |lines|
      invariant ParseVertices(VertexLines(lines[..i]), parseFloat) == Success(vs)
      invariant Buffered(triangles, current, vs)
    {
      ParseStep(lines, i, parseFloat, vs);
      var line := Strip(lines[i]);
      if !StartsWith(line, VertexPrefix) {
        continue;
      }
      var v := ParseVertex(line, parseFloat);
      if v.None? {
        PrefixFailure(lines, i + 1, parseFloat);
        return Failure(MalformedVertex(line));
      }
      BufferedStep(triangles, current, vs, v.value);
      current := current + [v.value];
      vs := vs + [v.value];
      if |current| == 3 {
        triangles := triangles + [Triangle(current[0], current[1], current[2])];
        current := [];
      }
    }
    assert lines[..|lines|] == lines;
    assert triangles == Group3(vs);
    return Success(triangles);
  }

  /** An unsigned 32-bit integer read little-endian from four bytes. */
  function U32LE(bs: seq<Byte>): (n: nat)
    requires |bs| == 4
    ensures n < 0x1_0000_0000
  {
    var b0, b1, b2, b3: int := bs[0], bs[1], bs[2], bs[3];
    b0 + 0x100 * b1 + 0x1_0000 * b2 + 0x100_0000 * b3
  }

  /** The four little-endian bytes of an unsigned 32-bit integer. */
  function EncodeU32LE(n: nat): (bs: seq<Byte>)
    requires n < 0x1_0000_0000
    ensures |bs| == 4
  {
    [n % 0x100, (n / 0x100) % 0x100, (n / 0x1_0000) % 0x100, n / 0x100_0000]
  }

  /** The count encoding is a bijection between 32-bit integers and four bytes. */
  lemma U32RoundTrip(n: nat, bs: seq<Byte>)
    requires n < 0x1_0000_0000 && |bs| == 4
    ensures U32LE(EncodeU32LE(n)) == n
    ensures EncodeU32LE(U32LE(bs)) == bs
  {
    DecodeEncode(n);
    EncodeDecode(bs);
  }

  lemma DecodeEncode(n: nat)
    requires n < 0x1_0000_0000
    ensures U32LE(EncodeU32LE(n)) == n
  {
    var b0, q0 := n % 0x100, n / 0x100;
    var b1, q1 := q0 % 0x100, q0 / 0x100;
    var b2, b3 := q1 % 0x100, q1 / 0x100;
    DivModUnique(n, 0x1_0000, q1, b0 + 0x100 * b1);
    DivModUnique(n, 0x100_0000, b3, b0 + 0x100 * b1 + 0x1_0000 * b2);
    assert EncodeU32LE(n) == [b0, b1, b2, b3];
  }

  lemma EncodeDecode(bs: seq<Byte>)
    requires |bs| == 4
    ensures EncodeU32LE(U32LE(bs)) == bs
  {
    var n := U32LE(bs);
    var b0, b1, b2, b3: int := bs[0], bs[1], bs[2], bs[3];
    DivModUnique(n, 0x100, b1 + 0x100 * b2 + 0x1_0000 * b3, b0);
    DivModUnique(n / 0x100, 0x100, b2 + 0x100 * b3, b1);
    DivModUnique(n, 0x1_0000, b2 + 0x100 * b3, b0 + 0x100 * b1);
    DivModUnique(n / 0x1_0000, 0x100, b3, b2);
    DivModUnique(n, 0x100_0000, b3, b0 + 0x100 * b1 + 0x1_0000 * b2);
  }

  const HeaderSize := 80
  const RecordSize := 50

  /** The triangle count: bytes 80 to 83, little-endian. */
  function TriangleCount(data: seq<Byte>): nat
    requires |data| >= HeaderSize + 4
  {
    U32LE(data[HeaderSize..HeaderSize + 4])
  }

  /** Three float32 values from twelve bytes at off. */
  function ReadVec3(data: seq<Byte>, off: nat, f32: seq<Byte> -> real): Vec3
    requires off + 12 <= |data|
  {
    Vec3(f32(data[off..off + 4]), f32(data[off + 4..off + 8]), f32(data[off + 8..off + 12]))
  }

  /** Record i: a skipped normal, three vertices at 12, 24 and 36 bytes in, two attribute bytes. */
  function RecordTriangle(data: seq<Byte>, i: nat, f32: seq<Byte> -> real): Triangle
    requires HeaderSize + 4 + RecordSize * (i + 1) <= |data|
  {
    var off := HeaderSize + 4 + RecordSize * i;
    Triangle(ReadVec3(data, off + 12, f32), ReadVec3(data, off + 24, f32), ReadVec3(data, off + 36, f32))
  }

  /** The binary layout: checks on the length, then one triangle per record. */
  function DecodeBinary(data: seq<Byte>, f32: seq<Byte> -> real): (r: Result<seq<Triangle>, ReadError>)
    ensures r == Failure(HeaderTooShort) <==> |data| < HeaderSize + 4
    ensures r == Failure(Truncated)
        <==> |data| >= HeaderSize + 4 && |data| < HeaderSize + 4 + RecordSize * TriangleCount(data)
    ensures r.Success? <==> |data| >= HeaderSize + 4 && |data| >= HeaderSize + 4 + RecordSize * TriangleCount(data)
    ensures r.Success? ==>
      && |r.value| == TriangleCount(data)
      && HeaderSize + 4 + RecordSize * |r.value| <= |data|
      && forall i :: 0 <= i < |r.value| ==> r.value[i] == RecordTriangle(data, i, f32)
  {
    if |data| < HeaderSize + 4 then Failure(HeaderTooShort)
    else
      var count := TriangleCount(data);
      if |data| < HeaderSize + 4 + RecordSize * count then Failure(Truncated)
      else Success(seq(count, i requires 0 <= i < count => RecordTriangle(data, i, f32)))
  }

  /** The binary parser: an offset that moves over each record field by field. */
  method ParseBinaryStl(data: seq<Byte>, f32: seq<Byte> -> real) returns (result: Result<seq<Triangle>, ReadError>)
    ensures result == DecodeBinary(data, f32)
  {
    if |data| < 84 {
      return Failure(HeaderTooShort);
    }
    var count := U32LE(data[80..84]);
    var expected := 84 + count * 50;
    if |data| < expected {
      return Failure(Truncated);
    }
    var triangles: seq<Triangle> := [];
    var offset := 84;
    for i := 0 to count
      invariant offset == 84 + 50 * i
      invariant |triangles| == i
      invariant forall j :: 0 <= j < i ==> triangles[j] == RecordTriangle(data, j, f32)
    {
      offset := offset + 12;
      var v1 := Vec3(f32(data[offset..offset + 4]), f32(data[offset + 4..offset + 8]), f32(data[offset + 8..offset + 12]));
      offset := offset + 12;
      var v2 := Vec3(f32(data[offset..offset + 4]), f32(data[offset + 4..offset + 8]), f32(data[offset + 8..offset + 12]));
      offset := offset + 12;
      var v3 := Vec3(f32(data[offset..offset + 4]), f32(data[offset + 4..offset + 8]), f32(data[offset + 8..offset + 12]));
      offset := offset + 12;
      offset := offset + 2;
      triangles := triangles + [Triangle(v1, v2, v3)];
    }
    assert triangles == DecodeBinary(data, f32).value;
    return Success(triangles);
  }

  /** bytes.lower: only ASCII capitals change. */
  function LowerByte(b: Byte): Byte {
    if 65 <= b <= 90 then b + 32 else b
  }

  /** The bytes of "solid". */
  const Solid: seq<Byte> := [115, 111, 108, 105, 100]

  /** The first five bytes spell "solid" in any letter case. */
  predicate SolidHeader(data: seq<Byte>) {
    |data| >= 5 && forall i :: 0 <= i < 5 ==> LowerByte(data[i]) == Solid[i]
  }

  /**
   * Format dispatch. A "solid" header whose text decodes and yields triangles
   * is read as ASCII; a malformed vertex line there is an error. Any other
   * file (another header, text that does not decode, or no triangles) is read
   * as binary.
   */
  method LoadStl(data: seq<Byte>, decode: seq<Byte> -> Option<string>, parseFloat: string -> Option<real>,
                 f32: seq<Byte> -> real) returns (result: Result<seq<Triangle>, ReadError>)
    ensures !SolidHeader(data) ==> result == DecodeBinary(data, f32)
    ensures SolidHeader(data) && decode(data).None? ==> result == DecodeBinary(data, f32)
    ensures SolidHeader(data) && decode(data).Some? ==>
      match AsciiTriangles(decode(data).value, parseFloat)
      case Failure(e) => result == Failure(e)
      case Success(ts) => result == (if ts != [] then Success(ts) else DecodeBinary(data, f32))
  {
    var header := if |data| >= 5 then seq(5, i requires 0 <= i < 5 => LowerByte(data[i])) else [];
    if header == Solid {
      var text := decode(data);
      if text.Some? {
        var triangles := ParseAsciiStl(text.value, parseFloat);
        if triangles.Failure? {
          return triangles;
        }
        if triangles.value != [] {
          return triangles;
        }
      }
    }
    result := ParseBinaryStl(data, f32);
  }

  /** The loader never returns an empty ASCII result: an empty list can only come from a binary count of zero. */
  lemma EmptyLoadIsBinary(data: seq<Byte>, decode: seq<Byte> -> Option<string>, parseFloat: string -> Option<real>,
                          f32: seq<Byte> -> real, result: Result<seq<Triangle>, ReadError>)
    requires !SolidHeader(data) ==> result == DecodeBinary(data, f32)
    requires SolidHeader(data) && decode(data).None? ==> result == DecodeBinary(data, f32)
    requires SolidHeader(data) && decode(data).Some? ==>
      match AsciiTriangles(decode(data).value, parseFloat)
      case Failure(e) => result == Failure(e)
      case Success(ts) => result == (if ts != [] then Success(ts) else DecodeBinary(data, f32))
    requires result == Success([])
    ensures |data| >= HeaderSize + 4 && TriangleCount(data) == 0
  {
    if SolidHeader(data) && decode(data).Some? {
      match AsciiTriangles(decode(data).value, parseFloat)
      case Failure(e) =>
      case Success(ts) =>
    }
  }
}
