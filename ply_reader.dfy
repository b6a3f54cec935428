/**
 * IO::read<TriangleMesh, PLY>: a PLY file read through a binary-mode
 * std::ifstream. The header is scanned token by token up to `end_header`;
 * "element vertex N" and "element face M" size the vertex and index arrays;
 * the body is then read as ASCII numbers or as raw little-endian data,
 * depending on the declared format.
 *
 * The stream is modelled at the byte level with the istream rules the reader
 * relies on: a formatted extraction skips white space first; any extraction
 * on a stream that is not good() fails and leaves its target alone; hitting
 * the end of the data sets eofbit; read(n) copies what is there and fails
 * when fewer than n bytes remain.
 */
module PlyReader {
  import opened Numeric
  import opened Wrappers
  import opened MeshTypes
  import opened Paths
  import opened ObjectLoading

  // ----- the input stream -----

  /** The unread bytes and the failbit and eofbit of the stream. */
  datatype Stream = Stream(rest: seq<byte>, fail: bool, eof: bool)

  /** istream::good(). */
  predicate Good(s: Stream)
  {
    !s.fail && !s.eof
  }

  /** A freshly opened stream over the file's bytes. */
  function Open(data: seq<byte>): Stream
  {
    Stream(data, false, false)
  }

  /** isspace in the "C" locale. */
  predicate IsSpace(b: byte)
  {
    b == 32 || 9 <= b <= 13
  }

  predicate IsDigitByte(b: byte)
  {
    48 <= b <= 57
  }

  /** The bytes left after leading white space. */
  function SkipSpace(b: seq<byte>): (r: seq<byte>)
    ensures |r| <= |b| && r == b[|b| - |r|..]
    ensures r != [] ==> !IsSpace(r[0])
    decreases |b|
  {
    if b != [] && IsSpace(b[0]) then SkipSpace(b[1..]) else b
  }

  /** The length of the leading run of non-space bytes. */
  function WordLength(b: seq<byte>): (n: nat)
    ensures n <= |b|
    ensures forall i :: 0 <= i < n ==> !IsSpace(b[i])
    ensures n < |b| ==> IsSpace(b[n])
    decreases |b|
  {
    if b != [] && !IsSpace(b[0]) then 1 + WordLength(b[1..]) else 0
  }

  /** The length of the leading run of decimal digits. */
  function DigitLength(b: seq<byte>): (n: nat)
    ensures n <= |b|
    ensures forall i :: 0 <= i < n ==> IsDigitByte(b[i])
    ensures n < |b| ==> !IsDigitByte(b[n])
    decreases |b|
  {
    if b != [] && IsDigitByte(b[0]) then 1 + DigitLength(b[1..]) else 0
  }

  /** An extracted value and the stream after the extraction. */
  datatype Extracted<T> = Extracted(value: T, s: Stream)

  /**
   * `is >> str` for a std::string: on success, the maximal run of non-space
   * bytes after the white space, with eofbit set when the run reaches the
   * end; on failure the string keeps its value `prior`.
   */
  function ExtractWord(s: Stream, prior: seq<byte>): (r: Extracted<seq<byte>>)
    ensures |r.s.rest| <= |s.rest|
    ensures !Good(s) ==> r == Extracted(prior, s.(fail := true))
    ensures Good(s) && !r.s.fail ==> |r.s.rest| < |s.rest| && r.value != []
    ensures r.s.fail ==> r.value == prior
  {
    if !Good(s) then Extracted(prior, s.(fail := true))
    else
      var b := SkipSpace(s.rest);
      if b == [] then Extracted(prior, Stream(b, true, true))
      else
        var n := WordLength(b);
        Extracted(b[..n], Stream(b[n..], false, n == |b|))
  }

  const SIZE_MAX: nat := 0x1_0000_0000_0000_0000 - 1
  const UINT_MAX: nat := UINT32_COUNT - 1

  /**
   * `is >> n` for an unsigned integer type whose largest value is `max`: the
   * decimal digits after the white space. No digit stores 0 and fails; a
   * value above `max` stores `max` and fails; a failed sentry leaves `prior`.
   */
  function ExtractUnsigned(s: Stream, prior: nat, max: nat): (r: Extracted<nat>)
    ensures |r.s.rest| <= |s.rest|
    ensures !Good(s) ==> r == Extracted(prior, s.(fail := true))
    ensures Good(s) && !r.s.fail ==> |r.s.rest| < |s.rest|
    ensures r.value <= max || r.value == prior
  {
    if !Good(s) then Extracted(prior, s.(fail := true))
    else
      var b := SkipSpace(s.rest);
      if b == [] then Extracted(prior, Stream(b, true, true))
      else
        var n := DigitLength(b);
        if n == 0 then Extracted(0, Stream(b, true, false))
        else
          var v := DigitsValue(Text(b[..n]));
          if v > max then Extracted(max, Stream(b[n..], true, n == |b|))
          else Extracted(v, Stream(b[n..], false, n == |b|))
  }

  /** `is >> c` for an unsigned char: the first byte after the white space. */
  function ExtractByte(s: Stream, prior: byte): (r: Extracted<byte>)
    ensures |r.s.rest| <= |s.rest|
    ensures !Good(s) ==> r == Extracted(prior, s.(fail := true))
    ensures Good(s) && SkipSpace(s.rest) != [] ==>
      r == Extracted(SkipSpace(s.rest)[0], Stream(SkipSpace(s.rest)[1..], false, false))
  {
    if !Good(s) then Extracted(prior, s.(fail := true))
    else
      var b := SkipSpace(s.rest);
      if b == [] then Extracted(prior, Stream(b, true, true))
      else Extracted(b[0], Stream(b[1..], false, false))
  }

  /**
   * How the standard library reads a float from text: `length(b)` is the
   * length of the longest prefix of b it accepts (0 when none), `value` the
   * number such a prefix denotes.
   */
  datatype FloatSyntax = FloatSyntax(length: seq<byte> -> nat, value: seq<byte> -> real)

  /**
   * `is >> x` for a float: a rejected prefix stores 0 and fails. A length
   * beyond the available bytes is taken as all of them.
   */
  function ExtractFloat(s: Stream, prior: real, fs: FloatSyntax): (r: Extracted<real>)
    ensures |r.s.rest| <= |s.rest|
    ensures !Good(s) ==> r == Extracted(prior, s.(fail := true))
    ensures Good(s) && !r.s.fail ==> |r.s.rest| < |s.rest|
  {
    if !Good(s) then Extracted(prior, s.(fail := true))
    else
      var b := SkipSpace(s.rest);
      if b == [] then Extracted(prior, Stream(b, true, true))
      else
        var n := if fs.length(b) <= |b| then fs.length(b) else |b|;
        if n == 0 then Extracted(0.0, Stream(b, true, false))
        else Extracted(fs.value(b[..n]), Stream(b[n..], false, n == |b|))
  }

  /**
   * `is.read(p, |target|)`: copies the next bytes over the target; when
   * fewer remain, copies those, keeps the rest of the target and sets
   * failbit and eofbit.
   */
  function ReadBytes(s: Stream, target: seq<byte>): (r: Extracted<seq<byte>>)
    ensures |r.value| == |target| && |r.s.rest| <= |s.rest|
    ensures !Good(s) ==> r == Extracted(target, s.(fail := true))
    ensures Good(s) && |target| <= |s.rest| ==>
      r == Extracted(s.rest[..|target|], Stream(s.rest[|target|..], false, false))
  {
    if !Good(s) then Extracted(target, s.(fail := true))
    else if |target| <= |s.rest| then Extracted(s.rest[..|target|], Stream(s.rest[|target|..], false, false))
    else Extracted(s.rest + target[|s.rest|..], Stream([], true, true))
  }

  // ----- the header -----

  const PLY_FORMAT := Ascii("format")
  const ELEMENT := Ascii("element")
  const VERTEX := Ascii("vertex")
  const FACE := Ascii("face")
  const END_HEADER := Ascii("end_header")
  const ASCII_ENCODING := Ascii("ascii")
  const BINARY_LITTLE_ENDIAN := Ascii("binary_little_endian")

  /** The body layouts the reader tells apart by comparing encode_type. */
  datatype Encoding = AsciiText | BinaryLittleEndian | OtherEncoding

  /** encode_type == "ascii", encode_type == "binary_little_endian", or neither. */
  function EncodingOf(t: seq<byte>): (e: Encoding)
    ensures e == AsciiText <==> t == ASCII_ENCODING
    ensures e == BinaryLittleEndian <==> t == BINARY_LITTLE_ENDIAN
  {
    assert ASCII_ENCODING[0] != BINARY_LITTLE_ENDIAN[0];
    if t == ASCII_ENCODING then AsciiText
    else if t == BINARY_LITTLE_ENDIAN then BinaryLittleEndian
    else OtherEncoding
  }

  /** What the header loop has gathered: encode_type, encode_version, vertex_size and index_size. */
  datatype HeaderState = HeaderState(encodeType: seq<byte>, encodeVersion: seq<byte>, vertexCount: nat, faceCount: nat)

  const InitialHeader := HeaderState(ASCII_ENCODING, Ascii("1.0"), 0, 0)

  /**
   * The header loop from stream s: Some of the gathered state and the stream
   * just past the `end_header` token, or None when the stream fails first,
   * where the source keeps looping for ever on an unchanged token.
   */
  function ReadHeader(s: Stream, st: HeaderState): (r: Option<(HeaderState, Stream)>)
    ensures r.Some? ==> |r.value.1.rest| < |s.rest|
    decreases |s.rest|
  {
    if !Good(s) then None
    else
      var t := ExtractWord(s, []);
      if t.s.fail then None
      else if t.value == PLY_FORMAT then
        var e := ExtractWord(t.s, st.encodeType);
        var v := ExtractWord(e.s, st.encodeVersion);
        ReadHeader(v.s, st.(encodeType := e.value, encodeVersion := v.value))
      else if t.value == ELEMENT then
        var k := ExtractWord(t.s, t.value);
        if k.s.fail then None
        else if k.value == VERTEX then
          var n := ExtractUnsigned(k.s, st.vertexCount, SIZE_MAX);
          ReadHeader(n.s, st.(vertexCount := n.value))
        else if k.value == FACE then
          var n := ExtractUnsigned(k.s, st.faceCount, SIZE_MAX);
          ReadHeader(n.s, st.(faceCount := n.value))
        else if k.value == END_HEADER then Some((st, k.s))
        else ReadHeader(k.s, st)
      else if t.value == END_HEADER then Some((st, t.s))
      else ReadHeader(t.s, st)
  }

  /** The `while (sGet != "end_header")` loop. */
  method ScanHeader(data: seq<byte>) returns (r: Option<(HeaderState, Stream)>)
    ensures r == ReadHeader(Open(data), InitialHeader)
  {
    var s := Open(data);
    var st := InitialHeader;
    var sGet: seq<byte> := [];
    while sGet != END_HEADER
      invariant sGet != END_HEADER ==> ReadHeader(s, st) == ReadHeader(Open(data), InitialHeader)
      invariant sGet == END_HEADER ==> ReadHeader(Open(data), InitialHeader) == Some((st, s))
      decreases |s.rest|, if Good(s) then 1 else 0
    {
      if !Good(s) {
        // every extraction now fails and sGet never changes again
        return None;
      }
      var t := ExtractWord(s, sGet);
      s, sGet := t.s, t.value;
      if s.fail {
        return None;
      }
      if sGet == PLY_FORMAT {
        var e := ExtractWord(s, st.encodeType);
        var v := ExtractWord(e.s, st.encodeVersion);
        s, st := v.s, st.(encodeType := e.value, encodeVersion := v.value);
      }
      if sGet == ELEMENT {
        var k := ExtractWord(s, sGet);
        s, sGet := k.s, k.value;
        if s.fail {
          return None;
        }
        if sGet == VERTEX {
          var n := ExtractUnsigned(s, st.vertexCount, SIZE_MAX);
          s, st := n.s, st.(vertexCount := n.value);
        }
        if sGet == FACE {
          var n := ExtractUnsigned(s, st.faceCount, SIZE_MAX);
          s, st := n.s, st.(faceCount := n.value);
        }
      }
    }
    return Some((st, s));
  }

  // ----- the body -----

  /** An array being filled, the stream, and whether the loop has hit a `break`. */
  datatype Fill<T> = Fill(items: seq<T>, s: Stream, stopped: bool)

  /**
   * The state after the first i iterations of a loop whose body is `step`:
   * once an iteration has hit a `break`, later iterations are not run.
   */
  function Iterate<T>(start: Fill<T>, i: nat, step: (Fill<T>, nat) -> Fill<T>): (f: Fill<T>)
    decreases i
  {
    if i == 0 then start
    else
      var p := Iterate(start, i - 1, step);
      if p.stopped then p else step(p, i - 1)
  }

  /** Once the loop has broken out, later iterations change nothing. */
  lemma {:induction false} IterateStaysStopped<T>(start: Fill<T>, i: nat, j: nat, step: (Fill<T>, nat) -> Fill<T>)
    requires i <= j && Iterate(start, i, step).stopped
    ensures Iterate(start, j, step) == Iterate(start, i, step)
    decreases j
  {
    if i < j {
      IterateStaysStopped(start, i, j - 1, step);
    }
  }

  /** An iteration that starts before any `break` runs the loop body. */
  lemma IterateNext<T>(start: Fill<T>, i: nat, step: (Fill<T>, nat) -> Fill<T>)
    requires !Iterate(start, i, step).stopped
    ensures Iterate(start, i + 1, step) == step(Iterate(start, i, step), i)
  {
  }

  /** A loop body that writes entries of the array but never resizes it. */
  ghost predicate KeepsLength<T(!new)>(step: (Fill<T>, nat) -> Fill<T>)
  {
    forall f, k :: |step(f, k).items| == |f.items|
  }

  lemma {:induction false} IterateKeepsLength<T(!new)>(start: Fill<T>, i: nat, step: (Fill<T>, nat) -> Fill<T>)
    requires KeepsLength(step)
    ensures |Iterate(start, i, step).items| == |start.items|
    decreases i
  {
    if i > 0 {
      IterateKeepsLength(start, i - 1, step);
    }
  }

  /** A vector resized from empty to n value-initialised entries. */
  function Filled<T>(n: nat, v: T): (r: seq<T>)
    ensures |r| == n && forall i :: 0 <= i < n ==> r[i] == v
  {
    seq(n, _ => v)
  }

  const ZeroVertex := Float3(0.0, 0.0, 0.0)
  const ZeroFace := UInt3(0, 0, 0)
  /** The bytes of the float 0.0f a resized vertex array holds. */
  const ZeroFloatBytes: seq<byte> := [0, 0, 0, 0]

  /**
   * Iteration i of the vertex loop. ASCII: three float extractions. Binary
   * little-endian: three 4-byte reads; when the stream is no longer good the
   * loop breaks with the raw bytes left in place, otherwise each float is
   * byte-swapped. Any other encoding reads nothing.
   */
  function VertexStep(f: Fill<Float3>, i: nat, enc: Encoding, fs: FloatSyntax, asFloat: seq<byte> -> real): (r: Fill<Float3>)
    requires i < |f.items|
    ensures |r.items| == |f.items| && |r.s.rest| <= |f.s.rest|
    ensures forall j :: 0 <= j < |f.items| && j != i ==> r.items[j] == f.items[j]
  {
    match enc
    case AsciiText => AsciiVertex(f, i, fs)
    case BinaryLittleEndian => BinaryVertex(f, i, asFloat)
    case OtherEncoding => f
  }

  function AsciiVertex(f: Fill<Float3>, i: nat, fs: FloatSyntax): (r: Fill<Float3>)
    requires i < |f.items|
    ensures |r.items| == |f.items| && |r.s.rest| <= |f.s.rest|
    ensures forall j :: 0 <= j < |f.items| && j != i ==> r.items[j] == f.items[j]
  {
    var x := ExtractFloat(f.s, f.items[i].x, fs);
    var y := ExtractFloat(x.s, f.items[i].y, fs);
    var z := ExtractFloat(y.s, f.items[i].z, fs);
    Fill(f.items[i := Float3(x.value, y.value, z.value)], z.s, false)
  }

  function BinaryVertex(f: Fill<Float3>, i: nat, asFloat: seq<byte> -> real): (r: Fill<Float3>)
    requires i < |f.items|
    ensures |r.items| == |f.items| && |r.s.rest| <= |f.s.rest|
    ensures forall j :: 0 <= j < |f.items| && j != i ==> r.items[j] == f.items[j]
  {
    var x := ReadBytes(f.s, ZeroFloatBytes);
    var y := ReadBytes(x.s, ZeroFloatBytes);
    var z := ReadBytes(y.s, ZeroFloatBytes);
    if !Good(z.s) then
      Fill(f.items[i := Float3(asFloat(x.value), asFloat(y.value), asFloat(z.value))], z.s, true)
    else
      Fill(f.items[i := Float3(asFloat(ByteSwap(x.value)), asFloat(ByteSwap(y.value)), asFloat(ByteSwap(z.value)))], z.s, false)
  }

  /** The step the vertex loop takes for entry i, and no step past the end of the array. */
  function VertexLoopBody(enc: Encoding, fs: FloatSyntax, asFloat: seq<byte> -> real): (step: (Fill<Float3>, nat) -> Fill<Float3>)
    ensures KeepsLength(step)
  {
    (f: Fill<Float3>, i: nat) => if i < |f.items| then VertexStep(f, i, enc, fs, asFloat) else f
  }

  /** The vertex array and stream after i iterations of the vertex loop over n resized entries. */
  function FillVertices(body: Stream, n: nat, i: nat, enc: Encoding, fs: FloatSyntax, asFloat: seq<byte> -> real): (f: Fill<Float3>)
    ensures |f.items| == n
  {
    IterateKeepsLength(Fill(Filled(n, ZeroVertex), body, false), i, VertexLoopBody(enc, fs, asFloat));
    Iterate(Fill(Filled(n, ZeroVertex), body, false), i, VertexLoopBody(enc, fs, asFloat))
  }

  /** An iteration before any `break` is one VertexStep. */
  lemma FillVerticesNext(body: Stream, n: nat, i: nat, enc: Encoding, fs: FloatSyntax, asFloat: seq<byte> -> real)
    requires i < n && !FillVertices(body, n, i, enc, fs, asFloat).stopped
    ensures FillVertices(body, n, i + 1, enc, fs, asFloat) == VertexStep(FillVertices(body, n, i, enc, fs, asFloat), i, enc, fs, asFloat)
  {
    var start := Fill(Filled(n, ZeroVertex), body, false);
    var step := VertexLoopBody(enc, fs, asFloat);
    IterateNext(start, i, step);
  }

  /** The body of the vertex loop for entry i. */
  method ReadVertex(vertex: seq<Float3>, s: Stream, i: nat, enc: Encoding, fs: FloatSyntax, asFloat: seq<byte> -> real)
    returns (vertex': seq<Float3>, s': Stream, stop: bool)
    requires i < |vertex|
    ensures Fill(vertex', s', stop) == VertexStep(Fill(vertex, s, false), i, enc, fs, asFloat)
  {
    vertex', s', stop := vertex, s, false;
    if enc == AsciiText {
      var x := ExtractFloat(s', vertex'[i].x, fs);
      var y := ExtractFloat(x.s, vertex'[i].y, fs);
      var z := ExtractFloat(y.s, vertex'[i].z, fs);
      vertex', s' := vertex'[i := Float3(x.value, y.value, z.value)], z.s;
    } else if enc == BinaryLittleEndian {
      var x := ReadBytes(s', ZeroFloatBytes);
      var y := ReadBytes(x.s, ZeroFloatBytes);
      var z := ReadBytes(y.s, ZeroFloatBytes);
      s' := z.s;
      if !Good(s') {
        vertex', stop := vertex'[i := Float3(asFloat(x.value), asFloat(y.value), asFloat(z.value))], true;
      } else {
        vertex' := vertex'[i := Float3(asFloat(ByteSwap(x.value)), asFloat(ByteSwap(y.value)), asFloat(ByteSwap(z.value)))];
      }
    }
  }

  /** The vertex loop over the resized array, leaving it at the first failed binary read. */
  method ReadVertices(body: Stream, n: nat, enc: Encoding, fs: FloatSyntax, asFloat: seq<byte> -> real)
    returns (vertex: seq<Float3>, s: Stream)
    ensures vertex == FillVertices(body, n, n, enc, fs, asFloat).items
    ensures s == FillVertices(body, n, n, enc, fs, asFloat).s
  {
    vertex := Filled(n, ZeroVertex);
    s := body;
    for i := 0 to n
      invariant FillVertices(body, n, i, enc, fs, asFloat) == Fill(vertex, s, false)
    {
      var stop;
      vertex, s, stop := ReadVertex(vertex, s, i, enc, fs, asFloat);
      FillVerticesNext(body, n, i, enc, fs, asFloat);
      if stop {
        IterateStaysStopped(Fill(Filled(n, ZeroVertex), body, false), i + 1, n, VertexLoopBody(enc, fs, asFloat));
        break;
      }
    }
  }

  /**
   * Iteration i of the face loop. ASCII: the vertex count is extracted as
   * one character, and a count of 4 or more breaks the loop before the three
   * unsigned extractions. Binary: a count byte, read again when it is 64 or
   * more, breaks the loop at 4 or more; then three 4-byte reads straight into
   * the face, breaking when the stream is no longer good.
   */
  function FaceStep(f: Fill<UInt3>, i: nat, enc: Encoding): (r: Fill<UInt3>)
    requires i < |f.items|
    ensures |r.items| == |f.items| && |r.s.rest| <= |f.s.rest|
    ensures forall j :: 0 <= j < |f.items| && j != i ==> r.items[j] == f.items[j]
  {
    match enc
    case AsciiText => AsciiFace(f, i)
    case BinaryLittleEndian => BinaryFace(f, i)
    case OtherEncoding => f
  }

  function AsciiFace(f: Fill<UInt3>, i: nat): (r: Fill<UInt3>)
    requires i < |f.items|
    ensures |r.items| == |f.items| && |r.s.rest| <= |f.s.rest|
    ensures forall j :: 0 <= j < |f.items| && j != i ==> r.items[j] == f.items[j]
  {
    var count := ExtractByte(f.s, 0);
    if count.value >= 4 then Fill(f.items, count.s, true)
    else
      var x := ExtractUnsigned(count.s, f.items[i].x, UINT_MAX);
      var y := ExtractUnsigned(x.s, f.items[i].y, UINT_MAX);
      var z := ExtractUnsigned(y.s, f.items[i].z, UINT_MAX);
      Fill(f.items[i := UInt3(x.value, y.value, z.value)], z.s, false)
  }

  function BinaryFace(f: Fill<UInt3>, i: nat): (r: Fill<UInt3>)
    requires i < |f.items|
    ensures |r.items| == |f.items| && |r.s.rest| <= |f.s.rest|
    ensures forall j :: 0 <= j < |f.items| && j != i ==> r.items[j] == f.items[j]
  {
    var first := ReadBytes(f.s, [0]);
    var count := if first.value[0] >= 64 then ReadBytes(first.s, first.value) else first;
    if count.value[0] >= 4 then Fill(f.items, count.s, true)
    else
      var x := ReadBytes(count.s, LE32(f.items[i].x));
      var y := ReadBytes(x.s, LE32(f.items[i].y));
      var z := ReadBytes(y.s, LE32(f.items[i].z));
      Fill(f.items[i := UInt3(DecodeLE32(x.value), DecodeLE32(y.value), DecodeLE32(z.value))], z.s, !Good(z.s))
  }

  /** The step the face loop takes for entry i, and no step past the end of the array. */
  function FaceLoopBody(enc: Encoding): (step: (Fill<UInt3>, nat) -> Fill<UInt3>)
    ensures KeepsLength(step)
  {
    (f: Fill<UInt3>, i: nat) => if i < |f.items| then FaceStep(f, i, enc) else f
  }

  /** The index array and stream after i iterations of the face loop over n resized entries. */
  function FillFaces(body: Stream, n: nat, i: nat, enc: Encoding): (f: Fill<UInt3>)
    ensures |f.items| == n
  {
    IterateKeepsLength(Fill(Filled(n, ZeroFace), body, false), i, FaceLoopBody(enc));
    Iterate(Fill(Filled(n, ZeroFace), body, false), i, FaceLoopBody(enc))
  }

  /** An iteration before any `break` is one FaceStep. */
  lemma FillFacesNext(body: Stream, n: nat, i: nat, enc: Encoding)
    requires i < n && !FillFaces(body, n, i, enc).stopped
    ensures FillFaces(body, n, i + 1, enc) == FaceStep(FillFaces(body, n, i, enc), i, enc)
  {
    IterateNext(Fill(Filled(n, ZeroFace), body, false), i, FaceLoopBody(enc));
  }

  /** The body of the face loop for entry i. */
  method ReadFace(index: seq<UInt3>, s: Stream, i: nat, enc: Encoding) returns (index': seq<UInt3>, s': Stream, stop: bool)
    requires i < |index|
    ensures Fill(index', s', stop) == FaceStep(Fill(index, s, false), i, enc)
  {
    index', s', stop := index, s, false;
    if enc == AsciiText {
      var count := ExtractByte(s', 0);
      s' := count.s;
      if count.value >= 4 {
        return index', s', true;
      }
      var x := ExtractUnsigned(s', index'[i].x, UINT_MAX);
      var y := ExtractUnsigned(x.s, index'[i].y, UINT_MAX);
      var z := ExtractUnsigned(y.s, index'[i].z, UINT_MAX);
      index', s' := index'[i := UInt3(x.value, y.value, z.value)], z.s;
    } else if enc == BinaryLittleEndian {
      var count := ReadBytes(s', [0]);
      if count.value[0] >= 64 {
        count := ReadBytes(count.s, count.value);
      }
      s' := count.s;
      if count.value[0] >= 4 {
        return index', s', true;
      }
      var x := ReadBytes(s', LE32(index'[i].x));
      var y := ReadBytes(x.s, LE32(index'[i].y));
      var z := ReadBytes(y.s, LE32(index'[i].z));
      index', s' := index'[i := UInt3(DecodeLE32(x.value), DecodeLE32(y.value), DecodeLE32(z.value))], z.s;
      stop := !Good(s');
    }
  }

  /** The face loop over the resized array, leaving it at the first `break`. */
  method ReadFaces(body: Stream, n: nat, enc: Encoding) returns (index: seq<UInt3>, s: Stream)
    ensures index == FillFaces(body, n, n, enc).items
    ensures s == FillFaces(body, n, n, enc).s
  {
    index := Filled(n, ZeroFace);
    s := body;
    for i := 0 to n
      invariant FillFaces(body, n, i, enc) == Fill(index, s, false)
    {
      var stop;
      index, s, stop := ReadFace(index, s, i, enc);
      FillFacesNext(body, n, i, enc);
      if stop {
        IterateStaysStopped(Fill(Filled(n, ZeroFace), body, false), i + 1, n, FaceLoopBody(enc));
        break;
      }
    }
  }

  // ----- the whole reader -----

  /**
   * The mesh read from `file` (None when it cannot be opened): a
   * default-constructed mesh for a file that cannot be opened; None when
   * the header never reaches `end_header`; otherwise the filled arrays, the
   * stem of the file name, and material and texture ids -1.
   */
  function ReadPlySpec(file: Option<seq<byte>>, filename: Path, fs: FloatSyntax, asFloat: seq<byte> -> real): (r: Option<TriangleMesh>)
  {
    if file.None? then Some(EmptyMesh)
    else
      var header := ReadHeader(Open(file.value), InitialHeader);
      if header.None? then None
      else
        var (st, body) := header.value;
        var v := FillVertices(body, st.vertexCount, st.vertexCount, EncodingOf(st.encodeType), fs, asFloat);
        var f := FillFaces(v.s, st.faceCount, st.faceCount, EncodingOf(st.encodeType));
        Some(TriangleMesh(v.items, [], [], f.items, Stem(filename), -1, -1))
  }

  /** IO::read<TriangleMesh, PLY>. */
  method ReadPly(file: Option<seq<byte>>, filename: Path, fs: FloatSyntax, asFloat: seq<byte> -> real)
    returns (mesh: Option<TriangleMesh>)
    ensures mesh == ReadPlySpec(file, filename, fs, asFloat)
  {
    if file.None? {
      return Some(EmptyMesh);
    }
    var header := ScanHeader(file.value);
    if header.None? {
      return None;
    }
    var (st, body) := header.value;
    var vertex, s := ReadVertices(body, st.vertexCount, EncodingOf(st.encodeType), fs, asFloat);
    var index, s' := ReadFaces(s, st.faceCount, EncodingOf(st.encodeType));
    return Some(TriangleMesh(vertex, [], [], index, Stem(filename), -1, -1));
  }

  // ----- properties -----

  /** The arrays have exactly the sizes the header declares, and the mesh is named after the file. */
  lemma HeaderSizesArrays(data: seq<byte>, filename: Path, fs: FloatSyntax, asFloat: seq<byte> -> real)
    requires ReadHeader(Open(data), InitialHeader).Some?
    ensures var st := ReadHeader(Open(data), InitialHeader).value.0;
      var m := ReadPlySpec(Some(data), filename, fs, asFloat);
      m.Some? && |m.value.vertex| == st.vertexCount && |m.value.index| == st.faceCount &&
      m.value.name == Stem(filename) && m.value.materialID == -1 && m.value.materialTextureID == -1
  {
    var h := ReadHeader(Open(data), InitialHeader).value;
    var v := FillVertices(h.1, h.0.vertexCount, h.0.vertexCount, EncodingOf(h.0.encodeType), fs, asFloat);
    var f := FillFaces(v.s, h.0.faceCount, h.0.faceCount, EncodingOf(h.0.encodeType));
    assert ReadPlySpec(Some(data), filename, fs, asFloat) == Some(TriangleMesh(v.items, [], [], f.items, Stem(filename), -1, -1));
  }

  /** A header without `end_header` never finishes. */
  lemma NoEndHeaderNeverFinishes(data: seq<byte>, filename: Path, fs: FloatSyntax, asFloat: seq<byte> -> real)
    requires ReadHeader(Open(data), InitialHeader).None?
    ensures ReadPlySpec(Some(data), filename, fs, asFloat).None?
  {
  }

  /**
   * In an ASCII file the face count is read as a character, so the usual
   * count "3" (byte 51) already stops the face loop: when the first face
   * starts with it, every face stays (0, 0, 0).
   */
  lemma {:induction false} AsciiTriangleCountStops(body: Stream, n: nat)
    requires 0 < n && Good(body) && SkipSpace(body.rest) != [] && SkipSpace(body.rest)[0] == 51
    ensures forall i :: 0 <= i < n ==> FillFaces(body, n, n, AsciiText).items[i] == ZeroFace
  {
    var first := FillFaces(body, n, 1, AsciiText);
    assert FillFaces(body, n, 0, AsciiText) == Fill(Filled(n, ZeroFace), body, false);
    assert first.stopped && first.items == Filled(n, ZeroFace);
    IterateStaysStopped(Fill(Filled(n, ZeroFace), body, false), 1, n, FaceLoopBody(AsciiText));
  }

  /**
   * With at least 12 bytes per vertex, the binary loop reads every vertex:
   * vertex i is the three floats at bytes 12i.., each byte-swapped, and the
   * stream is left after them.
   */
  lemma {:induction false} BinaryVerticesSwapped(body: seq<byte>, n: nat, i: nat, fs: FloatSyntax, asFloat: seq<byte> -> real)
    requires i <= n && 12 * n <= |body|
    ensures BinaryReadUpTo(FillVertices(Open(body), n, i, BinaryLittleEndian, fs, asFloat), body, i, asFloat)
    decreases i
  {
    if i == 0 {
      assert body[12 * i..] == body;
    } else {
      BinaryVerticesSwapped(body, n, i - 1, fs, asFloat);
      BinaryNextRead(body, n, i, fs, asFloat);
    }
  }

  /** A good binary iteration i - 1 leaves the loop after i good iterations. */
  lemma BinaryNextRead(body: seq<byte>, n: nat, i: nat, fs: FloatSyntax, asFloat: seq<byte> -> real)
    requires 0 < i <= n && 12 * n <= |body|
    requires BinaryReadUpTo(FillVertices(Open(body), n, i - 1, BinaryLittleEndian, fs, asFloat), body, i - 1, asFloat)
    ensures BinaryReadUpTo(FillVertices(Open(body), n, i, BinaryLittleEndian, fs, asFloat), body, i, asFloat)
  {
    var p := FillVertices(Open(body), n, i - 1, BinaryLittleEndian, fs, asFloat);
    BinaryIteration(p, body, n, i, fs, asFloat);
    BinaryReadExtend(p, FillVertices(Open(body), n, i, BinaryLittleEndian, fs, asFloat), body, i, asFloat);
  }

  /**
   * The binary loop after i iterations: no `break` yet, the stream just past
   * the first 12i bytes, and the first i vertices read from them.
   */
  predicate BinaryReadUpTo(f: Fill<Float3>, body: seq<byte>, i: nat, asFloat: seq<byte> -> real)
  {
    i <= |f.items| && 12 * i <= |body| && !f.stopped && f.s == Open(body[12 * i..]) && SwappedPrefix(f.items, body, i, asFloat)
  }

  /** Iteration i - 1 of the binary vertex loop, on a good stream at byte 12(i - 1) of a long enough body. */
  lemma BinaryIteration(p: Fill<Float3>, body: seq<byte>, n: nat, i: nat, fs: FloatSyntax, asFloat: seq<byte> -> real)
    requires 0 < i <= n && 12 * n <= |body|
    requires p == FillVertices(Open(body), n, i - 1, BinaryLittleEndian, fs, asFloat)
    requires BinaryReadUpTo(p, body, i - 1, asFloat)
    ensures FillVertices(Open(body), n, i, BinaryLittleEndian, fs, asFloat) ==
      Fill(p.items[i - 1 := SwappedVertex(body[12 * (i - 1)..12 * (i - 1) + 12], asFloat)], Open(body[12 * i..]), false)
  {
    FillVerticesNext(Open(body), n, i - 1, BinaryLittleEndian, fs, asFloat);
    BinaryStepAt(p, body, i, fs, asFloat);
  }

  /** One more good binary iteration extends the read prefix by the next 12-byte record. */
  lemma BinaryReadExtend(p: Fill<Float3>, q: Fill<Float3>, body: seq<byte>, i: nat, asFloat: seq<byte> -> real)
    requires 0 < i <= |p.items| && 12 * i <= |body| && BinaryReadUpTo(p, body, i - 1, asFloat)
    requires q == Fill(p.items[i - 1 := SwappedVertex(body[12 * (i - 1)..12 * (i - 1) + 12], asFloat)], Open(body[12 * i..]), false)
    ensures BinaryReadUpTo(q, body, i, asFloat)
  {
    SwappedPrefixExtend(p.items, body, i, SwappedVertex(body[12 * (i - 1)..12 * (i - 1) + 12], asFloat), asFloat);
  }

  /** The binary vertex step on a stream at byte 12(i - 1) of the body. */
  lemma BinaryStepAt(p: Fill<Float3>, body: seq<byte>, i: nat, fs: FloatSyntax, asFloat: seq<byte> -> real)
    requires 0 < i <= |p.items| && 12 * i <= |body| && p.s == Open(body[12 * (i - 1)..])
    ensures VertexStep(p, i - 1, BinaryLittleEndian, fs, asFloat) ==
      Fill(p.items[i - 1 := SwappedVertex(body[12 * (i - 1)..12 * (i - 1) + 12], asFloat)], Open(body[12 * i..]), false)
  {
    var rest := body[12 * (i - 1)..];
    BinaryVertexStep(p, i - 1, fs, asFloat);
    assert rest[..12] == body[12 * (i - 1)..12 * (i - 1) + 12];
    assert rest[12..] == body[12 * i..];
  }

  lemma SwappedPrefixExtend(items: seq<Float3>, body: seq<byte>, i: nat, v: Float3, asFloat: seq<byte> -> real)
    requires 0 < i <= |items| && 12 * i <= |body| && SwappedPrefix(items, body, i - 1, asFloat)
    requires v == SwappedVertex(body[12 * (i - 1)..12 * (i - 1) + 12], asFloat)
    ensures SwappedPrefix(items[i - 1 := v], body, i, asFloat)
  {
  }

  /** One binary vertex read from a good stream holding at least 12 bytes. */
  lemma BinaryVertexStep(p: Fill<Float3>, i: nat, fs: FloatSyntax, asFloat: seq<byte> -> real)
    requires i < |p.items| && Good(p.s) && 12 <= |p.s.rest|
    ensures VertexStep(p, i, BinaryLittleEndian, fs, asFloat) ==
      Fill(p.items[i := SwappedVertex(p.s.rest[..12], asFloat)], Open(p.s.rest[12..]), false)
  {
    var b := p.s.rest;
    var x := ReadBytes(p.s, ZeroFloatBytes);
    assert x == Extracted(b[..4], Open(b[4..]));
    var y := ReadBytes(x.s, ZeroFloatBytes);
    assert y == Extracted(b[4..8], Open(b[8..])) by {
      assert b[4..][..4] == b[4..8] && b[4..][4..] == b[8..];
    }
    var z := ReadBytes(y.s, ZeroFloatBytes);
    assert z == Extracted(b[8..12], Open(b[12..])) by {
      assert b[8..][..4] == b[8..12] && b[8..][4..] == b[12..];
    }
    assert b[..12][..4] == b[..4] && b[..12][4..8] == b[4..8] && b[..12][8..] == b[8..12];
  }

  /** The first i vertices are the byte-swapped 12-byte records at the start of body. */
  predicate SwappedPrefix(items: seq<Float3>, body: seq<byte>, i: nat, asFloat: seq<byte> -> real)
    requires i <= |items| && 12 * i <= |body|
  {
    forall j :: 0 <= j < i ==> items[j] == SwappedVertex(body[12 * j..12 * j + 12], asFloat)
  }

  /** A vertex stored as three little-endian floats whose bytes the reader reverses. */
  function SwappedVertex(b: seq<byte>, asFloat: seq<byte> -> real): (v: Float3)
    requires |b| == 12
  {
    Float3(asFloat(ByteSwap(b[..4])), asFloat(ByteSwap(b[4..8])), asFloat(ByteSwap(b[8..])))
  }
}
