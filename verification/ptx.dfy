/** The line layout of the PTX writer. Numbers stay abstract (type parameter `N`):
    what is modelled is which value goes on which line, in which field, with which
    literal next to it, not how a float is printed. */
module Ptx {

  datatype Option<T> = None | Some(value: T) {
    predicate IsFailure() {
      None?
    }

    function PropagateFailure<U>(): Option<U>
      requires None?
    {
      None
    }

    function Extract(): T
      requires Some?
    {
      value
    }
  }

  /** A colour channel, cast to `int` before it is printed. */
  type Byte = x: int | 0 <= x < 256

  datatype Vec3<N> = Vec3(x: N, y: N, z: N)
  datatype Vec4<N> = Vec4(x: N, y: N, z: N, w: N)
  datatype Quat<N> = Quat(w: N, x: N, y: N, z: N)

  /** A 3x3 matrix, row by row. */
  datatype Mat3<N> = Mat3(row0: Vec3<N>, row1: Vec3<N>, row2: Vec3<N>)

  /** A coloured point of the cloud. */
  datatype Point<N> = Point(x: N, y: N, z: N, r: Byte, g: Byte, b: Byte)

  /** The parts of a point cloud the PTX writer reads: its dimensions, the sensor
      origin and orientation, and the points in iteration order. */
  datatype Cloud<N> = Cloud(width: nat, height: nat, origin: Vec4<N>, orientation: Quat<N>, points: seq<Point<N>>)

  /** One printed field: an abstract number or an integer (a dimension, a colour
      channel, or one of the literals 0 and 1). */
  datatype Token<N> = Num(v: N) | Int(i: int)

  /** One output line: blank-separated fields, or the matrix printed whole by the
      stream operator (three rows of text, kept as one unit here). */
  datatype Line<N> = Fields(tokens: seq<Token<N>>) | MatrixPrint(m: Mat3<N>)

  /** What a PTX file says: the dimensions, the scanner position, the rotation and
      the points. */
  datatype PtxFile<N> = PtxFile(width: nat, height: nat, translation: Vec3<N>, rotation: Mat3<N>, points: seq<Point<N>>)

  function Last<T>(s: seq<T>): T
    requires |s| > 0
  {
    s[|s| - 1]
  }

  function CountLine<N>(n: nat): Line<N> {
    Fields([Int(n)])
  }

  function TripleLine<N>(v: Vec3<N>): Line<N> {
    Fields([Num(v.x), Num(v.y), Num(v.z)])
  }

  /** A row of the 4x4 transform: three numbers and a trailing literal. */
  function RowLine<N>(v: Vec3<N>, last: int): Line<N> {
    Fields([Num(v.x), Num(v.y), Num(v.z), Int(last)])
  }

  /** A point line: coordinates, the literal 1, then the colour channels. */
  function PointLine<N>(p: Point<N>): Line<N> {
    Fields([Num(p.x), Num(p.y), Num(p.z), Int(1), Int(p.r), Int(p.g), Int(p.b)])
  }

  function PointLines<N>(points: seq<Point<N>>): seq<Line<N>> {
    if points == [] then [] else PointLines(points[..|points| - 1]) + [PointLine(Last(points))]
  }

  /** One line per point, in iteration order. */
  lemma {:induction false} PointLinesIndex<N>(points: seq<Point<N>>)
    ensures |PointLines(points)| == |points|
    ensures forall j :: 0 <= j < |points| ==> PointLines(points)[j] == PointLine(points[j])
  {
    if points != [] {
      var init := points[..|points| - 1];
      PointLinesIndex(init);
      assert forall j :: 0 <= j < |init| ==> points[j] == init[j];
    }
  }

  /** The eight header lines: width, height, position, the matrix print, the three
      rotation rows padded with 0, and the position padded with 1. */
  function Header<N>(f: PtxFile<N>): seq<Line<N>> {
    var r := f.rotation;
    [CountLine(f.width), CountLine(f.height), TripleLine(f.translation), MatrixPrint(r),
     RowLine(r.row0, 0), RowLine(r.row1, 0), RowLine(r.row2, 0), RowLine(f.translation, 1)]
  }

  /** The whole text of a PTX file, line by line. */
  function Layout<N>(f: PtxFile<N>): seq<Line<N>> {
    Header(f) + PointLines(f.points)
  }

  /** The file the writer produces for a cloud: the first three coordinates of the
      sensor origin as position, and the rotation it derives from the orientation. */
  function Contents<N>(cloud: Cloud<N>, inverseRotation: Quat<N> -> Mat3<N>): PtxFile<N> {
    PtxFile(cloud.width, cloud.height, Vec3(cloud.origin.x, cloud.origin.y, cloud.origin.z),
            inverseRotation(cloud.orientation), cloud.points)
  }

  function DecodeCount<N>(line: Line<N>): Option<nat> {
    if line.Fields? && |line.tokens| == 1 && line.tokens[0].Int? && line.tokens[0].i >= 0
    then Some(line.tokens[0].i) else None
  }

  function DecodeTriple<N>(line: Line<N>): Option<Vec3<N>> {
    if line.Fields? && |line.tokens| == 3 && line.tokens[0].Num? && line.tokens[1].Num? && line.tokens[2].Num?
    then Some(Vec3(line.tokens[0].v, line.tokens[1].v, line.tokens[2].v)) else None
  }

  function DecodeRow<N>(line: Line<N>, last: int): Option<Vec3<N>> {
    if line.Fields? && |line.tokens| == 4 && line.tokens[3].Int? && line.tokens[3].i == last
    then DecodeTriple(Fields(line.tokens[..3])) else None
  }

  function DecodePoint<N>(line: Line<N>): Option<Point<N>> {
    if line.Fields? && |line.tokens| == 7 then
      var t := line.tokens;
      if t[0].Num? && t[1].Num? && t[2].Num? && t[3].Int? && t[3].i == 1
         && t[4].Int? && 0 <= t[4].i < 256 && t[5].Int? && 0 <= t[5].i < 256 && t[6].Int? && 0 <= t[6].i < 256
      then Some(Point(t[0].v, t[1].v, t[2].v, t[4].i, t[5].i, t[6].i))
      else None
    else None
  }

  function DecodePoints<N>(lines: seq<Line<N>>): Option<seq<Point<N>>> {
    if lines == [] then Some([])
    else
      var init :- DecodePoints(lines[..|lines| - 1]);
      var p :- DecodePoint(Last(lines));
      Some(init + [p])
  }

  /** Reads a PTX text back: it must have the eight header lines, the matrix print
      must agree with the three padded rows and the position with the last header row,
      and every further line must be a point line. */
  function DecodePtx<N(==)>(lines: seq<Line<N>>): Option<PtxFile<N>> {
    if |lines| < 8 || !lines[3].MatrixPrint? then None
    else
      var width :- DecodeCount(lines[0]);
      var height :- DecodeCount(lines[1]);
      var t :- DecodeTriple(lines[2]);
      var r0 :- DecodeRow(lines[4], 0);
      var r1 :- DecodeRow(lines[5], 0);
      var r2 :- DecodeRow(lines[6], 0);
      var t' :- DecodeRow(lines[7], 1);
      var points :- DecodePoints(lines[8..]);
      if lines[3].m == Mat3(r0, r1, r2) && t' == t then Some(PtxFile(width, height, t, lines[3].m, points))
      else None
  }

  /** Reading the point lines back gives the points, in iteration order. */
  lemma {:induction false} DecodePointsInverse<N>(points: seq<Point<N>>)
    ensures DecodePoints(PointLines(points)) == Some(points)
  {
    if points != [] {
      var init, p := points[..|points| - 1], Last(points);
      var lines := PointLines(points);
      assert lines == PointLines(init) + [PointLine(p)];
      assert lines[..|lines| - 1] == PointLines(init);
      DecodePointsInverse(init);
      DecodePointLine(p);
      assert DecodePoints(lines) == Some(init + [p]);
      assert init + [p] == points;
    }
  }

  /** A point line reads back as its point. */
  lemma DecodePointLine<N>(p: Point<N>)
    ensures DecodePoint(PointLine(p)) == Some(p)
  {
  }

  /** Point lines that read back are exactly the lines of the points they read as. */
  lemma {:induction false} DecodePointsCanonical<N>(lines: seq<Line<N>>, points: seq<Point<N>>)
    requires DecodePoints(lines) == Some(points)
    ensures PointLines(points) == lines
  {
    if lines != [] {
      var init := DecodePoints(lines[..|lines| - 1]).value;
      var p := DecodePoint(Last(lines)).value;
      assert points == init + [p];
      assert points[..|points| - 1] == init;
      DecodePointsCanonical(lines[..|lines| - 1], init);
      DecodePointCanonical(Last(lines), p);
      assert lines == lines[..|lines| - 1] + [Last(lines)];
    }
  }

  lemma DecodePointCanonical<N>(line: Line<N>, p: Point<N>)
    requires DecodePoint(line) == Some(p)
    ensures PointLine(p) == line
  {
    var t := line.tokens;
    assert t == [t[0], t[1], t[2], t[3], t[4], t[5], t[6]];
  }

  lemma DecodeRowCanonical<N>(line: Line<N>, last: int, v: Vec3<N>)
    requires DecodeRow(line, last) == Some(v)
    ensures RowLine(v, last) == line
  {
    var t := line.tokens;
    assert t == [t[0], t[1], t[2], t[3]];
  }

  lemma DecodeTripleCanonical<N>(line: Line<N>, v: Vec3<N>)
    requires DecodeTriple(line) == Some(v)
    ensures TripleLine(v) == line
  {
    var t := line.tokens;
    assert t == [t[0], t[1], t[2]];
  }

  /** Writing a PTX file and reading it back gives the same dimensions, position,
      rotation and points. */
  lemma DecodeLayout<N>(f: PtxFile<N>)
    ensures DecodePtx(Layout(f)) == Some(f)
  {
    var lines := Layout(f);
    var r, t := f.rotation, f.translation;
    assert lines[..8] == Header(f);
    assert lines[8..] == PointLines(f.points);
    DecodeRowLine(r.row0, 0);
    DecodeRowLine(r.row1, 0);
    DecodeRowLine(r.row2, 0);
    DecodeRowLine(t, 1);
    DecodePointsInverse(f.points);
  }

  /** A padded row reads back as its three numbers. */
  lemma DecodeRowLine<N>(v: Vec3<N>, last: int)
    ensures DecodeRow(RowLine(v, last), last) == Some(v)
  {
    assert RowLine(v, last).tokens[..3] == TripleLine(v).tokens;
  }

  /** Every text that reads back as a PTX file is the layout of that file: the format
      has one way of writing each file. */
  lemma DecodeCanonical<N>(lines: seq<Line<N>>, f: PtxFile<N>)
    requires DecodePtx(lines) == Some(f)
    ensures Layout(f) == lines
  {
    DecodeTripleCanonical(lines[2], f.translation);
    DecodeRowCanonical(lines[4], 0, f.rotation.row0);
    DecodeRowCanonical(lines[5], 0, f.rotation.row1);
    DecodeRowCanonical(lines[6], 0, f.rotation.row2);
    DecodeRowCanonical(lines[7], 1, f.translation);
    DecodePointsCanonical(lines[8..], f.points);
    assert lines[0] == CountLine(f.width) by {
      assert lines[0].tokens == [lines[0].tokens[0]];
    }
    assert lines[1] == CountLine(f.height) by {
      assert lines[1].tokens == [lines[1].tokens[0]];
    }
    assert lines == lines[..8] + lines[8..];
  }

  /** The PTX writer. A stream that did not open takes no output; otherwise it prints
      the header, then one line per point while iterating over the cloud. */
  method SavePtx<N(==)>(isOpen: bool, cloud: Cloud<N>, inverseRotation: Quat<N> -> Mat3<N>) returns (lines: seq<Line<N>>)
    ensures !isOpen ==> lines == []
    ensures isOpen ==> lines == Layout(Contents(cloud, inverseRotation))
    ensures isOpen ==> DecodePtx(lines) == Some(Contents(cloud, inverseRotation))
  {
    lines := [];
    if !isOpen {
      return;
    }
    var t := cloud.origin;
    var r := inverseRotation(cloud.orientation);
    var position := Vec3(t.x, t.y, t.z);
    lines := [CountLine(cloud.width), CountLine(cloud.height), TripleLine(position), MatrixPrint(r),
              RowLine(r.row0, 0), RowLine(r.row1, 0), RowLine(r.row2, 0), RowLine(position, 1)];
    ghost var f := Contents(cloud, inverseRotation);
    var points := cloud.points;
    for k := 0 to |points|
      invariant |lines| == 8 + k
      invariant lines[..8] == Header(f)
      invariant forall j :: 0 <= j < k ==> lines[8 + j] == PointLine(points[j])
    {
      var p := points[k];
      lines := lines + [PointLine(p)];
    }
    PointLinesIndex(points);
    assert lines[8..] == PointLines(points);
    assert lines == lines[..8] + lines[8..];
    DecodeLayout(f);
  }
}
