/**
 * GeometryDeviationBase::deviation2Color: maps a normalised deviation onto a
 * colour palette. The value is clamped to [0,1], rounded to one of S equally
 * spaced levels (S = the segment count), and the level is mapped onto palette
 * indices, between which the colour is interpolated linearly.
 *
 * With exact arithmetic the rounding makes the interpolation weight 0 or 1,
 * so every output is one palette entry (banding); DeviationColorIsBand says
 * exactly which.
 */
module DeviationColor {
  import opened Numeric
  import opened MeshTypes

  const Black: Float3 := Float3(0.0, 0.0, 0.0)

  /** The built-in palette: blue, cyan, green, yellow, red. */
  const DefaultMap: seq<Float3> := [
    Float3(0.0, 0.0, 1.0),
    Float3(0.0, 1.0, 1.0),
    Float3(0.0, 1.0, 0.0),
    Float3(1.0, 1.0, 0.0),
    Float3(1.0, 0.0, 0.0)]

  /** The palette in use: the caller's, or the built-in one when the caller's is empty. */
  function Palette(colorMap: seq<Float3>): (palette: seq<Float3>)
    ensures 1 <= |palette|
    ensures colorMap != [] ==> palette == colorMap
  {
    if colorMap == [] then DefaultMap else colorMap
  }

  /** The number of quantisation segments: divCount if positive, otherwise one per palette gap; at least 1. */
  function SafeSegments(divCount: int, mapSize: nat): (s: int)
    ensures 1 <= s
    ensures divCount > 0 ==> s == divCount
    ensures divCount <= 0 && mapSize >= 2 ==> s == mapSize - 1
    ensures divCount <= 0 && mapSize < 2 ==> s == 1
  {
    var segments := if divCount > 0 then divCount else mapSize - 1;
    if segments < 1 then 1 else segments
  }

  /** The clamped value rounded to the nearest of the levels 0, 1/S, ..., 1, as a segment position. */
  function SegmentPosition(nd: real, safeSegments: int): (posSeg: real)
    requires 0.0 <= nd <= 1.0
    requires 1 <= safeSegments
    ensures posSeg == Round(nd * safeSegments as real) as real
    ensures 0.0 <= posSeg <= safeSegments as real
  {
    var step := 1.0 / safeSegments as real;
    StepDivision(nd, safeSegments);
    var k := Round(nd / step);
    LevelInRange(nd, safeSegments);
    var q := Clamp(k as real * step, 0.0, 1.0);
    LevelTimesStep(k, safeSegments);
    q * safeSegments as real
  }

  /** The segment a position falls in; the top level belongs to the last segment. */
  function SegmentIndex(posSeg: real, safeSegments: int): (segIdx: int)
    requires 0.0 <= posSeg
    requires 1 <= safeSegments
    ensures 0 <= segIdx <= safeSegments - 1
  {
    var segIdx := Trunc(posSeg);
    if segIdx >= safeSegments then safeSegments - 1 else segIdx
  }

  /** The palette index of a segment boundary: round(seg / S * (size - 1)), clamped into the palette. */
  function IndexFromSegment(seg: int, safeSegments: int, mapSize: nat): (idx: int)
    requires 1 <= safeSegments
    requires 1 <= mapSize
    ensures 0 <= idx <= mapSize - 1
  {
    var ratio := seg as real / safeSegments as real;
    var mi := Round(ratio * (mapSize - 1) as real);
    ClampInt(mi, 0, mapSize - 1)
  }

  function Lerp(c0: Float3, c1: Float3, t: real): Float3
  {
    Float3(c0.x + (c1.x - c0.x) * t, c0.y + (c1.y - c0.y) * t, c0.z + (c1.z - c0.z) * t)
  }

  /**
   * deviation2Color(d, divCount, colorMap). A negative deviation gives black
   * with the built-in palette and the first entry of the caller's palette
   * otherwise; any other deviation gives an entry of the palette in use.
   */
  function Deviation2Color(d: real, divCount: int, colorMap: seq<Float3>): (c: Float3)
    ensures d < 0.0 && colorMap == [] ==> c == Black
    ensures (d < 0.0 && colorMap != []) || 0.0 <= d ==> c in Palette(colorMap)
  {
    var palette := Palette(colorMap);
    if d < 0.0 then (if colorMap == [] then Black else palette[0])
    else
      var nd := Clamp(d, 0.0, 1.0);
      if |palette| == 1 then palette[0]
      else QuantizedColor(nd, SafeSegments(divCount, |palette|), palette)
  }

  /** The quantise-and-interpolate step of Deviation2Color for a palette of two or more colours. */
  function QuantizedColor(nd: real, safeSegments: int, palette: seq<Float3>): (c: Float3)
    requires 0.0 <= nd <= 1.0
    requires 1 <= safeSegments
    requires 2 <= |palette|
    ensures c in palette
  {
    var posSeg := SegmentPosition(nd, safeSegments);
    var segIdx := SegmentIndex(posSeg, safeSegments);
    var localT := posSeg - segIdx as real;
    var idx0 := IndexFromSegment(segIdx, safeSegments, |palette|);
    var idx1 := IndexFromSegment(segIdx + 1, safeSegments, |palette|);
    RoundOfInt(Round(nd * safeSegments as real));
    BandWeight(posSeg, safeSegments);
    LerpEnds(palette[idx0], palette[idx1]);
    Lerp(palette[idx0], palette[idx1], localT)
  }

  // ----- arithmetic facts behind the quantisation -----

  lemma LerpEnds(c0: Float3, c1: Float3)
    ensures Lerp(c0, c1, 0.0) == c0
    ensures Lerp(c0, c1, 1.0) == c1
  {
  }

  lemma MulMonotone(a: real, b: real, c: real)
    requires a <= b
    requires 0.0 <= c
    ensures a * c <= b * c
  {
  }

  /** The top segment boundary maps to the last palette index. */
  lemma IndexFromTopSegment(s: int, mapSize: nat)
    requires 1 <= s
    requires 1 <= mapSize
    ensures IndexFromSegment(s, s, mapSize) == mapSize - 1
  {
    assert s as real / s as real == 1.0;
    assert 1.0 * (mapSize - 1) as real == (mapSize - 1) as real;
    RoundOfInt(mapSize - 1);
  }

  /** The bottom segment boundary maps to the first palette index. */
  lemma IndexFromBottomSegment(s: int, mapSize: nat)
    requires 1 <= s
    requires 1 <= mapSize
    ensures IndexFromSegment(0, s, mapSize) == 0
  {
    assert 0 as real / s as real == 0.0;
    assert 0.0 * (mapSize - 1) as real == 0.0;
    RoundOfInt(0);
  }

  lemma StepDivision(nd: real, s: int)
    requires 1 <= s
    ensures nd / (1.0 / s as real) == nd * s as real
  {
    var step := 1.0 / s as real;
    assert step * s as real == 1.0;
    assert (nd * s as real) * step == nd;
  }

  lemma LevelInRange(nd: real, s: int)
    requires 0.0 <= nd <= 1.0
    requires 1 <= s
    ensures 0 <= Round(nd * s as real) <= s
  {
    assert 0.0 <= nd * s as real <= s as real;
    RoundMonotone(nd * s as real, s as real);
    RoundOfInt(s);
  }

  lemma LevelTimesStep(k: int, s: int)
    requires 0 <= k <= s
    requires 1 <= s
    ensures 0.0 <= k as real * (1.0 / s as real) <= 1.0
    ensures (k as real * (1.0 / s as real)) * s as real == k as real
  {
    var step := 1.0 / s as real;
    assert step * s as real == 1.0;
    assert (k as real * step) * s as real == k as real * (step * s as real);
    assert k as real * step <= s as real * step;
  }

  /** The interpolation weight is 0 below the top level and 1 at it. */
  lemma BandWeight(posSeg: real, s: int)
    requires 1 <= s
    requires posSeg == Round(posSeg) as real
    requires 0.0 <= posSeg <= s as real
    ensures var segIdx := SegmentIndex(posSeg, s);
      (posSeg < s as real ==> posSeg - segIdx as real == 0.0 && segIdx == Round(posSeg)) &&
      (posSeg == s as real ==> posSeg - segIdx as real == 1.0 && segIdx + 1 == s)
  {
    var k := Round(posSeg);
    assert posSeg.Floor == k;
  }

  // ----- properties -----

  /** The rounded level of the clamped deviation. */
  function Level(d: real, s: int): (k: int)
    requires 1 <= s
    ensures 0 <= k <= s
  {
    LevelInRange(Clamp(d, 0.0, 1.0), s);
    Round(Clamp(d, 0.0, 1.0) * s as real)
  }

  /**
   * Banding: for d >= 0 and a palette of at least two colours, the result is
   * exactly the palette entry at the index of the rounded level
   * round(round(clamp(d) * S) / S * (size - 1)).
   */
  lemma DeviationColorIsBand(d: real, divCount: int, colorMap: seq<Float3>)
    requires 0.0 <= d
    requires 2 <= |Palette(colorMap)|
    ensures var palette := Palette(colorMap);
      var s := SafeSegments(divCount, |palette|);
      Deviation2Color(d, divCount, colorMap) == palette[IndexFromSegment(Level(d, s), s, |palette|)]
  {
    var palette := Palette(colorMap);
    var s := SafeSegments(divCount, |palette|);
    var nd := Clamp(d, 0.0, 1.0);
    var posSeg := SegmentPosition(nd, s);
    var segIdx := SegmentIndex(posSeg, s);
    RoundOfInt(Level(d, s));
    BandWeight(posSeg, s);
    var idx0 := IndexFromSegment(segIdx, s, |palette|);
    var idx1 := IndexFromSegment(segIdx + 1, s, |palette|);
    LerpEnds(palette[idx0], palette[idx1]);
  }

  /** A one-entry palette gives that entry for every d >= 0. */
  lemma SingleEntryPalette(d: real, divCount: int, colorMap: seq<Float3>)
    requires 0.0 <= d
    requires |colorMap| == 1
    ensures Deviation2Color(d, divCount, colorMap) == colorMap[0]
  {
  }

  /** A negative deviation gives the first entry of a non-empty caller palette. */
  lemma NegativeGivesFirst(d: real, divCount: int, colorMap: seq<Float3>)
    requires d < 0.0
    requires colorMap != []
    ensures Deviation2Color(d, divCount, colorMap) == colorMap[0]
  {
  }

  /** Zero deviation gives the first palette entry. */
  lemma ZeroGivesFirst(divCount: int, colorMap: seq<Float3>)
    ensures Deviation2Color(0.0, divCount, colorMap) == Palette(colorMap)[0]
  {
    var palette := Palette(colorMap);
    if |palette| >= 2 {
      var s := SafeSegments(divCount, |palette|);
      DeviationColorIsBand(0.0, divCount, colorMap);
      assert 0.0 * s as real == 0.0;
      RoundOfInt(0);
      assert Level(0.0, s) == 0;
      IndexFromBottomSegment(s, |palette|);
    }
  }

  /** A deviation of 1 or more gives the last palette entry. */
  lemma OneOrMoreGivesLast(d: real, divCount: int, colorMap: seq<Float3>)
    requires 1.0 <= d
    ensures Deviation2Color(d, divCount, colorMap) == Palette(colorMap)[|Palette(colorMap)| - 1]
  {
    var palette := Palette(colorMap);
    if |palette| >= 2 {
      var s := SafeSegments(divCount, |palette|);
      DeviationColorIsBand(d, divCount, colorMap);
      assert 1.0 * s as real == s as real;
      RoundOfInt(s);
      assert Level(d, s) == s;
      IndexFromTopSegment(s, |palette|);
    }
  }

  /** For a fixed segment count a larger clamped deviation never gives a smaller segment index. */
  lemma SegmentIndexMonotone(nd1: real, nd2: real, s: int)
    requires 0.0 <= nd1 <= nd2 <= 1.0
    requires 1 <= s
    ensures SegmentIndex(SegmentPosition(nd1, s), s) <= SegmentIndex(SegmentPosition(nd2, s), s)
  {
    LevelMonotone(nd1, nd2, s);
    LevelInRange(nd1, s);
    LevelInRange(nd2, s);
    var k1, k2 := Round(nd1 * s as real), Round(nd2 * s as real);
    SegmentIndexOfLevel(k1, s);
    SegmentIndexOfLevel(k2, s);
  }

  lemma LevelMonotone(nd1: real, nd2: real, s: int)
    requires 0.0 <= nd1 <= nd2 <= 1.0
    requires 1 <= s
    ensures Round(nd1 * s as real) <= Round(nd2 * s as real)
  {
    MulMonotone(nd1, nd2, s as real);
    MulMonotone(0.0, nd1, s as real);
    RoundMonotone(nd1 * s as real, nd2 * s as real);
  }

  lemma SegmentIndexOfLevel(k: int, s: int)
    requires 0 <= k <= s
    requires 1 <= s
    ensures SegmentIndex(k as real, s) == if k < s then k else s - 1
  {
    assert (k as real).Floor == k;
  }
}
