/**
 * ColorMapLibrary: closed-form colour ramps sampled at evenly spaced
 * parameters. Jet has exactly divCount entries sampled at i / divCount; the
 * other ramps have max(2, divCount) entries sampled at i / (n - 1), so they
 * start at parameter 0 and end at parameter 1.
 */
module ColorMaps {
  import opened Numeric
  import opened MeshTypes
  import opened Wrappers

  datatype ColorMapKind = Jet | Hot | Cool | Turbo | Viridis | Inferno | Gray

  /** The number of entries a ramp has for a requested division count. */
  function RampSize(kind: ColorMapKind, divCount: int): (n: int)
    ensures kind == Jet ==> n == divCount
    ensures kind != Jet ==> 2 <= n && divCount <= n && (divCount >= 2 ==> n == divCount)
  {
    if kind == Jet then divCount else if divCount < 2 then 2 else divCount
  }

  /** The parameter at which entry i of a ramp of n entries is sampled. */
  function RampParameter(kind: ColorMapKind, i: int, n: int): (t: real)
    requires 0 <= i < n
    requires kind != Jet ==> 2 <= n
    ensures kind != Jet ==> 0.0 <= t <= 1.0
    ensures kind == Jet ==> 0.0 <= t < 1.0
  {
    if kind == Jet then
      FractionInUnit(i as real, n as real);
      i as real / n as real
    else
      FractionInUnit(i as real, (n - 1) as real);
      i as real / (n - 1) as real
  }

  lemma FractionInUnit(a: real, b: real)
    requires 0.0 <= a && 0.0 < b
    ensures 0.0 <= a / b
    ensures a < b ==> a / b < 1.0
    ensures a <= b ==> a / b <= 1.0
  {
    var q := a / b;
    assert q * b == a;
    ScaleByPositive(q, b);
  }

  lemma ScaleByPositive(q: real, b: real)
    requires 0.0 < b
    ensures q < 0.0 ==> q * b < 0.0
    ensures 1.0 <= q ==> b <= q * b
    ensures 1.0 < q ==> b < q * b
  {
    assert q * b - b == (q - 1.0) * b;
  }

  /**
   * The polynomial cs[0] + cs[1] t + cs[2] t^2 + ... (constant term first),
   * evaluated in nested form; over the reals this is the same value as the
   * sum of monomials the ramps are written with.
   */
  function Poly(cs: seq<real>, t: real): real
    decreases |cs|
  {
    if cs == [] then 0.0 else cs[0] + t * Poly(cs[1..], t)
  }

  function Unit(x: real): real { Clamp(x, 0.0, 1.0) }

  /** The colour of a ramp at parameter t. */
  function RampColor(kind: ColorMapKind, t: real): (c: Float3)
    ensures kind != Cool && kind != Gray ==> InUnitCube(c)
    ensures 0.0 <= t <= 1.0 ==> InUnitCube(c)
  {
    match kind
    case Jet =>
      Float3(Unit(1.5 - Abs(4.0 * (t - 0.75))), Unit(1.5 - Abs(4.0 * (t - 0.5))), Unit(1.5 - Abs(4.0 * (t - 0.25))))
    case Hot =>
      Float3(Unit(3.0 * t), Unit(3.0 * t - 1.0), Unit(3.0 * t - 2.0))
    case Cool =>
      Float3(t, 1.0 - t, 1.0)
    case Turbo =>
      Float3(
        Unit(Poly([0.1357, 4.6154, -42.6603, 132.1311, -152.9424, 59.2864], t)),
        Unit(Poly([0.0917, 2.1946, 4.8429, -14.1850, 4.2773, 2.8295], t)),
        Unit(Poly([0.1067, 12.6419, -60.5821, 145.9810, -131.2412, 41.5549], t)))
    case Viridis =>
      Float3(
        Unit(Poly([0.280268, 0.165560, 0.476484, -0.813533], t)),
        Unit(Poly([0.165560, 0.476484, 0.813533, -0.280268], t)),
        Unit(Poly([0.476484, 0.813533, 0.280268, -0.165560], t)))
    case Inferno =>
      Float3(
        Unit(Poly([0.000218, 0.106513, 2.224347, -5.077576, 4.493337], t)),
        Unit(Poly([0.000217, 0.106514, 2.224348, -5.077577, 4.493338], t)),
        Unit(Poly([0.000215, 0.106515, 2.224349, -5.077578, 4.493339], t)))
    case Gray =>
      Float3(t, t, t)
  }

  predicate InUnitCube(c: Float3)
  {
    0.0 <= c.x <= 1.0 && 0.0 <= c.y <= 1.0 && 0.0 <= c.z <= 1.0
  }

  /** The ramp a successful call returns: entry i is the ramp colour at parameter i. */
  function Ramp(kind: ColorMapKind, divCount: int): (r: seq<Float3>)
    requires kind != Jet || 0 <= divCount
    ensures |r| == RampSize(kind, divCount)
  {
    var n := RampSize(kind, divCount);
    seq(n, i requires 0 <= i < n => RampColor(kind, RampParameter(kind, i, n)))
  }

  /**
   * JetColorMap / HotColorMap / CoolColorMap / TurboColorMap /
   * ViridisColorMap / InfernoColorMap / GrayColorMap: allocate the ramp and
   * fill it entry by entry. Jet with a negative count fails: a vector of
   * that size cannot be allocated.
   */
  method BuildColorMap(kind: ColorMapKind, divCount: int) returns (r: Option<seq<Float3>>)
    ensures r.None? <==> kind == Jet && divCount < 0
    ensures r.Some? ==> r.value == Ramp(kind, divCount)
  {
    if kind == Jet && divCount < 0 {
      return None;
    }
    var n := RampSize(kind, divCount);
    var ramp := new Float3[n](_ => Float3(0.0, 0.0, 0.0));
    for i := 0 to n
      invariant forall j :: 0 <= j < i ==> ramp[j] == RampColor(kind, RampParameter(kind, j, n))
    {
      ramp[i] := RampColor(kind, RampParameter(kind, i, n));
    }
    return Some(ramp[..]);
  }

  /** Every channel of every ramp entry lies in [0,1]. */
  lemma RampChannelsInUnitRange(kind: ColorMapKind, divCount: int)
    requires kind != Jet || 0 <= divCount
    ensures forall i :: 0 <= i < |Ramp(kind, divCount)| ==> InUnitCube(Ramp(kind, divCount)[i])
  {
    var n := RampSize(kind, divCount);
    forall i | 0 <= i < n
      ensures InUnitCube(Ramp(kind, divCount)[i])
    {
      var t := RampParameter(kind, i, n);
      assert InUnitCube(RampColor(kind, t));
    }
  }

  /** The non-Jet ramps start at parameter 0 and end at parameter 1. */
  lemma RampEndpoints(kind: ColorMapKind, divCount: int)
    requires kind != Jet
    ensures var r := Ramp(kind, divCount);
      r[0] == RampColor(kind, 0.0) && r[|r| - 1] == RampColor(kind, 1.0)
  {
    var n := RampSize(kind, divCount);
    assert RampParameter(kind, 0, n) == 0.0;
    assert RampParameter(kind, n - 1, n) == 1.0;
  }

  /** Every gray-ramp entry is a gray, and the grays strictly increase along the ramp. */
  lemma GrayRampIncreasing(divCount: int, i: int, j: int)
    requires 0 <= i < j < RampSize(Gray, divCount)
    ensures var r := Ramp(Gray, divCount);
      r[i].x == r[i].y == r[i].z && r[i].x < r[j].x
  {
    var n := RampSize(Gray, divCount);
    var d := (n - 1) as real;
    assert i as real / d < j as real / d by {
      assert (i as real / d) * d == i as real;
      assert (j as real / d) * d == j as real;
    }
  }

  /** The palette a panel colour-map index selects: 0 Turbo, 1 Viridis, 2 Hot, 3 Cool, anything else Gray. */
  function ColorMapKindFor(colorMapIndex: int): (kind: ColorMapKind)
    ensures kind != Jet && kind != Inferno
    ensures colorMapIndex !in {0, 1, 2, 3} ==> kind == Gray
  {
    match colorMapIndex
    case 0 => Turbo
    case 1 => Viridis
    case 2 => Hot
    case 3 => Cool
    case _ => Gray
  }
}
