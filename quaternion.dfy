/**
 * quat2rom: the 3x3 rotation matrix of a quaternion (x, y, z, w), written
 * to a 9-float buffer in column-major order (the transpose of the row-built
 * matrix).
 */
module Quaternion {
  import opened MeshTypes

  datatype Quat = Quat(x: real, y: real, z: real, w: real)

  function Negate(q: Quat): Quat
  {
    Quat(-q.x, -q.y, -q.z, -q.w)
  }

  function Norm2(q: Quat): real
  {
    q.x * q.x + q.y * q.y + q.z * q.z + q.w * q.w
  }

  /** The rotation matrix of q, built row by row. */
  function RotMat(q: Quat): (rows: seq<Float3>)
    ensures |rows| == 3
  {
    RotMatOfProducts(ProductsOf(q))
  }

  /** The pairwise products of the components that the matrix entries combine. */
  datatype Products = Products(xx: real, yy: real, zz: real, xy: real, xz: real, yz: real, wx: real, wy: real, wz: real)

  function ProductsOf(q: Quat): Products
  {
    Products(q.x * q.x, q.y * q.y, q.z * q.z, q.x * q.y, q.x * q.z, q.y * q.z, q.w * q.x, q.w * q.y, q.w * q.z)
  }

  /** The matrix entries as linear combinations of the pairwise component products. */
  function RotMatOfProducts(p: Products): (rows: seq<Float3>)
    ensures |rows| == 3
  {
    var Products(xx, yy, zz, xy, xz, yz, wx, wy, wz) := p;
    [Float3(1.0 - 2.0 * (yy + zz), 2.0 * (xy - wz), 2.0 * (xz + wy)),
     Float3(2.0 * (xy + wz), 1.0 - 2.0 * (xx + zz), 2.0 * (yz - wx)),
     Float3(2.0 * (xz - wy), 2.0 * (yz + wx), 1.0 - 2.0 * (xx + yy))]
  }

  /** Component j (0 = x, 1 = y, 2 = z) of a vector. */
  function Component(v: Float3, j: int): real
    requires 0 <= j < 3
  {
    if j == 0 then v.x else if j == 1 then v.y else v.z
  }

  /** The nine floats quat2rom writes: the row-built matrix read column by column. */
  function Rom(q: Quat): (rom: seq<real>)
    ensures |rom| == 9
  {
    var m := RotMat(q);
    [m[0].x, m[1].x, m[2].x,
     m[0].y, m[1].y, m[2].y,
     m[0].z, m[1].z, m[2].z]
  }

  /** quat2rom(q, rom): copies exactly nine entries into the caller's buffer. */
  method Quat2Rom(q: Quat, rom: array<real>)
    requires 9 <= rom.Length
    modifies rom
    ensures rom[..9] == Rom(q)
    ensures rom[9..] == old(rom[9..])
  {
    var m := Rom(q);
    for i := 0 to 9
      invariant rom[..i] == m[..i]
      invariant rom[9..] == old(rom[9..])
    {
      rom[i] := m[i];
    }
  }

  /** Entry 3j+i of the output is component j of row i: the output is the transpose of the row-built matrix. */
  lemma RomIsTranspose(q: Quat)
    ensures forall i, j :: 0 <= i < 3 && 0 <= j < 3 ==> Rom(q)[3 * j + i] == Component(RotMat(q)[i], j)
  {
    var rom, m := Rom(q), RotMat(q);
    forall i, j | 0 <= i < 3 && 0 <= j < 3
      ensures rom[3 * j + i] == Component(m[i], j)
    {
      if j == 0 {
        assert rom[i] == Component(m[i], 0);
      } else if j == 1 {
        assert rom[3 + i] == Component(m[i], 1);
      } else {
        assert rom[6 + i] == Component(m[i], 2);
      }
    }
  }

  /** The identity quaternion gives the identity matrix. */
  lemma IdentityQuaternion()
    ensures Rom(Quat(0.0, 0.0, 0.0, 1.0)) == [1.0, 0.0, 0.0, 0.0, 1.0, 0.0, 0.0, 0.0, 1.0]
  {
    var q := Quat(0.0, 0.0, 0.0, 1.0);
    assert RotMat(q) == [Float3(1.0, 0.0, 0.0), Float3(0.0, 1.0, 0.0), Float3(0.0, 0.0, 1.0)];
  }

  /** q and -q describe the same rotation: every entry is quadratic in the components. */
  lemma NegatedQuaternionSameMatrix(q: Quat)
    ensures Rom(Negate(q)) == Rom(q)
  {
    NegatedQuaternionSameProducts(q);
  }

  lemma NegatedQuaternionSameProducts(q: Quat)
    ensures ProductsOf(Negate(q)) == ProductsOf(q)
  {
    NegTimesNeg(q.x, q.x); NegTimesNeg(q.y, q.y); NegTimesNeg(q.z, q.z);
    NegTimesNeg(q.x, q.y); NegTimesNeg(q.x, q.z); NegTimesNeg(q.y, q.z);
    NegTimesNeg(q.w, q.x); NegTimesNeg(q.w, q.y); NegTimesNeg(q.w, q.z);
  }

  lemma NegTimesNeg(a: real, b: real)
    ensures (-a) * (-b) == a * b
  {
  }

  /** The diagonal entries sit at 0, 4 and 8 and are 1 - 2(y^2+z^2), 1 - 2(x^2+z^2), 1 - 2(x^2+y^2). */
  lemma RomDiagonal(q: Quat)
    ensures Rom(q)[0] + Rom(q)[4] + Rom(q)[8] == 3.0 - 4.0 * (q.x * q.x + q.y * q.y + q.z * q.z)
    ensures Rom(q)[0] == 1.0 - 2.0 * (q.y * q.y + q.z * q.z)
    ensures Rom(q)[4] == 1.0 - 2.0 * (q.x * q.x + q.z * q.z)
    ensures Rom(q)[8] == 1.0 - 2.0 * (q.x * q.x + q.y * q.y)
  {
  }
}
