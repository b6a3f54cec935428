/**
 * Transform_t and getTRS: position, rotation and per-axis scale, assembled
 * into a 3x4 row-major matrix [R * S | t], where R is the quat2rom output.
 */
module Transforms {
  import opened MeshTypes
  import opened Quaternion

  datatype Transform = Transform(position: Float3, rotation: Quat, scale: Float3)

  /** The default transform: at the origin, unrotated, unit scale. */
  const DefaultTransform := Transform(Float3(0.0, 0.0, 0.0), Quat(0.0, 0.0, 0.0, 1.0), Float3(1.0, 1.0, 1.0))

  /** The scale factor applied to column c. */
  function ScaleOf(t: Transform, c: int): real
    requires 0 <= c < 3
  {
    if c == 0 then t.scale.x else if c == 1 then t.scale.y else t.scale.z
  }

  /** The twelve floats getTRS writes. */
  function Trs(t: Transform): (trs: seq<real>)
    ensures |trs| == 12
  {
    TrsOf(Rom(t.rotation), t.scale, t.position)
  }

  /** A rotation entry multiplied by a scale factor (`*=` in getTRS). */
  function Scaled(v: real, factor: real): real
  {
    v * factor
  }

  /** The 3x4 matrix built from a column-major rotation r, a scale s and a position p. */
  function TrsOf(r: seq<real>, s: Float3, p: Float3): (trs: seq<real>)
    requires |r| == 9
    ensures |trs| == 12
  {
    [Scaled(r[0], s.x), Scaled(r[1], s.y), Scaled(r[2], s.z), p.x,
     Scaled(r[3], s.x), Scaled(r[4], s.y), Scaled(r[5], s.z), p.y,
     Scaled(r[6], s.x), Scaled(r[7], s.y), Scaled(r[8], s.z), p.z]
  }

  /**
   * getTRS(trs): computes the rotation into a scratch buffer, scales it in
   * place column by column, then copies the 3x4 matrix into the caller's
   * buffer.
   */
  method GetTRS(t: Transform, trs: array<real>)
    requires 12 <= trs.Length
    modifies trs
    ensures trs[..12] == Trs(t)
    ensures trs[12..] == old(trs[12..])
  {
    var rotMat := new real[9];
    Quat2Rom(t.rotation, rotMat);
    ghost var rom := rotMat[..];
    rotMat[0] := Scaled(rotMat[0], t.scale.x);
    rotMat[1] := Scaled(rotMat[1], t.scale.y);
    rotMat[2] := Scaled(rotMat[2], t.scale.z);
    rotMat[3] := Scaled(rotMat[3], t.scale.x);
    rotMat[4] := Scaled(rotMat[4], t.scale.y);
    rotMat[5] := Scaled(rotMat[5], t.scale.z);
    rotMat[6] := Scaled(rotMat[6], t.scale.x);
    rotMat[7] := Scaled(rotMat[7], t.scale.y);
    rotMat[8] := Scaled(rotMat[8], t.scale.z);
    var transforms := [rotMat[0], rotMat[1], rotMat[2], t.position.x,
                       rotMat[3], rotMat[4], rotMat[5], t.position.y,
                       rotMat[6], rotMat[7], rotMat[8], t.position.z];
    assert transforms == TrsOf(rom, t.scale, t.position);
    assert rom == Rom(t.rotation);
    for i := 0 to 12
      invariant trs[..i] == transforms[..i]
      invariant trs[12..] == old(trs[12..])
    {
      trs[i] := transforms[i];
    }
  }

  /** Entry (r, c) of a row-major matrix with the given number of columns. */
  function At(m: seq<real>, cols: int, r: int, c: int): real
    requires 0 <= c < cols
    requires 0 <= r * cols + c < |m|
  {
    m[r * cols + c]
  }

  /** Layout: the last column holds the position, and entry (r, c) of the 3x3 block is entry (r, c) of the rotation scaled by axis c. */
  lemma TrsLayout(t: Transform)
    ensures Trs(t)[3] == t.position.x && Trs(t)[7] == t.position.y && Trs(t)[11] == t.position.z
    ensures forall r, c :: 0 <= r < 3 && 0 <= c < 3 ==> At(Trs(t), 4, r, c) == Scaled(At(Rom(t.rotation), 3, r, c), ScaleOf(t, c))
  {
    TrsOfLayout(Rom(t.rotation), t);
  }

  lemma TrsOfLayout(rom: seq<real>, t: Transform)
    requires |rom| == 9
    ensures var m := TrsOf(rom, t.scale, t.position);
      forall r, c :: 0 <= r < 3 && 0 <= c < 3 ==> At(m, 4, r, c) == Scaled(At(rom, 3, r, c), ScaleOf(t, c))
  {
    var m := TrsOf(rom, t.scale, t.position);
    forall r, c | 0 <= r < 3 && 0 <= c < 3
      ensures At(m, 4, r, c) == Scaled(At(rom, 3, r, c), ScaleOf(t, c))
    {
      RowOffsets(r, c);
    }
  }

  lemma RowOffsets(r: int, c: int)
    requires 0 <= r < 3 && 0 <= c < 3
    ensures r * 4 + c == (if r == 0 then c else if r == 1 then 4 + c else 8 + c)
    ensures r * 3 + c == (if r == 0 then c else if r == 1 then 3 + c else 6 + c)
  {
  }

  /** The default transform gives the identity matrix with a zero translation column. */
  lemma DefaultTransformIsIdentity()
    ensures Trs(DefaultTransform) == [1.0, 0.0, 0.0, 0.0, 0.0, 1.0, 0.0, 0.0, 0.0, 0.0, 1.0, 0.0]
  {
    IdentityQuaternion();
  }
}
