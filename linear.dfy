/** Vectors and 4x4 matrices as the engine uses them (glm's vec3, quat and
    mat4), over exact reals: floating-point rounding is not modelled. */
module Linear {

  datatype Vec3 = Vec3(x: real, y: real, z: real)

  const Zero := Vec3(0.0, 0.0, 0.0)

  function Add(a: Vec3, b: Vec3): Vec3 { Vec3(a.x + b.x, a.y + b.y, a.z + b.z) }

  function Sub(a: Vec3, b: Vec3): Vec3 { Vec3(a.x - b.x, a.y - b.y, a.z - b.z) }

  function Neg(a: Vec3): Vec3 { Vec3(-a.x, -a.y, -a.z) }

  function Scale(a: Vec3, k: real): Vec3 { Vec3(a.x * k, a.y * k, a.z * k) }

  function Dot(a: Vec3, b: Vec3): real { a.x * b.x + a.y * b.y + a.z * b.z }

  function Cross(a: Vec3, b: Vec3): Vec3
  {
    Vec3(a.y * b.z - a.z * b.y, a.z * b.x - a.x * b.z, a.x * b.y - a.y * b.x)
  }

  /** glm::length2 */
  function Length2(a: Vec3): real { Dot(a, a) }

  /** Component-wise min and max (glm's `std::min` per axis). */
  function Min(a: real, b: real): real { if a <= b then a else b }
  function Max(a: real, b: real): real { if a >= b then a else b }
  function Abs(a: real): real { if a < 0.0 then -a else a }

  /** glm::mix(a, b, t) = a * (1 - t) + b * t */
  function Mix(a: Vec3, b: Vec3, t: real): (r: Vec3)
    ensures t == 0.0 ==> r == a
    ensures t == 1.0 ==> r == b
  {
    Add(Scale(a, 1.0 - t), Scale(b, t))
  }

  /** `glm::length` has no closed form over the reals here, so every member
      that needs it takes the length function as a parameter, constrained to
      be the Euclidean norm: non-negative, squaring to the dot product, and
      zero exactly at the zero vector. */
  ghost predicate IsNorm(norm: Vec3 -> real)
  {
    forall v :: norm(v) >= 0.0 && norm(v) * norm(v) == Dot(v, v) && (norm(v) == 0.0 <==> v == Zero)
  }

  lemma MulPos(a: real, b: real)
    requires a > 0.0 && b > 0.0
    ensures a * b > 0.0
  {
  }

  /** A vector whose squared length is positive has a positive length. */
  lemma NormPos(norm: Vec3 -> real, v: Vec3)
    requires IsNorm(norm)
    requires Dot(v, v) > 0.0
    ensures norm(v) > 0.0
  {
    var n := norm(v);
    assert n >= 0.0;
    assert n * n > 0.0;
  }

  /** Scaling twice is scaling by the product. */
  lemma ScaleScale(v: Vec3, p: real, q: real)
    ensures Scale(Scale(v, p), q) == Scale(v, p * q)
  {
  }

  /** Dot product against v - k*n. */
  lemma DotSubScale(n: Vec3, v: Vec3, k: real)
    ensures Dot(n, Sub(v, Scale(n, k))) == Dot(n, v) - k * Dot(n, n)
  {
  }

  /** glm::normalize: v / |v|. For the zero vector glm divides by zero; the
      model requires a non-zero length instead. */
  function Normalize(norm: Vec3 -> real, v: Vec3): Vec3
    requires norm(v) != 0.0
  {
    Scale(v, 1.0 / norm(v))
  }

  /** Scaling a normalised vector by the length gives the vector back. */
  lemma NormalizeBack(norm: Vec3 -> real, v: Vec3)
    requires norm(v) != 0.0
    ensures Scale(Normalize(norm, v), norm(v)) == v
  {
    var k := 1.0 / norm(v);
    assert k * norm(v) == 1.0;
    assert (v.x * k) * norm(v) == v.x * (k * norm(v));
    assert (v.y * k) * norm(v) == v.y * (k * norm(v));
    assert (v.z * k) * norm(v) == v.z * (k * norm(v));
  }

  /** Normalising gives a unit vector pointing the same way. */
  lemma NormalizeUnit(norm: Vec3 -> real, v: Vec3)
    requires IsNorm(norm)
    requires norm(v) > 0.0
    ensures Dot(Normalize(norm, v), Normalize(norm, v)) == 1.0
    ensures Scale(Normalize(norm, v), norm(v)) == v
  {
    var n := norm(v);
    var k := 1.0 / n;
    assert n * k == 1.0;
    var u := Normalize(norm, v);
    calc {
      Dot(u, u);
      (v.x * k) * (v.x * k) + (v.y * k) * (v.y * k) + (v.z * k) * (v.z * k);
      { assert (v.x * k) * (v.x * k) == (v.x * v.x) * (k * k);
        assert (v.y * k) * (v.y * k) == (v.y * v.y) * (k * k);
        assert (v.z * k) * (v.z * k) == (v.z * v.z) * (k * k); }
      Dot(v, v) * (k * k);
      (n * n) * (k * k);
      { assert (n * n) * (k * k) == (n * k) * (n * k); }
      1.0;
    }
    assert u.x * n == v.x * (k * n);
    assert u.y * n == v.y * (k * n);
    assert u.z * n == v.z * (k * n);
  }

  /** A unit vector has length one. */
  lemma UnitNorm(norm: Vec3 -> real, u: Vec3)
    requires IsNorm(norm)
    requires Dot(u, u) == 1.0
    ensures norm(u) == 1.0
  {
    var n := norm(u);
    assert n >= 0.0 && n * n == 1.0;
    if n < 1.0 {
      if n > 0.0 { MulPos(n, 1.0 - n); }
    } else if n > 1.0 {
      MulPos(n - 1.0, n + 1.0);
    }
  }

  /** A matrix stored as glm stores it: `m[c][r]` is column c, row r. */
  ghost predicate Is4x4(m: seq<seq<real>>)
  {
    |m| == 4 && forall c :: 0 <= c < 4 ==> |m[c]| == 4
  }

  type Mat4 = m: seq<seq<real>> | Is4x4(m)
    witness [[1.0, 0.0, 0.0, 0.0], [0.0, 1.0, 0.0, 0.0], [0.0, 0.0, 1.0, 0.0], [0.0, 0.0, 0.0, 1.0]]

  /** glm::mat4(1.0f) */
  const Identity: Mat4 := [[1.0, 0.0, 0.0, 0.0], [0.0, 1.0, 0.0, 0.0], [0.0, 0.0, 1.0, 0.0], [0.0, 0.0, 0.0, 1.0]]

  /** glm::mat4(vec4 c0, vec4 c1, vec4 c2, vec4 c3) from four columns. */
  function FromColumns(c0: seq<real>, c1: seq<real>, c2: seq<real>, c3: seq<real>): Mat4
    requires |c0| == 4 && |c1| == 4 && |c2| == 4 && |c3| == 4
  {
    [c0, c1, c2, c3]
  }

  /** Row r of the upper 3x3 block: (m[0][r], m[1][r], m[2][r]). */
  function Row3(m: Mat4, r: nat): Vec3
    requires r < 4
  {
    Vec3(m[0][r], m[1][r], m[2][r])
  }

  /** Column c of the upper 3x3 block: (m[c][0], m[c][1], m[c][2]). */
  function Column3(m: Mat4, c: nat): Vec3
    requires c < 4
  {
    Vec3(m[c][0], m[c][1], m[c][2])
  }

  /** glm::transpose */
  function Transpose(m: Mat4): (t: Mat4)
    ensures forall c, r :: 0 <= c < 4 && 0 <= r < 4 ==> t[c][r] == m[r][c]
  {
    seq(4, c requires 0 <= c < 4 => seq(4, r requires 0 <= r < 4 => m[r][c]))
  }

  /** The rigid frame `getGlobalMat` builds: columns (right, 0), (up, 0),
      (front, 0) and (position, 1). */
  function Frame(position: Vec3, right: Vec3, up: Vec3, front: Vec3): (m: Mat4)
    ensures Column3(m, 0) == right && Column3(m, 1) == up && Column3(m, 2) == front
    ensures Column3(m, 3) == position
    ensures m[0][3] == 0.0 && m[1][3] == 0.0 && m[2][3] == 0.0 && m[3][3] == 1.0
  {
    FromColumns([right.x, right.y, right.z, 0.0], [up.x, up.y, up.z, 0.0],
                [front.x, front.y, front.z, 0.0], [position.x, position.y, position.z, 1.0])
  }

  /** A view matrix is the transpose of a frame on its rotation part, so
      reading its rows 0, 1, 2 (as `setView` does) gives the frame's right,
      up and front back. */
  lemma FrameRows(position: Vec3, right: Vec3, up: Vec3, front: Vec3)
    ensures var v := Transpose(Frame(position, right, up, front));
            Row3(v, 0) == right && Row3(v, 1) == up && Row3(v, 2) == front
  {
  }

  /** Quaternions in glm's (w, x, y, z) constructor order. */
  datatype Quat = Quat(w: real, x: real, y: real, z: real)

  function QDot(a: Quat, b: Quat): real { a.w * b.w + a.x * b.x + a.y * b.y + a.z * b.z }

  function QNeg(a: Quat): Quat { Quat(-a.w, -a.x, -a.y, -a.z) }
}
