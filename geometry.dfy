/** Exact vectors, boxes and quarter-turn rotations, plus the floating-point
    primitives the viewer uses (square root, tangent, normalisation), injected as an
    environment whose only known facts are stated by `Sound`. */
module Geometry {

  datatype Vec3 = Vec3(x: real, y: real, z: real)

  const Zero: Vec3 := Vec3(0.0, 0.0, 0.0)

  function Add(a: Vec3, b: Vec3): Vec3 { Vec3(a.x + b.x, a.y + b.y, a.z + b.z) }

  function Sub(a: Vec3, b: Vec3): Vec3 { Vec3(a.x - b.x, a.y - b.y, a.z - b.z) }

  function Scale(k: real, v: Vec3): Vec3 { Vec3(k * v.x, k * v.y, k * v.z) }

  /** The midpoint of two points, `(a + b) * 0.5`. */
  function Midpoint(a: Vec3, b: Vec3): Vec3 { Vec3((a.x + b.x) / 2.0, (a.y + b.y) / 2.0, (a.z + b.z) / 2.0) }

  function Dot(a: Vec3, b: Vec3): real { a.x * b.x + a.y * b.y + a.z * b.z }

  function RealMin(a: real, b: real): real { if a <= b then a else b }

  function RealMax(a: real, b: real): real { if a >= b then a else b }

  /** Componentwise minimum and maximum (`Vector3.min`, `Vector3.max`). */
  function Min(a: Vec3, b: Vec3): Vec3 { Vec3(RealMin(a.x, b.x), RealMin(a.y, b.y), RealMin(a.z, b.z)) }

  function Max(a: Vec3, b: Vec3): Vec3 { Vec3(RealMax(a.x, b.x), RealMax(a.y, b.y), RealMax(a.z, b.z)) }

  predicate LessEq(a: Vec3, b: Vec3) { a.x <= b.x && a.y <= b.y && a.z <= b.z }

  /** An axis-aligned box with finite corners. */
  datatype Box3 = Box3(min: Vec3, max: Vec3)

  /** `outer` contains `inner`. */
  predicate Within(inner: Box3, outer: Box3) {
    LessEq(outer.min, inner.min) && LessEq(inner.max, outer.max)
  }

  /** The raw oblique viewing direction before normalisation. */
  const RawViewDir: Vec3 := Vec3(-0.9, 0.6, -0.9)

  /** Floating-point primitives the code calls: `Math.sqrt` (inside `Vector3.length`),
      `Math.tan` of half a field of view given in degrees, and
      `new Vector3(-0.9, 0.6, -0.9).normalize()`. */
  datatype Numerics = Numerics(sqrt: real -> real, tanHalfDeg: real -> real, viewDir: Vec3)

  /** What the model assumes of them: an exact non-negative square root that is zero
      exactly at zero, a positive
      tangent for every field of view strictly between 0 and 180 degrees, and a view
      direction of unit length pointing the same way as `RawViewDir`. */
  ghost predicate Sound(n: Numerics) {
    && (forall x :: 0.0 <= x ==> 0.0 <= n.sqrt(x) && n.sqrt(x) * n.sqrt(x) == x && (n.sqrt(x) == 0.0 <==> x == 0.0))
    && (forall f :: 0.0 < f < 180.0 ==> 0.0 < n.tanHalfDeg(f))
    && Dot(n.viewDir, n.viewDir) == 1.0
    && n.viewDir.x < 0.0 && n.viewDir.z == n.viewDir.x && 3.0 * n.viewDir.y == -2.0 * n.viewDir.x
  }

  /** A non-negative vector of non-zero length is positive along some axis. */
  lemma PositiveSomewhere(s: Vec3)
    requires LessEq(Zero, s) && Dot(s, s) != 0.0
    ensures 0.0 < s.x || 0.0 < s.y || 0.0 < s.z
  {
  }

  /** A scene rotation as Euler angles in whole quarter turns, applied in THREE's
      default X-Y-Z order. */
  datatype Euler = Euler(x: int, y: int, z: int)

  const Identity: Euler := Euler(0, 0, 0)

  /** Exact cosine and sine of q quarter turns. */
  function CosQ(q: int): real {
    match q % 4
    case 0 => 1.0
    case 2 => -1.0
    case _ => 0.0
  }

  function SinQ(q: int): real {
    match q % 4
    case 1 => 1.0
    case 3 => -1.0
    case _ => 0.0
  }

  function RotX(q: int, v: Vec3): Vec3 {
    Vec3(v.x, CosQ(q) * v.y - SinQ(q) * v.z, SinQ(q) * v.y + CosQ(q) * v.z)
  }

  function RotY(q: int, v: Vec3): Vec3 {
    Vec3(CosQ(q) * v.x + SinQ(q) * v.z, v.y, -SinQ(q) * v.x + CosQ(q) * v.z)
  }

  function RotZ(q: int, v: Vec3): Vec3 {
    Vec3(CosQ(q) * v.x - SinQ(q) * v.y, SinQ(q) * v.x + CosQ(q) * v.y, v.z)
  }

  /** The world image of a vector under the rotation (matrix Rx * Ry * Rz). */
  function Rotate(e: Euler, v: Vec3): Vec3 {
    RotX(e.x, RotY(e.y, RotZ(e.z, v)))
  }
}
