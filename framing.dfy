/** The camera placement of `fitCameraToScene`, as functions on a snapshot of the
    camera's state: framing the scene bounds, the fallback view, and the effect of the
    calls one animation frame runs. */
module Framing {
  import opened Wrappers
  import opened Geometry
  import opened BoundsAccumulation
  import opened Retry

  /** `gFlipRoll`: whether every camera placement is followed by a half-turn roll. */
  const FlipRoll: bool := true

  /** The field of view, in degrees, framing sets. */
  const FramedFov: real := 45.0

  /** The fallback view: from (3,2,3) towards the origin. */
  const FallbackPosition: Vec3 := Vec3(3.0, 2.0, 3.0)

  /** The background colour framing sets, 0xf5f7fb. */
  const ClearColor: int := 0xf5f7fb

  /** What the code reads and writes of the camera. `rolled` says whether the camera is
      turned half a turn about its own viewing axis away from the orientation that
      `setCameraLookAt` gives it. */
  datatype CameraState = CameraState(
    up: Vec3, fov: real, near: real, far: real,
    position: Vec3, target: Vec3, rolled: bool)

  /** `Math.max(size.x, size.y, size.z)`. */
  function MaxDim(size: Vec3): (m: real)
    ensures size.x <= m && size.y <= m && size.z <= m
    ensures m == size.x || m == size.y || m == size.z
  {
    RealMax(RealMax(size.x, size.y), size.z)
  }

  /** `dist`: how far the camera stands off, for a scene whose largest dimension is
      `maxDim` and a field of view of `fov` degrees. */
  function Distance(maxDim: real, fov: real, num: Numerics): (d: real)
    requires 0.0 < num.tanHalfDeg(fov)
    ensures d * (2.0 * num.tanHalfDeg(fov)) == maxDim * 1.2
  {
    maxDim * 1.2 / (2.0 * num.tanHalfDeg(fov))
  }

  /** The framing branch of `fitCameraToScene`: the distance is taken from the field
      of view the camera has on entry, which is then overwritten with 45 degrees; the
      clip planes are clamped from below; the camera looks at the centre of the bounds
      from twice the distance along the fixed oblique direction, and is then rolled. */
  function Frame(c: CameraState, b: Bounds, num: Numerics): (r: CameraState)
    requires 0.0 < num.tanHalfDeg(c.fov)
    ensures r.fov == FramedFov && r.up == c.up && r.target == b.center && r.rolled == FlipRoll
    ensures 0.01 <= r.near < r.far
  {
    var dist := Distance(MaxDim(b.size), c.fov, num);
    var near := RealMax(0.01, dist * 0.001);
    CameraState(c.up, FramedFov, near, RealMax(near + 1.0, dist * 20.0),
                Add(b.center, Scale(dist * 2.0, num.viewDir)), b.center, FlipRoll)
  }

  /** The fallback branch: a look at the origin from (3,2,3), then the roll; the field
      of view, the clip planes and the up vector are left alone. */
  function Fallback(c: CameraState): (r: CameraState)
    ensures r.position == FallbackPosition && r.target == Zero && r.rolled == FlipRoll
    ensures r.up == c.up && r.fov == c.fov && r.near == c.near && r.far == c.far
  {
    c.(position := FallbackPosition, target := Zero, rolled := FlipRoll)
  }

  /** After framing: a 45-degree field of view; a near plane of at least 0.01 and at
      least a thousandth of the distance, equal to one of the two; a far plane at least
      one unit beyond the near plane and at least 20 times the distance; the camera up
      kept; the camera aimed at the centre of the bounds from twice the distance along
      the view direction; the roll applied. */
  lemma FramedCamera(c: CameraState, b: Bounds, num: Numerics)
    requires 0.0 < num.tanHalfDeg(c.fov)
    ensures var r := Frame(c, b, num);
      var dist := Distance(MaxDim(b.size), c.fov, num);
      && r.fov == FramedFov
      && 0.01 <= r.near && dist * 0.001 <= r.near
      && (r.near == 0.01 || r.near == dist * 0.001)
      && r.near + 1.0 <= r.far && dist * 20.0 <= r.far
      && (r.far == r.near + 1.0 || r.far == dist * 20.0)
      && r.up == c.up
      && r.target == b.center
      && Sub(r.position, r.target) == Scale(2.0 * dist, num.viewDir)
      && r.rolled == FlipRoll
  {
  }

  /** Framing reads nothing of the camera but its up vector and the tangent of its
      field of view. */
  lemma FrameDependsOnUpAndFov(c1: CameraState, c2: CameraState, b: Bounds, num: Numerics)
    requires 0.0 < num.tanHalfDeg(c1.fov)
    requires c1.up == c2.up && num.tanHalfDeg(c1.fov) == num.tanHalfDeg(c2.fov)
    ensures Frame(c1, b, num) == Frame(c2, b, num)
  {
  }

  /** Framing the same bounds again gives the same camera from the second call on: the
      second call already measures the distance with the 45-degree field of view. */
  lemma FrameStableFromSecondCall(c: CameraState, b: Bounds, num: Numerics)
    requires 0.0 < num.tanHalfDeg(c.fov) && 0.0 < num.tanHalfDeg(FramedFov)
    ensures var once := Frame(c, b, num);
      && Frame(once, b, num) == Frame(c.(fov := FramedFov), b, num)
      && Frame(Frame(once, b, num), b, num) == Frame(once, b, num)
  {
  }

  /** Dividing a positive length by two different positive tangents gives two
      different distances. */
  lemma DistanceInjective(m: real, t1: real, t2: real)
    requires 0.0 < m && 0.0 < t1 && 0.0 < t2 && t1 != t2
    ensures m * 1.2 / (2.0 * t1) != m * 1.2 / (2.0 * t2)
  {
  }

  /** Scaling a non-zero number by two different factors gives two different results. */
  lemma ScaleInjective(d1: real, d2: real, v: real)
    requires d1 != d2 && v != 0.0
    ensures d1 * 2.0 * v != d2 * 2.0 * v
  {
  }

  /** The first framing is not idempotent: when the camera's field of view on entry has
      a different tangent than 45 degrees and the bounds have a positive dimension, the
      second framing of the same bounds moves the camera. */
  lemma FirstFramingMayMove(c: CameraState, b: Bounds, num: Numerics)
    requires 0.0 < num.tanHalfDeg(c.fov) && 0.0 < num.tanHalfDeg(FramedFov)
    requires num.tanHalfDeg(c.fov) != num.tanHalfDeg(FramedFov)
    requires 0.0 < MaxDim(b.size) && num.viewDir.x != 0.0
    ensures Frame(Frame(c, b, num), b, num).position != Frame(c, b, num).position
  {
    var m := MaxDim(b.size);
    var d1 := Distance(m, c.fov, num);
    var d2 := Distance(m, FramedFov, num);
    DistanceInjective(m, num.tanHalfDeg(c.fov), num.tanHalfDeg(FramedFov));
    ScaleInjective(d1, d2, num.viewDir.x);
  }

  /** Scaling a vector by `k` scales its squared length by `k * k`. */
  lemma ScaledLength(k: real, v: Vec3)
    ensures Dot(Scale(k, v), Scale(k, v)) == k * k * Dot(v, v)
  {
  }

  /** With a unit view direction the camera stands exactly twice the distance away
      from the centre of the bounds. */
  lemma FramedCameraDistance(c: CameraState, b: Bounds, num: Numerics)
    requires 0.0 < num.tanHalfDeg(c.fov) && Dot(num.viewDir, num.viewDir) == 1.0
    ensures var r := Frame(c, b, num);
      var dist := Distance(MaxDim(b.size), c.fov, num);
      Dot(Sub(r.position, r.target), Sub(r.position, r.target)) == (2.0 * dist) * (2.0 * dist)
  {
    var dist := Distance(MaxDim(b.size), c.fov, num);
    var r := Frame(c, b, num);
    assert Sub(r.position, r.target) == Scale(2.0 * dist, num.viewDir);
    ScaledLength(2.0 * dist, num.viewDir);
  }

  /** A positive length over a positive tangent is a positive distance. */
  lemma DistancePositive(m: real, fov: real, num: Numerics)
    requires 0.0 < m && 0.0 < num.tanHalfDeg(fov)
    ensures 0.0 < Distance(m, fov, num)
  {
    var t := num.tanHalfDeg(fov);
    assert 0.0 < m * 1.2;
    assert 0.0 < 2.0 * t;
  }

  /** Bounds that are ready to frame give a positive distance for every field of view
      strictly between 0 and 180 degrees. */
  lemma ReadyBoundsFrameAtPositiveDistance(scene: SceneGraph, fov: real, num: Numerics)
    requires Sound(num) && 0.0 < fov < 180.0 && Ready(SceneBounds(scene, num))
    ensures 0.0 < num.tanHalfDeg(fov)
    ensures 0.0 < Distance(MaxDim(SceneBounds(scene, num).value.size), fov, num)
  {
    ReadyBoundsHaveExtent(scene, num);
    DistancePositive(MaxDim(SceneBounds(scene, num).value.size), fov, num);
  }

  /** The fallback view is the same whatever the camera looked at before, and applying
      it twice is applying it once. */
  lemma FallbackFixed(c: CameraState)
    ensures Fallback(c).position == FallbackPosition && Fallback(c).target == Zero
    ensures Fallback(c).rolled == FlipRoll
    ensures Fallback(c).(up := c.up, fov := c.fov, near := c.near, far := c.far) == Fallback(c)
    ensures Fallback(Fallback(c)) == Fallback(c)
  {
  }

  /** What one call of `fitCameraToScene` with counter `tries` does to the camera. */
  function FitOutcome(c: CameraState, tries: nat, b: Option<Bounds>, num: Numerics): (r: CameraState)
    requires 0.0 < num.tanHalfDeg(c.fov) && 0.0 < num.tanHalfDeg(FramedFov)
    ensures 0.0 < num.tanHalfDeg(r.fov)
  {
    match Decide(Ready(b), tries)
    case Framed => Frame(c, b.value, num)
    case Rescheduled(_) => c
    case FellBack => Fallback(c)
  }

  /** The camera after the calls waiting in `q` run in one animation frame, all seeing
      the same bounds `b`. */
  function ProcessQueue(c: CameraState, q: seq<nat>, b: Option<Bounds>, num: Numerics): (r: CameraState)
    requires 0.0 < num.tanHalfDeg(c.fov) && 0.0 < num.tanHalfDeg(FramedFov)
    ensures 0.0 < num.tanHalfDeg(r.fov)
  {
    if q == [] then c
    else FitOutcome(ProcessQueue(c, q[..|q| - 1], b, num), q[|q| - 1], b, num)
  }

  /** When the bounds are ready every waiting call frames: one call frames with the
      camera's own field of view, and two or more settle on the 45-degree framing. */
  lemma {:induction false} ReadyQueueFrames(c: CameraState, q: seq<nat>, b: Option<Bounds>, num: Numerics)
    requires 0.0 < num.tanHalfDeg(c.fov) && 0.0 < num.tanHalfDeg(FramedFov)
    requires Ready(b) && q != []
    ensures |q| == 1 ==> ProcessQueue(c, q, b, num) == Frame(c, b.value, num)
    ensures 2 <= |q| ==> ProcessQueue(c, q, b, num) == Frame(c.(fov := FramedFov), b.value, num)
  {
    var p := q[..|q| - 1];
    if p != [] {
      ReadyQueueFrames(c, p, b, num);
      FrameStableFromSecondCall(c, b.value, num);
    }
  }

  /** When the bounds are not ready the camera is unchanged, unless some waiting call
      has reached the retry ceiling, in which case it shows the fallback view. */
  lemma {:induction false} MissingQueueFallsBack(c: CameraState, q: seq<nat>, b: Option<Bounds>, num: Numerics)
    requires 0.0 < num.tanHalfDeg(c.fov) && 0.0 < num.tanHalfDeg(FramedFov)
    requires !Ready(b)
    ensures ProcessQueue(c, q, b, num) == if 0 < Exhausted(q, false) then Fallback(c) else c
  {
    if q != [] {
      MissingQueueFallsBack(c, q[..|q| - 1], b, num);
    }
  }
}
