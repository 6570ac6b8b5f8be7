/** The up-axis tables of `setCameraUp` and `applyOrientation`, and the heuristic that
    picks an up axis from the shape of freshly loaded scene bounds. */
module Orientation {
  import opened Wrappers
  import opened Geometry
  import opened BoundsAccumulation

  /** The world up axis of the viewer, +Y. */
  const WorldUp: Vec3 := Vec3(0.0, 1.0, 0.0)

  /** The scene rotation `applyOrientation` sets for an up-axis tag, after resetting it:
      a quarter turn backwards about X for "Z", a quarter turn about Z for "X", and no
      rotation for anything else. */
  function RotationFor(tag: string): Euler {
    if tag == "Z" then Euler(-1, 0, 0)
    else if tag == "X" then Euler(0, 0, 1)
    else Identity
  }

  /** The camera up vector `setCameraUp` sets for an up-axis tag; +Y by default. */
  function UpFor(tag: string): Vec3 {
    if tag == "Z" then Vec3(0.0, 0.0, 1.0)
    else if tag == "X" then Vec3(1.0, 0.0, 0.0)
    else WorldUp
  }

  /** The cosines and sines of the quarter turns the tables use. */
  lemma QuarterTurns()
    ensures CosQ(0) == 1.0 && SinQ(0) == 0.0
    ensures CosQ(1) == 0.0 && SinQ(1) == 1.0
    ensures CosQ(-1) == 0.0 && SinQ(-1) == -1.0
  {
    assert -1 % 4 == 3;
  }

  /** Every tag gets a unit camera up along one of the three axes, and every tag other
      than "Z" and "X" behaves as "Y". */
  lemma UpIsUnitAxis(tag: string)
    ensures Dot(UpFor(tag), UpFor(tag)) == 1.0
    ensures UpFor(tag) in {Vec3(1.0, 0.0, 0.0), Vec3(0.0, 1.0, 0.0), Vec3(0.0, 0.0, 1.0)}
    ensures tag != "Z" && tag != "X" ==> RotationFor(tag) == RotationFor("Y") == Identity
    ensures tag != "Z" && tag != "X" ==> UpFor(tag) == UpFor("Y") == WorldUp
  {
  }

  /** The rotation lays the scene down so that the tagged asset axis points along the
      world up axis: the asset's +Z for "Z", its +X for "X", and +Y unchanged. */
  lemma RotationLiftsTaggedAxis(tag: string)
    ensures Rotate(RotationFor(tag), UpFor(tag)) == WorldUp
  {
    QuarterTurns();
    if tag == "Z" {
      assert RotZ(0, Vec3(0.0, 0.0, 1.0)) == Vec3(0.0, 0.0, 1.0);
      assert RotY(0, Vec3(0.0, 0.0, 1.0)) == Vec3(0.0, 0.0, 1.0);
    } else if tag == "X" {
      assert RotZ(1, Vec3(1.0, 0.0, 0.0)) == WorldUp;
      assert RotY(0, WorldUp) == WorldUp;
    } else {
      assert RotZ(0, WorldUp) == WorldUp;
    }
  }

  /** The rotation preserves the length of every vector: it is a proper change of
      orientation and does not distort the scene. */
  lemma RotationKeepsLength(tag: string, v: Vec3)
    ensures var w := Rotate(RotationFor(tag), v); Dot(w, w) == Dot(v, v)
  {
  }

  /** For "Z" and "X", the camera up is the asset's tagged axis in the asset's frame,
      but after the rotation that axis points along world +Y, which is perpendicular to
      the camera up: the two tables do not agree on what is up. */
  lemma CameraUpCrossesRotatedAxis(tag: string)
    requires tag == "Z" || tag == "X"
    ensures Dot(UpFor(tag), Rotate(RotationFor(tag), UpFor(tag))) == 0.0
    ensures UpFor(tag) != WorldUp
  {
    RotationLiftsTaggedAxis(tag);
  }

  /** The heuristic on a size: "Z" when the z extent exceeds one and a half times the
      y extent, strictly; "Y" otherwise. */
  function UpAxisOf(size: Vec3): string {
    if size.z > size.y * 1.5 then "Z" else "Y"
  }

  /** The heuristic as the code runs it on `getSceneBounds`: no choice at all when the
      bounds are null or their diagonal is not positive. */
  function DetectUpAxis(b: Option<Bounds>): (tag: Option<string>)
    ensures tag.Some? <==> b.Some? && 0.0 < b.value.diag
    ensures tag.Some? ==> (tag.value == "Z" <==> b.value.size.z > b.value.size.y * 1.5)
    ensures tag.Some? ==> tag.value in {"Y", "Z"}
  {
    if b.Some? && b.value.diag > 0.0 then Some(UpAxisOf(b.value.size)) else None
  }

  /** The threshold is strict: a z extent of exactly one and a half times the y extent,
      or less, is Y-up; anything more is Z-up. */
  lemma UpAxisThreshold(x: real, y: real, z: real)
    ensures z <= y * 1.5 ==> UpAxisOf(Vec3(x, y, z)) == "Y"
    ensures z > y * 1.5 ==> UpAxisOf(Vec3(x, y, z)) == "Z"
    ensures UpAxisOf(Vec3(x, 2.0, 3.0)) == "Y"
    ensures UpAxisOf(Vec3(x, 2.0, 3.01)) == "Z"
  {
  }

  /** The choice depends only on the proportions of the bounds, not on their scale. */
  lemma UpAxisScaleInvariant(size: Vec3, k: real)
    requires 0.0 < k
    ensures UpAxisOf(Scale(k, size)) == UpAxisOf(size)
  {
    if size.z > size.y * 1.5 {
      assert k * size.z > k * (size.y * 1.5);
    } else {
      assert k * size.z <= k * (size.y * 1.5);
    }
  }

  /** With exact numerics the heuristic makes a choice exactly when the bounds are
      ready to frame. */
  lemma DetectUpAxisIffReady(scene: SceneGraph, num: Numerics)
    requires Sound(num)
    ensures DetectUpAxis(SceneBounds(scene, num)).Some? <==> Ready(SceneBounds(scene, num))
  {
    ReadyBoundsHaveExtent(scene, num);
  }
}
