/** `getSceneBounds`: the axis-aligned bounds of everything the scene traversal
    visits, with centre, size and diagonal. */
module BoundsAccumulation {
  import opened Wrappers
  import opened Geometry

  /** What one visited node yields: the per-node computation threw (and the exception
      was swallowed), or a world-space box together with the outcome of `isFinite` on
      its `min.x` and `max.x`. When a flag is false the matching coordinate stands for
      a non-finite value and is never used. */
  datatype NodeBox = Threw | Measured(box: Box3, minXFinite: bool, maxXFinite: bool)

  /** The viewer's scene root, if there is one, as the node boxes of its traversal. */
  datatype SceneGraph = NoScene | Scene(nodes: seq<NodeBox>)

  /** The running `Box3`: `NoPoints` is a freshly made box, whose min is +Infinity and
      max is -Infinity in every coordinate, so that the first union replaces it. */
  datatype Extent = NoPoints | Extent(box: Box3)

  /** The record `getSceneBounds` returns. */
  datatype Bounds = Bounds(extent: Extent, center: Vec3, size: Vec3, diag: real)

  /** The finiteness filter: only the x coordinates of a box are tested. */
  predicate Contributes(n: NodeBox) {
    n.Measured? && n.minXFinite && n.maxXFinite
  }

  /** `box.union(b)`. */
  function Union(e: Extent, b: Box3): (r: Extent)
    ensures r.Extent? && Within(b, r.box)
    ensures e.Extent? ==> Within(e.box, r.box)
  {
    match e
    case NoPoints => Extent(b)
    case Extent(a) => Extent(Box3(Min(a.min, b.min), Max(a.max, b.max)))
  }

  /** One step of the traversal callback. */
  function Include(e: Extent, n: NodeBox): (r: Extent)
    ensures Contributes(n) ==> r.Extent? && Within(n.box, r.box)
    ensures e.Extent? ==> r.Extent? && Within(e.box, r.box)
    ensures !Contributes(n) ==> r == e
  {
    if Contributes(n) then Union(e, n.box) else e
  }

  /** The running box after visiting `nodes` in order. */
  function Accumulate(nodes: seq<NodeBox>): Extent {
    if nodes == [] then NoPoints
    else Include(Accumulate(nodes[..|nodes| - 1]), nodes[|nodes| - 1])
  }

  /** `Box3.isEmpty`. */
  predicate IsEmpty(e: Extent) {
    e.NoPoints? || e.box.max.x < e.box.min.x || e.box.max.y < e.box.min.y || e.box.max.z < e.box.min.z
  }

  /** The returned record: zero centre, size and diagonal for an empty box; otherwise
      the midpoint, `max - min` and the length of the size. */
  function Summarize(e: Extent, num: Numerics): Bounds {
    if IsEmpty(e) then Bounds(e, Zero, Zero, 0.0)
    else
      var size := Sub(e.box.max, e.box.min);
      Bounds(e, Midpoint(e.box.min, e.box.max), size, num.sqrt(Dot(size, size)))
  }

  /** What `getSceneBounds` returns: null without a scene root. */
  function SceneBounds(scene: SceneGraph, num: Numerics): Option<Bounds> {
    match scene
    case NoScene => None
    case Scene(nodes) => Some(Summarize(Accumulate(nodes), num))
  }

  /** Bounds good enough to frame: present and with a non-zero diagonal. */
  predicate Ready(b: Option<Bounds>) {
    b.Some? && b.value.diag != 0.0
  }

  /** `getSceneBounds`: traverses the nodes, unioning every box that passes the
      finiteness filter into one running box, then summarises it. */
  method GetSceneBounds(scene: SceneGraph, num: Numerics) returns (b: Option<Bounds>)
    ensures b == SceneBounds(scene, num)
  {
    if scene.NoScene? {
      return None;
    }
    var nodes := scene.nodes;
    var box := NoPoints;
    var i := 0;
    while i < |nodes|
      invariant 0 <= i <= |nodes|
      invariant box == Accumulate(nodes[..i])
    {
      assert nodes[..i + 1][..i] == nodes[..i];
      match nodes[i] {
        case Threw =>
        case Measured(bb, minFinite, maxFinite) =>
          if minFinite && maxFinite {
            box := Union(box, bb);
          }
      }
      i := i + 1;
    }
    assert nodes[..|nodes|] == nodes;
    if IsEmpty(box) {
      return Some(Bounds(box, Zero, Zero, 0.0));
    }
    var center := Midpoint(box.box.min, box.box.max);
    var size := Sub(box.box.max, box.box.min);
    b := Some(Bounds(box, center, size, num.sqrt(Dot(size, size))));
  }

  /** The result box contains the box of every node that passes the filter. */
  lemma {:induction false} AccumulateContains(nodes: seq<NodeBox>, i: nat)
    requires i < |nodes| && Contributes(nodes[i])
    ensures Accumulate(nodes).Extent? && Within(nodes[i].box, Accumulate(nodes).box)
  {
    var prefix := nodes[..|nodes| - 1];
    if i < |nodes| - 1 {
      assert prefix[i] == nodes[i];
      AccumulateContains(prefix, i);
    }
  }

  /** And it is the smallest such box: any box containing all of them contains it. */
  lemma {:induction false} AccumulateIsLeast(nodes: seq<NodeBox>, outer: Box3)
    requires forall i :: 0 <= i < |nodes| && Contributes(nodes[i]) ==> Within(nodes[i].box, outer)
    ensures Accumulate(nodes).NoPoints? || Within(Accumulate(nodes).box, outer)
  {
    if nodes != [] {
      var prefix := nodes[..|nodes| - 1];
      assert forall i :: 0 <= i < |prefix| ==> prefix[i] == nodes[i];
      AccumulateIsLeast(prefix, outer);
    }
  }

  /** Nothing is accumulated exactly when no node passes the filter. */
  lemma {:induction false} AccumulateNoPoints(nodes: seq<NodeBox>)
    ensures Accumulate(nodes).NoPoints? <==> forall i :: 0 <= i < |nodes| ==> !Contributes(nodes[i])
  {
    if nodes != [] {
      var prefix := nodes[..|nodes| - 1];
      assert forall i :: 0 <= i < |prefix| ==> prefix[i] == nodes[i];
      AccumulateNoPoints(prefix);
    }
  }

  /** A node that fails the filter, or threw, has no effect: removing it from the
      traversal changes nothing. */
  lemma {:induction false} SkippedNodeHasNoEffect(nodes: seq<NodeBox>, i: nat)
    requires i < |nodes| && !Contributes(nodes[i])
    ensures Accumulate(nodes[..i] + nodes[i + 1..]) == Accumulate(nodes)
  {
    var n := |nodes|;
    var rest := nodes[..i] + nodes[i + 1..];
    if i == n - 1 {
      assert rest == nodes[..n - 1];
    } else {
      var prefix := nodes[..n - 1];
      SkippedNodeHasNoEffect(prefix, i);
      assert rest[..|rest| - 1] == prefix[..i] + prefix[i + 1..];
      assert rest[|rest| - 1] == nodes[n - 1];
    }
  }

  /** A scene in which no node passes the filter has no extent, a zero centre and size,
      a zero diagonal, and is not ready to frame. */
  lemma EmptySceneBounds(nodes: seq<NodeBox>, num: Numerics)
    requires forall i :: 0 <= i < |nodes| ==> !Contributes(nodes[i])
    ensures SceneBounds(Scene(nodes), num) == Some(Bounds(NoPoints, Zero, Zero, 0.0))
    ensures !Ready(SceneBounds(Scene(nodes), num))
  {
    AccumulateNoPoints(nodes);
  }

  /** A non-empty box summarises to `size = max - min` (non-negative), its midpoint,
      and a diagonal equal to the length of the size: zero exactly when the size has
      zero length, as for a box that is a single point. */
  lemma NonEmptyBoundsGeometry(e: Extent, num: Numerics)
    requires Sound(num) && !IsEmpty(e)
    ensures var b := Summarize(e, num);
      && b.size == Sub(e.box.max, e.box.min)
      && LessEq(Zero, b.size)
      && b.center == Midpoint(e.box.min, e.box.max)
      && 0.0 <= b.diag && b.diag * b.diag == Dot(b.size, b.size)
      && (b.diag == 0.0 <==> Dot(b.size, b.size) == 0.0)
      && (b.size == Zero ==> b.diag == 0.0)
  {
    var s := Sub(e.box.max, e.box.min);
    assert 0.0 <= s.x * s.x && 0.0 <= s.y * s.y && 0.0 <= s.z * s.z;
  }

  /** Bounds are ready exactly when their diagonal is positive, and then the box has a
      positive extent along at least one axis. */
  lemma ReadyBoundsHaveExtent(scene: SceneGraph, num: Numerics)
    requires Sound(num)
    ensures scene.Scene? ==> 0.0 <= SceneBounds(scene, num).value.diag
    ensures Ready(SceneBounds(scene, num)) ==>
      var b := SceneBounds(scene, num).value;
      && 0.0 < b.diag
      && LessEq(Zero, b.size)
      && (0.0 < b.size.x || 0.0 < b.size.y || 0.0 < b.size.z)
  {
    if scene.Scene? && !IsEmpty(Accumulate(scene.nodes)) {
      var e := Accumulate(scene.nodes);
      var b := Summarize(e, num);
      NonEmptyBoundsGeometry(e, num);
      if b.diag != 0.0 {
        PositiveSomewhere(b.size);
      }
    }
  }

  /** The traversal of a single node spanning (-1,-1,-1) to (1,1,1). */
  const UnitCube: SceneGraph := Scene([Measured(Box3(Vec3(-1.0, -1.0, -1.0), Vec3(1.0, 1.0, 1.0)), true, true)])

  /** That scene is centred at the origin, has size (2,2,2) and a diagonal equal to the
      square root of 12 (2 times the square root of 3). */
  lemma UnitCubeShape(num: Numerics)
    ensures SceneBounds(UnitCube, num).Some?
    ensures SceneBounds(UnitCube, num).value.center == Zero
    ensures SceneBounds(UnitCube, num).value.size == Vec3(2.0, 2.0, 2.0)
    ensures SceneBounds(UnitCube, num).value.diag == num.sqrt(12.0)
  {
  }

  /** The same scene, with exact numerics: a positive diagonal whose square is 12, so it
      is ready to frame. */
  lemma UnitCubeBounds(num: Numerics)
    requires Sound(num)
    ensures SceneBounds(UnitCube, num).Some?
    ensures SceneBounds(UnitCube, num).value.center == Zero
    ensures SceneBounds(UnitCube, num).value.size == Vec3(2.0, 2.0, 2.0)
    ensures 0.0 < SceneBounds(UnitCube, num).value.diag
    ensures SceneBounds(UnitCube, num).value.diag * SceneBounds(UnitCube, num).value.diag == 12.0
    ensures Ready(SceneBounds(UnitCube, num))
  {
    UnitCubeShape(num);
  }
}
