/** The viewer session: the camera and scene state that `setCameraUp`,
    `applyOrientation` and `fitCameraToScene` update in place, the queue of framing
    calls waiting for the next animation frame, and the steps of a scene load. */
module ViewerSession {
  import opened Wrappers
  import opened Geometry
  import opened BoundsAccumulation
  import opened Retry
  import opened Framing
  import opened Orientation
  import opened Formats

  /** Where the camera is placed when the viewer is created. */
  const InitialPosition: Vec3 := Vec3(-2.2, 1.8, -1.6)

  /** The viewer's perspective camera. */
  class Camera {
    var up: Vec3
    var fov: real
    var near: real
    var far: real
    var position: Vec3
    var target: Vec3
    var rolled: bool

    /** A snapshot of the camera. */
    function State(): CameraState
      reads this
    {
      CameraState(up, fov, near, far, position, target, rolled)
    }

    /** A camera at the origin looking down -Z with +Y up and the given lens. */
    constructor (fov: real, near: real, far: real)
      ensures State() == CameraState(WorldUp, fov, near, far, Zero, Vec3(0.0, 0.0, -1.0), false)
    {
      this.up := WorldUp;
      this.fov := fov;
      this.near := near;
      this.far := far;
      this.position := Zero;
      this.target := Vec3(0.0, 0.0, -1.0);
      this.rolled := false;
    }

    /** The viewer's `setCameraLookAt`: moves the camera and aims it at `target`; the
        orientation is recomputed from the up vector, which clears any roll. */
    method LookAt(position: Vec3, target: Vec3)
      modifies this
      ensures State() == old(State()).(position := position, target := target, rolled := false)
    {
      this.position := position;
      this.target := target;
      this.rolled := false;
    }

    /** `rotateZ(Math.PI)`: half a turn about the viewing axis. */
    method RotateZHalfTurn()
      modifies this
      ensures State() == old(State()).(rolled := !old(rolled))
    {
      rolled := !rolled;
    }
  }

  /** The bounds `getSceneBounds` computes in each of a run of frames, one scene
      snapshot per frame. */
  function BoundsOf(scenes: seq<SceneGraph>, num: Numerics): (bs: seq<Option<Bounds>>)
    ensures |bs| == |scenes|
    ensures forall k :: 0 <= k < |scenes| ==> bs[k] == SceneBounds(scenes[k], num)
  {
    seq(|scenes|, k requires 0 <= k < |scenes| => SceneBounds(scenes[k], num))
  }

  /** The bounds of one more frame. */
  lemma BoundsOfSnoc(scenes: seq<SceneGraph>, i: nat, num: Numerics)
    requires i < |scenes|
    ensures BoundsOf(scenes[..i + 1], num) == BoundsOf(scenes[..i], num) + [SceneBounds(scenes[i], num)]
  {
    var bs := BoundsOf(scenes[..i], num) + [SceneBounds(scenes[i], num)];
    assert forall k :: 0 <= k < i + 1 ==> BoundsOf(scenes[..i + 1], num)[k] == bs[k];
  }

  /** Whether the bounds are ready in each of a run of frames. */
  function Readiness(bs: seq<Option<Bounds>>): (r: seq<bool>)
    ensures |r| == |bs|
    ensures forall k :: 0 <= k < |bs| ==> r[k] == Ready(bs[k])
  {
    seq(|bs|, k requires 0 <= k < |bs| => Ready(bs[k]))
  }

  /** The readiness of one more frame. */
  lemma ReadinessSnoc(bs: seq<Option<Bounds>>, last: Option<Bounds>)
    ensures Readiness(bs + [last]) == Readiness(bs) + [Ready(last)]
  {
    var r := Readiness(bs) + [Ready(last)];
    assert forall k :: 0 <= k < |bs| + 1 ==> Readiness(bs + [last])[k] == r[k];
  }

  /** Running one more of the waiting calls. */
  lemma QueuePrefixStep(c: CameraState, q: seq<nat>, i: nat, b: Option<Bounds>, num: Numerics)
    requires i < |q|
    requires 0.0 < num.tanHalfDeg(c.fov) && 0.0 < num.tanHalfDeg(FramedFov)
    ensures Advance(q[..i + 1], Ready(b)) == Advance(q[..i], Ready(b)) + Requeued(Decide(Ready(b), q[i]))
    ensures Exhausted(q[..i + 1], Ready(b)) == Exhausted(q[..i], Ready(b)) + (if Decide(Ready(b), q[i]) == FellBack then 1 else 0)
    ensures ProcessQueue(c, q[..i + 1], b, num) == FitOutcome(ProcessQueue(c, q[..i], b, num), q[i], b, num)
  {
    assert q[..i + 1][..i] == q[..i];
  }

  /** The camera after a run of animation frames whose bounds are `bs`, one per frame,
      starting from camera `c` with the calls `q` waiting: each frame runs the calls
      the frames before it left queued. */
  function FramesCamera(c: CameraState, q: seq<nat>, bs: seq<Option<Bounds>>, num: Numerics): (r: CameraState)
    requires 0.0 < num.tanHalfDeg(c.fov) && 0.0 < num.tanHalfDeg(FramedFov)
    ensures 0.0 < num.tanHalfDeg(r.fov)
    decreases |bs|
  {
    if bs == [] then c
    else
      var p := bs[..|bs| - 1];
      ProcessQueue(FramesCamera(c, q, p, num), AdvanceAll(q, Readiness(p)), bs[|bs| - 1], num)
  }

  /** The background colour after the same run of frames, starting from `cc`: it is
      set by the last frame whose bounds were ready while some call was waiting, which
      is the only colour it can take besides `cc`. */
  function FramesClearColor(cc: Option<int>, q: seq<nat>, bs: seq<Option<Bounds>>): (r: Option<int>)
    ensures r == cc || r == Some(ClearColor)
    decreases |bs|
  {
    if bs == [] then cc
    else
      var p := bs[..|bs| - 1];
      if Ready(bs[|bs| - 1]) && AdvanceAll(q, Readiness(p)) != []
      then Some(ClearColor)
      else FramesClearColor(cc, q, p)
  }

  /** The camera after one more frame. */
  lemma FramesCameraSnoc(c: CameraState, q: seq<nat>, bs: seq<Option<Bounds>>, last: Option<Bounds>, num: Numerics)
    requires 0.0 < num.tanHalfDeg(c.fov) && 0.0 < num.tanHalfDeg(FramedFov)
    ensures FramesCamera(c, q, bs + [last], num) ==
      ProcessQueue(FramesCamera(c, q, bs, num), AdvanceAll(q, Readiness(bs)), last, num)
  {
    assert (bs + [last])[..|bs|] == bs;
  }

  /** The background colour after one more frame. */
  lemma FramesClearColorSnoc(cc: Option<int>, q: seq<nat>, bs: seq<Option<Bounds>>, last: Option<Bounds>)
    ensures FramesClearColor(cc, q, bs + [last]) ==
      if Ready(last) && AdvanceAll(q, Readiness(bs)) != [] then Some(ClearColor) else FramesClearColor(cc, q, bs)
  {
    assert (bs + [last])[..|bs|] == bs;
  }

  /** Nothing queued stays nothing queued. */
  lemma {:induction false} EmptyQueueStays(ready: seq<bool>)
    ensures AdvanceAll([], ready) == []
    decreases |ready|
  {
    if ready != [] {
      EmptyQueueStays(ready[1..]);
    }
  }

  /** Once some frame found the bounds ready while a call was waiting, the colour is
      set and stays set through the later frames. */
  lemma {:induction false} FramesClearColorSet(cc: Option<int>, q: seq<nat>, bs: seq<Option<Bounds>>, k: nat)
    requires k < |bs| && Ready(bs[k])
    requires AdvanceAll(q, Readiness(bs[..k])) != []
    ensures FramesClearColor(cc, q, bs) == Some(ClearColor)
    decreases |bs|
  {
    var p := bs[..|bs| - 1];
    if k < |p| {
      assert p[k] == bs[k] && p[..k] == bs[..k];
      FramesClearColorSet(cc, q, p, k);
    }
  }

  /** One frame, with bounds that are not ready, of a single waiting call. */
  lemma MissingSingleCall(c: CameraState, t: nat, b: Option<Bounds>, num: Numerics)
    requires 0.0 < num.tanHalfDeg(c.fov) && 0.0 < num.tanHalfDeg(FramedFov)
    requires !Ready(b)
    ensures ProcessQueue(c, [t], b, num) == if MaxTries <= t then Fallback(c) else c
  {
    MissingQueueFallsBack(c, [t], b, num);
    AdvanceOne(t, false);
  }

  /** With bounds that are never ready, the colour is never set. */
  lemma {:induction false} NeverReadyKeepsColour(cc: Option<int>, q: seq<nat>, bs: seq<Option<Bounds>>)
    requires forall k :: 0 <= k < |bs| ==> !Ready(bs[k])
    ensures FramesClearColor(cc, q, bs) == cc
    decreases |bs|
  {
    if bs != [] {
      var p := bs[..|bs| - 1];
      assert forall k :: 0 <= k < |p| ==> p[k] == bs[k];
      NeverReadyKeepsColour(cc, q, p);
    }
  }

  /** Bounds that are never ready give a readiness that is false throughout. */
  lemma NeverReadyReadiness(bs: seq<Option<Bounds>>)
    requires forall k :: 0 <= k < |bs| ==> !Ready(bs[k])
    ensures forall k :: 0 <= k < |Readiness(bs)| ==> !Readiness(bs)[k]
  {
  }

  /** A single call that has seen only not-ready frames waits with its counter raised
      once per frame until it reaches the ceiling, and is gone afterwards. */
  lemma NeverReadyWaiting(t: nat, p: seq<Option<Bounds>>)
    requires t <= MaxTries
    requires forall k :: 0 <= k < |p| ==> !Ready(p[k])
    ensures AdvanceAll([t], Readiness(p)) == if |p| <= MaxTries - t then [t + |p|] else []
  {
    NeverReadyReadiness(p);
    NeverReadyQueue(t, Readiness(p));
  }

  /** One more not-ready frame of a single call that has seen only not-ready frames. */
  lemma NeverReadyLastFrame(c: CameraState, t: nat, p: seq<Option<Bounds>>, last: Option<Bounds>, num: Numerics)
    requires 0.0 < num.tanHalfDeg(c.fov) && 0.0 < num.tanHalfDeg(FramedFov)
    requires t <= MaxTries && !Ready(last)
    requires forall k :: 0 <= k < |p| ==> !Ready(p[k])
    requires FramesCamera(c, [t], p, num) == if |p| <= MaxTries - t then c else Fallback(c)
    ensures FramesCamera(c, [t], p + [last], num) == if |p| + 1 <= MaxTries - t then c else Fallback(c)
  {
    var before := FramesCamera(c, [t], p, num);
    var waiting := AdvanceAll([t], Readiness(p));
    NeverReadyWaiting(t, p);
    FramesCameraSnoc(c, [t], p, last, num);
    assert FramesCamera(c, [t], p + [last], num) == ProcessQueue(before, waiting, last, num);
    if |p| <= MaxTries - t {
      assert before == c && waiting == [t + |p|];
      MissingSingleCall(c, t + |p|, last, num);
    } else {
      assert before == Fallback(c) && waiting == [];
    }
  }

  /** A single call whose bounds are never ready leaves the camera and the colour alone
      for as long as it keeps rescheduling, and shows the fallback view from the frame
      its counter reaches the ceiling on. */
  lemma {:induction false} FramesNeverReady(c: CameraState, cc: Option<int>, t: nat, bs: seq<Option<Bounds>>, num: Numerics)
    requires 0.0 < num.tanHalfDeg(c.fov) && 0.0 < num.tanHalfDeg(FramedFov)
    requires t <= MaxTries
    requires forall k :: 0 <= k < |bs| ==> !Ready(bs[k])
    ensures FramesCamera(c, [t], bs, num) == if |bs| <= MaxTries - t then c else Fallback(c)
    ensures FramesClearColor(cc, [t], bs) == cc
    decreases |bs|
  {
    NeverReadyKeepsColour(cc, [t], bs);
    if bs != [] {
      var p := bs[..|bs| - 1];
      var last := bs[|bs| - 1];
      assert bs == p + [last];
      assert forall k :: 0 <= k < |p| ==> p[k] == bs[k];
      FramesNeverReady(c, cc, t, p, num);
      NeverReadyLastFrame(c, t, p, last, num);
    }
  }

  /** A single call whose bounds are ready on the first frame frames the camera there,
      sets the colour, and leaves nothing for the later frames to do. */
  lemma {:induction false} FramesReadyAtOnce(c: CameraState, cc: Option<int>, t: nat, bs: seq<Option<Bounds>>, num: Numerics)
    requires 0.0 < num.tanHalfDeg(c.fov) && 0.0 < num.tanHalfDeg(FramedFov)
    requires bs != [] && Ready(bs[0])
    ensures FramesCamera(c, [t], bs, num) == Frame(c, bs[0].value, num)
    ensures FramesClearColor(cc, [t], bs) == Some(ClearColor)
    decreases |bs|
  {
    var n := |bs|;
    var p := bs[..n - 1];
    var r := Readiness(p);
    if n == 1 {
      assert p == [];
      ReadyQueueFrames(c, [t], bs[0], num);
    } else {
      assert p[0] == bs[0];
      FramesReadyAtOnce(c, cc, t, p, num);
      assert r[0];
      AdvanceOne(t, true);
      EmptyQueueStays(r[1..]);
      assert AdvanceAll([t], r) == [];
    }
  }

  /** The viewer: its camera, the rotation of its scene root, the background colour
      its renderer was last given, and the counters of the framing calls queued for the
      next animation frame. */
  class Viewer {
    const camera: Camera
    const num: Numerics
    var rotation: Euler
    var clearColor: Option<int>
    var pending: seq<nat>

    /** Exact numerics and a field of view the tangent is positive for. */
    ghost predicate Valid()
      reads this, camera
    {
      Sound(num) && 0.0 < camera.fov < 180.0
    }

    /** A new viewer: the camera looks at the origin from (-2.2, 1.8, -1.6) and is
        rolled; nothing is queued. */
    constructor (num: Numerics, fov: real, near: real, far: real)
      requires Sound(num) && 0.0 < fov < 180.0
      ensures Valid() && fresh(camera) && this.num == num
      ensures camera.State() == CameraState(WorldUp, fov, near, far, InitialPosition, Zero, FlipRoll)
      ensures rotation == Identity && clearColor == None && pending == []
    {
      camera := new Camera(fov, near, far);
      this.num := num;
      rotation := Identity;
      clearColor := None;
      pending := [];
      new;
      camera.LookAt(InitialPosition, Zero);
      if FlipRoll {
        camera.RotateZHalfTurn();
      }
    }

    /** `setCameraUp`: the camera up vector for the tag; nothing else changes. */
    method SetCameraUp(tag: string)
      requires Valid()
      modifies camera
      ensures Valid()
      ensures camera.State() == old(camera.State()).(up := UpFor(tag))
    {
      if tag == "Z" {
        camera.up := Vec3(0.0, 0.0, 1.0);
      } else if tag == "X" {
        camera.up := Vec3(1.0, 0.0, 0.0);
      } else {
        camera.up := Vec3(0.0, 1.0, 0.0);
      }
    }

    /** `fitCameraToScene` with counter `tries`: frames the camera on ready bounds,
        otherwise queues itself for the next frame with `tries + 1`, or applies the
        fallback view once the counter has reached the ceiling. */
    method FitCameraToScene(tries: nat, scene: SceneGraph) returns (step: Step)
      requires Valid()
      modifies this, camera
      ensures Valid()
      ensures step == Decide(Ready(SceneBounds(scene, num)), tries)
      ensures camera.State() == FitOutcome(old(camera.State()), tries, SceneBounds(scene, num), num)
      ensures pending == old(pending) + Requeued(step)
      ensures clearColor == if step == Framed then Some(ClearColor) else old(clearColor)
      ensures rotation == old(rotation)
    {
      var b := GetSceneBounds(scene, num);
      if b.None? || b.value.diag == 0.0 {
        if tries < MaxTries {
          pending := pending + [tries + 1];
          return Rescheduled(tries + 1);
        }
        camera.LookAt(FallbackPosition, Zero);
        if FlipRoll {
          camera.RotateZHalfTurn();
        }
        return FellBack;
      }
      var bounds := b.value;
      var maxDim := MaxDim(bounds.size);
      var dist := maxDim * 1.2 / (2.0 * num.tanHalfDeg(camera.fov));
      var pos := Add(bounds.center, Scale(dist * 2.0, num.viewDir));
      camera.fov := FramedFov;
      camera.near := RealMax(0.01, dist * 0.001);
      camera.far := RealMax(camera.near + 1.0, dist * 20.0);
      camera.LookAt(pos, bounds.center);
      if FlipRoll {
        camera.RotateZHalfTurn();
      }
      clearColor := Some(ClearColor);
      return Framed;
    }

    /** `applyOrientation`: without a scene root nothing happens; otherwise the scene
        rotation is reset and set for the tag, the camera up is set for the tag, the
        camera is framed once now and once more on the next frame. */
    method ApplyOrientation(tag: string, scene: SceneGraph)
      requires Valid()
      modifies this, camera
      ensures Valid()
      ensures scene.NoScene? ==>
        && rotation == old(rotation) && camera.State() == old(camera.State())
        && pending == old(pending) && clearColor == old(clearColor)
      ensures scene.Scene? ==>
        var b := SceneBounds(scene, num);
        && rotation == RotationFor(tag)
        && camera.State() == FitOutcome(old(camera.State()).(up := UpFor(tag)), 0, b, num)
        && camera.up == UpFor(tag)
        && pending == old(pending) + Requeued(Decide(Ready(b), 0)) + [0]
        && clearColor == if Ready(b) then Some(ClearColor) else old(clearColor)
    {
      if scene.NoScene? {
        return;
      }
      rotation := Identity;
      if tag == "Z" {
        rotation := rotation.(x := -1);
      }
      if tag == "X" {
        rotation := rotation.(z := 1);
      }
      SetCameraUp(tag);
      var _ := FitCameraToScene(0, scene);
      pending := pending + [0];
    }

    /** One animation frame: every queued framing call runs, in order, against the same
        scene; the calls they reschedule make up the next frame's queue. Returns how
        many calls ran and how many of them applied the fallback view. */
    method RunFrame(scene: SceneGraph) returns (evaluated: nat, fellBack: nat)
      requires Valid()
      modifies this, camera
      ensures Valid()
      ensures var b := SceneBounds(scene, num);
        && evaluated == |old(pending)|
        && fellBack == Exhausted(old(pending), Ready(b))
        && pending == Advance(old(pending), Ready(b))
        && camera.State() == ProcessQueue(old(camera.State()), old(pending), b, num)
        && clearColor == (if Ready(b) && old(pending) != [] then Some(ClearColor) else old(clearColor))
        && rotation == old(rotation)
    {
      ghost var b := SceneBounds(scene, num);
      ghost var c0 := camera.State();
      var queue := pending;
      pending := [];
      fellBack := 0;
      var i := 0;
      while i < |queue|
        invariant 0 <= i <= |queue|
        invariant Valid()
        invariant pending == Advance(queue[..i], Ready(b))
        invariant fellBack == Exhausted(queue[..i], Ready(b))
        invariant camera.State() == ProcessQueue(c0, queue[..i], b, num)
        invariant clearColor == if Ready(b) && 0 < i then Some(ClearColor) else old(clearColor)
        invariant rotation == old(rotation)
      {
        QueuePrefixStep(c0, queue, i, b, num);
        var step := FitCameraToScene(queue[i], scene);
        if step == FellBack {
          fellBack := fellBack + 1;
        }
        i := i + 1;
      }
      assert queue[..|queue|] == queue;
      evaluated := |queue|;
    }

    /** A run of animation frames, one scene snapshot per frame, with no other events
        in between. After 31 frames nothing is left queued. */
    method RunFrames(scenes: seq<SceneGraph>)
      requires Valid()
      modifies this, camera
      ensures Valid()
      ensures var bs := BoundsOf(scenes, num);
        && pending == AdvanceAll(old(pending), Readiness(bs))
        && (MaxTries + 1 <= |scenes| ==> pending == [])
        && camera.State() == FramesCamera(old(camera.State()), old(pending), bs, num)
        && clearColor == FramesClearColor(old(clearColor), old(pending), bs)
        && rotation == old(rotation)
    {
      ghost var q0 := pending;
      ghost var c0 := camera.State();
      ghost var cc0 := clearColor;
      var i := 0;
      while i < |scenes|
        invariant 0 <= i <= |scenes|
        invariant Valid()
        invariant pending == AdvanceAll(q0, Readiness(BoundsOf(scenes[..i], num)))
        invariant camera.State() == FramesCamera(c0, q0, BoundsOf(scenes[..i], num), num)
        invariant clearColor == FramesClearColor(cc0, q0, BoundsOf(scenes[..i], num))
        invariant rotation == old(rotation)
      {
        ghost var bs := BoundsOf(scenes[..i], num);
        ghost var b := SceneBounds(scenes[i], num);
        BoundsOfSnoc(scenes, i, num);
        ReadinessSnoc(bs, b);
        AdvanceAllSnoc(q0, Readiness(bs), Ready(b));
        FramesCameraSnoc(c0, q0, bs, b, num);
        FramesClearColorSnoc(cc0, q0, bs, b);
        var _, _ := RunFrame(scenes[i]);
        i := i + 1;
      }
      assert scenes[..|scenes|] == scenes;
      if MaxTries + 1 <= |scenes| {
        QueueDrains(q0, Readiness(BoundsOf(scenes, num)));
      }
    }

    /** The delayed step of a scene load: on bounds with a positive diagonal, orient
        the scene Z-up when it is much taller along z than along y, and Y-up otherwise;
        on missing or degenerate bounds, do nothing. */
    method SettleOrientation(scene: SceneGraph) returns (tag: Option<string>)
      requires Valid()
      modifies this, camera
      ensures Valid()
      ensures tag == DetectUpAxis(SceneBounds(scene, num))
      ensures tag.Some? ==>
        var b := SceneBounds(scene, num);
        && Ready(b)
        && rotation == RotationFor(tag.value)
        && camera.up == UpFor(tag.value)
        && camera.State() == Frame(old(camera.State()).(up := UpFor(tag.value)), b.value, num)
        && pending == old(pending) + [0]
        && clearColor == Some(ClearColor)
      ensures tag.None? ==>
        && rotation == old(rotation) && camera.State() == old(camera.State())
        && pending == old(pending) && clearColor == old(clearColor)
    {
      DetectUpAxisIffReady(scene, num);
      var b := GetSceneBounds(scene, num);
      tag := None;
      if b.Some? && b.value.diag > 0.0 {
        if b.value.size.z > b.value.size.y * 1.5 {
          tag := Some("Z");
        } else {
          tag := Some("Y");
        }
        ApplyOrientation(tag.value, scene);
      }
    }

    /** The steps of a scene load once the scene is added: the scene name is derived
        from the URL, and two framing chains are started, one now and one on the next
        frame. */
    method SceneLoaded(url: string, scene: SceneGraph) returns (name: string)
      requires Valid()
      modifies this, camera
      ensures Valid()
      ensures name == SceneName(url)
      ensures var b := SceneBounds(scene, num);
        && camera.State() == FitOutcome(old(camera.State()), 0, b, num)
        && pending == old(pending) + Requeued(Decide(Ready(b), 0)) + [0]
        && clearColor == (if Ready(b) then Some(ClearColor) else old(clearColor))
        && rotation == old(rotation)
    {
      name := SceneName(url);
      var _ := FitCameraToScene(0, scene);
      pending := pending + [0];
    }
  }

  /** Orienting Z-up and then Y-up leaves no trace of the first: the rotation is the
      identity again and the camera up is +Y. */
  method ReorientZThenY(v: Viewer, scene: SceneGraph)
    requires v.Valid() && scene.Scene?
    modifies v, v.camera
    ensures v.Valid()
    ensures v.rotation == Identity && v.camera.up == WorldUp
  {
    v.ApplyOrientation("Z", scene);
    v.ApplyOrientation("Y", scene);
  }
}
