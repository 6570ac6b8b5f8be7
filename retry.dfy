/** The retry counter of `fitCameraToScene`: a call whose bounds are not ready
    reschedules itself on the next animation frame with `tries + 1` until the counter
    reaches the ceiling, where a fixed fallback camera is applied instead. */
module Retry {

  /** The retry ceiling. */
  const MaxTries: nat := 30

  /** What one call of `fitCameraToScene` does: frame the camera, reschedule itself
      with counter `next`, or apply the fallback camera. */
  datatype Step = Framed | Rescheduled(next: nat) | FellBack

  /** The decision of one call with counter `tries`, given whether the bounds it
      computed are ready (present, with a non-zero diagonal). */
  function Decide(ready: bool, tries: nat): (s: Step)
    ensures s == Framed <==> ready
    ensures s.Rescheduled? <==> !ready && tries < MaxTries
    ensures s.Rescheduled? ==> s.next == tries + 1 && s.next <= MaxTries
    ensures s == FellBack <==> !ready && MaxTries <= tries
  {
    if ready then Framed
    else if tries < MaxTries then Rescheduled(tries + 1)
    else FellBack
  }

  /** The steps of one retry chain started with counter `tries`, where `ready[k]` says
      whether the bounds are ready at the chain's `k`-th evaluation (one per animation
      frame). The chain ends when it frames or falls back, or when `ready` runs out.
      Every step but the last reschedules with the counter one higher than the one
      before it; so a chain is never longer than the counts left to the ceiling. */
  function Chain(tries: nat, ready: seq<bool>): (steps: seq<Step>)
    ensures |steps| <= |ready|
    ensures ready != [] ==> steps != []
    ensures tries <= MaxTries ==> |steps| <= MaxTries + 1 - tries
    ensures forall k :: 0 <= k < |steps| ==> steps[k] == Decide(ready[k], tries + k)
    ensures forall k :: 0 <= k < |steps| - 1 ==> steps[k] == Rescheduled(tries + k + 1)
    ensures |steps| < |ready| ==> !steps[|steps| - 1].Rescheduled?
    decreases |ready|
  {
    if ready == [] then []
    else
      var s := Decide(ready[0], tries);
      if s.Rescheduled? then [s] + Chain(tries + 1, ready[1..]) else [s]
  }

  /** A chain that starts at 0 evaluates the bounds at most 31 times; it falls back at
      most once, as its last step, only at its 31st evaluation and only if the bounds
      were never ready. */
  lemma ChainFromZero(ready: seq<bool>)
    ensures |Chain(0, ready)| <= MaxTries + 1
    ensures forall k :: 0 <= k < |Chain(0, ready)| && Chain(0, ready)[k] == FellBack ==>
      && k == |Chain(0, ready)| - 1
      && k == MaxTries
      && forall j :: 0 <= j <= k ==> !ready[j]
  {
    var steps := Chain(0, ready);
    forall k | 0 <= k < |steps| && steps[k] == FellBack
      ensures k == |steps| - 1 && k == MaxTries && forall j :: 0 <= j <= k ==> !ready[j]
    {
      assert steps[k] == Decide(ready[k], k);
      forall j | 0 <= j < k
        ensures !ready[j]
      {
        assert steps[j] == Decide(ready[j], j);
      }
    }
  }

  /** If the bounds are never ready, a chain started at `tries` runs its remaining
      evaluations and then falls back, exactly once. */
  lemma {:induction false} NeverReadyFallsBack(tries: nat, ready: seq<bool>)
    requires tries <= MaxTries && MaxTries + 1 - tries <= |ready|
    requires forall k :: 0 <= k < |ready| ==> !ready[k]
    ensures |Chain(tries, ready)| == MaxTries + 1 - tries
    ensures Chain(tries, ready)[MaxTries - tries] == FellBack
    decreases MaxTries - tries
  {
    if tries < MaxTries {
      NeverReadyFallsBack(tries + 1, ready[1..]);
      assert Chain(tries, ready) == [Rescheduled(tries + 1)] + Chain(tries + 1, ready[1..]);
    }
  }

  /** A chain whose bounds are ready at its first evaluation frames and stops. */
  lemma ReadyChainFramesAtOnce(tries: nat, ready: seq<bool>)
    requires ready != [] && ready[0]
    ensures Chain(tries, ready) == [Framed]
  {
  }

  /** The callbacks a step leaves on the animation-frame queue. */
  function Requeued(s: Step): seq<nat> {
    if s.Rescheduled? then [s.next] else []
  }

  /** The animation-frame queue holds the counters of the `fitCameraToScene` calls
      waiting for the next frame. During a frame every call in `q` runs, in order, with
      the same readiness, and the calls it reschedules make up the next frame's queue. */
  function Advance(q: seq<nat>, ready: bool): (r: seq<nat>)
    ensures |r| <= |q|
    ensures ready ==> r == []
    ensures forall i :: 0 <= i < |r| ==> 0 < r[i] <= MaxTries
  {
    if q == [] then []
    else Advance(q[..|q| - 1], ready) + Requeued(Decide(ready, q[|q| - 1]))
  }

  /** The reference for a frame whose bounds are not ready: in order, `t + 1` for every
      waiting counter `t` below the ceiling. */
  function Bumped(q: seq<nat>): seq<nat> {
    if q == [] then []
    else (if q[0] < MaxTries then [q[0] + 1] else []) + Bumped(q[1..])
  }

  /** The reference count of waiting counters at or above the ceiling. */
  function AtCeiling(q: seq<nat>): nat {
    if q == [] then 0
    else (if MaxTries <= q[0] then 1 else 0) + AtCeiling(q[1..])
  }

  /** The references extended by one more waiting counter. */
  lemma {:induction false} ReferencesSnoc(p: seq<nat>, t: nat)
    ensures Bumped(p + [t]) == Bumped(p) + (if t < MaxTries then [t + 1] else [])
    ensures AtCeiling(p + [t]) == AtCeiling(p) + (if MaxTries <= t then 1 else 0)
  {
    if p != [] {
      assert (p + [t])[1..] == p[1..] + [t];
      ReferencesSnoc(p[1..], t);
    } else {
      assert [t][1..] == [];
    }
  }

  /** The number of calls in `q` that apply the fallback camera during the frame. */
  function Exhausted(q: seq<nat>, ready: bool): (n: nat)
    ensures n <= |q|
  {
    if q == [] then 0
    else Exhausted(q[..|q| - 1], ready) + (if Decide(ready, q[|q| - 1]) == FellBack then 1 else 0)
  }

  /** With ready bounds no waiting call falls back. */
  lemma {:induction false} ReadyFrameValues(q: seq<nat>)
    ensures Exhausted(q, true) == 0
  {
    if q != [] {
      ReadyFrameValues(q[..|q| - 1]);
    }
  }

  /** With bounds that are not ready the frame follows the references. */
  lemma {:induction false} MissingFrameValues(q: seq<nat>)
    ensures Advance(q, false) == Bumped(q) && Exhausted(q, false) == AtCeiling(q)
    ensures |Advance(q, false)| + Exhausted(q, false) == |q|
  {
    if q != [] {
      var p := q[..|q| - 1];
      var t := q[|q| - 1];
      assert p + [t] == q;
      MissingFrameValues(p);
      ReferencesSnoc(p, t);
      assert Advance(q, false) == Advance(p, false) + Requeued(Decide(false, t));
    }
  }

  /** What a frame does to the queue: when the bounds are ready nothing is requeued and
      nothing falls back; otherwise every waiting counter below the ceiling is requeued
      one higher, in order, every other one falls back, and each call does exactly one
      of the two. */
  lemma AdvanceValues(q: seq<nat>, ready: bool)
    ensures ready ==> Advance(q, ready) == [] && Exhausted(q, ready) == 0
    ensures !ready ==> Advance(q, ready) == Bumped(q) && Exhausted(q, ready) == AtCeiling(q)
    ensures !ready ==> |Advance(q, ready)| + Exhausted(q, ready) == |q|
  {
    if ready {
      ReadyFrameValues(q);
    } else {
      MissingFrameValues(q);
    }
  }

  /** Calls fall back during a frame exactly when the bounds are not ready and some
      waiting call has reached the ceiling. */
  lemma {:induction false} ExhaustedWhen(q: seq<nat>, ready: bool)
    ensures 0 < Exhausted(q, ready) <==> !ready && exists i :: 0 <= i < |q| && MaxTries <= q[i]
  {
    if q != [] {
      var p := q[..|q| - 1];
      ExhaustedWhen(p, ready);
      if !ready && exists i :: 0 <= i < |p| && MaxTries <= p[i] {
        var i :| 0 <= i < |p| && MaxTries <= p[i];
        assert q[i] == p[i];
      }
      if !ready && exists i :: 0 <= i < |q| && MaxTries <= q[i] {
        var i :| 0 <= i < |q| && MaxTries <= q[i];
        if i < |p| {
          assert p[i] == q[i];
        }
      }
    }
  }

  /** The queue after a run of frames, one readiness per frame. */
  function AdvanceAll(q: seq<nat>, ready: seq<bool>): (r: seq<nat>)
    ensures |r| <= |q|
    ensures ready != [] ==> forall i :: 0 <= i < |r| ==> 0 < r[i] <= MaxTries
    decreases |ready|
  {
    if ready == [] then q else AdvanceAll(Advance(q, ready[0]), ready[1..])
  }

  /** Running one more frame after a run of frames. */
  lemma {:induction false} AdvanceAllSnoc(q: seq<nat>, ready: seq<bool>, last: bool)
    ensures AdvanceAll(q, ready + [last]) == Advance(AdvanceAll(q, ready), last)
    decreases |ready|
  {
    if ready == [] {
      assert AdvanceAll(Advance(q, last), []) == Advance(q, last);
    } else {
      assert (ready + [last])[1..] == ready[1..] + [last];
      AdvanceAllSnoc(Advance(q, ready[0]), ready[1..], last);
    }
  }

  /** Every counter a frame requeues is one more than the counter that requeued it. */
  lemma {:induction false} AdvanceRaises(q: seq<nat>, ready: bool, low: nat)
    requires forall i :: 0 <= i < |q| ==> low <= q[i]
    ensures forall i :: 0 <= i < |Advance(q, ready)| ==> low + 1 <= Advance(q, ready)[i]
    ensures MaxTries <= low ==> Advance(q, ready) == []
  {
    if q != [] {
      var p := q[..|q| - 1];
      assert forall i :: 0 <= i < |p| ==> p[i] == q[i];
      AdvanceRaises(p, ready, low);
    }
  }

  /** After `k` frames every waiting counter is at least `k` above the lowest counter
      the queue started with, so once that passes the ceiling the queue is empty. */
  lemma {:induction false} AdvanceAllRaises(q: seq<nat>, ready: seq<bool>, low: nat)
    requires forall i :: 0 <= i < |q| ==> low <= q[i]
    ensures forall i :: 0 <= i < |AdvanceAll(q, ready)| ==> low + |ready| <= AdvanceAll(q, ready)[i]
    ensures ready != [] && MaxTries < low + |ready| ==> AdvanceAll(q, ready) == []
    decreases |ready|
  {
    if ready != [] {
      AdvanceRaises(q, ready[0], low);
      AdvanceAllRaises(Advance(q, ready[0]), ready[1..], low + 1);
    }
  }

  /** However many chains are in flight and whatever the bounds do, the queue is empty
      after 31 frames: nothing is rescheduled forever. */
  lemma QueueDrains(q: seq<nat>, ready: seq<bool>)
    requires MaxTries + 1 <= |ready|
    ensures AdvanceAll(q, ready) == []
  {
    AdvanceAllRaises(q, ready, 0);
  }

  /** A single call queued with counter `t` whose evaluations over `ready` all
      reschedule holds just `t + |ready|` after those frames. */
  lemma {:induction false} QueueWhileRescheduling(t: nat, ready: seq<bool>)
    requires forall j :: 0 <= j < |ready| ==> Decide(ready[j], t + j) == Rescheduled(t + j + 1)
    ensures AdvanceAll([t], ready) == [t + |ready|]
    decreases |ready|
  {
    if ready != [] {
      var rest := ready[1..];
      forall j | 0 <= j < |rest|
        ensures Decide(rest[j], t + 1 + j) == Rescheduled(t + 1 + j + 1)
      {
        assert rest[j] == ready[j + 1];
      }
      QueueWhileRescheduling(t + 1, rest);
      assert Decide(ready[0], t) == Rescheduled(t + 1);
      AdvanceRescheduled(t, ready[0]);
    }
  }

  /** A single call queued with counter `t` whose bounds are never ready is waiting
      with counter `t + k` after `k` frames, until the frame its counter reaches the
      ceiling on; after that frame nothing is queued. */
  lemma NeverReadyQueue(t: nat, ready: seq<bool>)
    requires t <= MaxTries
    requires forall k :: 0 <= k < |ready| ==> !ready[k]
    ensures AdvanceAll([t], ready) == if |ready| <= MaxTries - t then [t + |ready|] else []
  {
    if |ready| <= MaxTries - t {
      QueueWhileRescheduling(t, ready);
    } else {
      AdvanceAllRaises([t], ready, t);
    }
  }

  /** The same for the first `k` frames of a longer run. */
  lemma QueuePrefixRescheduling(t: nat, ready: seq<bool>, k: nat)
    requires k <= |ready|
    requires forall j :: 0 <= j < k ==> Decide(ready[j], t + j) == Rescheduled(t + j + 1)
    ensures AdvanceAll([t], ready[..k]) == [t + k]
  {
    var before := ready[..k];
    forall j | 0 <= j < |before|
      ensures Decide(before[j], t + j) == Rescheduled(t + j + 1)
    {
      assert before[j] == ready[j];
    }
    QueueWhileRescheduling(t, before);
  }

  /** A single call queued with counter `t` is, frame after frame, the chain from `t`:
      while the chain goes on, the queue after `k` frames holds just `t + k`. */
  lemma QueueFollowsChain(t: nat, ready: seq<bool>, k: nat)
    requires k < |Chain(t, ready)|
    ensures AdvanceAll([t], ready[..k]) == [t + k]
  {
    forall j | 0 <= j < k
      ensures Decide(ready[j], t + j) == Rescheduled(t + j + 1)
    {
      ChainStepReschedules(t, ready, j);
    }
    QueuePrefixRescheduling(t, ready, k);
  }

  /** Frame `k` of that queue falls back exactly when the chain's `k`-th step does. */
  lemma ChainFallbackFrame(t: nat, ready: seq<bool>, k: nat)
    requires k < |Chain(t, ready)|
    ensures Exhausted([t + k], ready[k]) == 1 <==> Chain(t, ready)[k] == FellBack
  {
    assert Chain(t, ready)[k] == Decide(ready[k], t + k);
    AdvanceOne(t + k, ready[k]);
  }

  /** The last step of a chain that ended before its readiness ran out does not
      reschedule. */
  lemma ChainLastStops(t: nat, ready: seq<bool>)
    requires 0 < |Chain(t, ready)| < |ready|
    ensures !Decide(ready[|Chain(t, ready)| - 1], t + |Chain(t, ready)| - 1).Rescheduled?
  {
    var k := |Chain(t, ready)| - 1;
    assert Chain(t, ready)[k] == Decide(ready[k], t + k);
  }

  /** A single call whose first `k` evaluations reschedule and whose next one frames
      or falls back leaves nothing queued after those `k + 1` frames. */
  lemma QueueStopsAfter(t: nat, ready: seq<bool>, k: nat)
    requires k < |ready|
    requires forall j :: 0 <= j < k ==> Decide(ready[j], t + j) == Rescheduled(t + j + 1)
    requires !Decide(ready[k], t + k).Rescheduled?
    ensures AdvanceAll([t], ready[..k + 1]) == []
  {
    QueuePrefixRescheduling(t, ready, k);
    PrefixSnoc(ready, k);
    AdvanceAllSnoc([t], ready[..k], ready[k]);
    AdvanceStops(t + k, ready[k]);
  }

  /** A prefix one longer is the shorter prefix and one more element. */
  lemma PrefixSnoc(s: seq<bool>, k: nat)
    requires k < |s|
    ensures s[..k + 1] == s[..k] + [s[k]]
  {
  }

  /** Every evaluation of a chain before its last step reschedules. */
  lemma ChainStepReschedules(t: nat, ready: seq<bool>, j: nat)
    requires j + 1 < |Chain(t, ready)|
    ensures Decide(ready[j], t + j) == Rescheduled(t + j + 1)
  {
    assert Chain(t, ready)[j] == Decide(ready[j], t + j);
  }

  /** Once the chain has ended before its readiness ran out, nothing is left queued. */
  lemma ChainEndEmptiesQueue(t: nat, ready: seq<bool>)
    requires 0 < |Chain(t, ready)| < |ready|
    ensures AdvanceAll([t], ready[..|Chain(t, ready)|]) == []
  {
    var k := |Chain(t, ready)| - 1;
    forall j | 0 <= j < k
      ensures Decide(ready[j], t + j) == Rescheduled(t + j + 1)
    {
      ChainStepReschedules(t, ready, j);
    }
    ChainLastStops(t, ready);
    QueueStopsAfter(t, ready, k);
  }

  /** A single waiting call that frames or falls back leaves nothing queued. */
  lemma AdvanceStops(t: nat, ready: bool)
    requires !Decide(ready, t).Rescheduled?
    ensures Advance([t], ready) == []
  {
    AdvanceOne(t, ready);
  }

  /** A single waiting call that reschedules is the only call of the next frame. */
  lemma AdvanceRescheduled(t: nat, ready: bool)
    requires Decide(ready, t) == Rescheduled(t + 1)
    ensures Advance([t], ready) == [t + 1]
  {
    AdvanceOne(t, ready);
  }

  /** A single waiting call moves to the next frame as its chain does. */
  lemma AdvanceOne(t: nat, ready: bool)
    ensures Advance([t], ready) == Requeued(Decide(ready, t))
    ensures Exhausted([t], ready) == if Decide(ready, t) == FellBack then 1 else 0
  {
    assert [t][..0] == [];
  }
}
