/**
 * The camera director of generateVideo (app/page.jsx, cameraKeyframe): a
 * one-shot pan over the 7 s capture, driven by normalised progress and a
 * cubic ease-out, rescheduled on each animation frame until progress is 1.
 * The camera position formulas themselves (sines and cosines of the ease)
 * are not part of this model.
 */
module CameraDirector {

  /** Capture length in milliseconds (DURATION_MS). */
  const DurationMs: real := 7000.0

  /** p = Math.min(1, elapsed / DURATION_MS). */
  function Progress(elapsed: real): (p: real)
    ensures p <= 1.0
    ensures elapsed >= 0.0 ==> 0.0 <= p
    ensures p == 1.0 <==> elapsed >= DurationMs
    ensures p < 1.0 ==> p == elapsed / DurationMs
  {
    var x := elapsed / DurationMs;
    if x < 1.0 then x else 1.0
  }

  function Cube(x: real): real
  {
    x * x * x
  }

  /** The cubic ease-out 1 - (1 - x)^3. */
  function Ease(x: real): (e: real)
    ensures x == 0.0 ==> e == 0.0
    ensures x == 1.0 ==> e == 1.0
  {
    1.0 - Cube(1.0 - x)
  }

  /** The cube is monotone on the non-negative reals. */
  lemma CubeMonotone(a: real, b: real)
    requires 0.0 <= a <= b
    ensures 0.0 <= Cube(a) <= Cube(b)
  {
  }

  /** The ease starts at 0, ends at 1, stays in [0, 1] and is below 1 until the end. */
  lemma EaseBounds(x: real)
    requires 0.0 <= x <= 1.0
    ensures 0.0 <= Ease(x) <= 1.0
    ensures Ease(x) == 1.0 <==> x == 1.0
    ensures x == 0.0 ==> Ease(x) == 0.0
  {
    CubeMonotone(1.0 - x, 1.0);
    if x < 1.0 {
      var y := 1.0 - x;
      assert y * y > 0.0;
      assert (y * y) * y > 0.0;
    }
  }

  /** The ease never moves the camera backwards along the pan. */
  lemma EaseMonotone(x: real, x': real)
    requires 0.0 <= x <= x' <= 1.0
    ensures Ease(x) <= Ease(x')
  {
    CubeMonotone(1.0 - x', 1.0 - x);
  }

  /** cameraKeyframe requests another frame exactly while progress is below 1. */
  predicate Reschedules(p: real)
  {
    p < 1.0
  }

  /** The keyframe stops rescheduling exactly once the capture duration has elapsed. */
  lemma ReschedulesUntilDuration(elapsed: real)
    ensures Reschedules(Progress(elapsed)) <==> elapsed < DurationMs
  {
  }

  /** The frame times (performance.now()) are no earlier than the start and never go back. */
  predicate FrameTimes(start: real, frames: seq<real>)
  {
    && (forall i :: 0 <= i < |frames| ==> start <= frames[i])
    && (forall i, j :: 0 <= i < j < |frames| ==> frames[i] <= frames[j])
  }

  /**
   * The eases the chain of keyframes applies when animation frames arrive at
   * the given times: one per frame, ending with the first frame whose
   * progress reaches 1.
   */
  function Keyframes(start: real, frames: seq<real>): (es: seq<real>)
    ensures |es| <= |frames|
  {
    if frames == [] then []
    else
      var p := Progress(frames[0] - start);
      [Ease(p)] + (if Reschedules(p) then Keyframes(start, frames[1..]) else [])
  }

  /** Every applied ease lies in [0, 1], and they never decrease. */
  lemma {:induction false} KeyframesInRange(start: real, frames: seq<real>)
    requires FrameTimes(start, frames)
    ensures forall i :: 0 <= i < |Keyframes(start, frames)| ==> 0.0 <= Keyframes(start, frames)[i] <= 1.0
    ensures forall i, j :: 0 <= i < j < |Keyframes(start, frames)| ==>
      Keyframes(start, frames)[i] <= Keyframes(start, frames)[j]
  {
    if frames != [] {
      var p := Progress(frames[0] - start);
      EaseBounds(p);
      var rest := Keyframes(start, frames[1..]);
      if Reschedules(p) {
        KeyframesInRange(start, frames[1..]);
        forall j | 0 <= j < |rest|
          ensures Ease(p) <= rest[j]
        {
          KeyframeEasesAtLeast(start, frames[1..], frames[0], j);
        }
      }
    }
  }

  /** A later keyframe's ease is at least that of any frame no later than all frames in the chain. */
  lemma {:induction false} KeyframeEasesAtLeast(start: real, frames: seq<real>, earlier: real, j: nat)
    requires FrameTimes(start, frames) && start <= earlier
    requires forall i :: 0 <= i < |frames| ==> earlier <= frames[i]
    requires j < |Keyframes(start, frames)|
    ensures Ease(Progress(earlier - start)) <= Keyframes(start, frames)[j]
  {
    if j == 0 {
      EaseMonotone(Progress(earlier - start), Progress(frames[0] - start));
    } else {
      KeyframeEasesAtLeast(start, frames[1..], earlier, j - 1);
    }
  }

  /**
   * The pan is single-shot: if frame k is the first one at or after the end
   * of the capture window, exactly k + 1 keyframes run, the last one puts
   * the camera at the end of the pan (ease 1), and all before it are short of it.
   */
  lemma {:induction false} KeyframesSingleShot(start: real, frames: seq<real>, k: nat)
    requires FrameTimes(start, frames)
    requires k < |frames| && frames[k] - start >= DurationMs
    requires forall i :: 0 <= i < k ==> frames[i] - start < DurationMs
    ensures |Keyframes(start, frames)| == k + 1
    ensures Keyframes(start, frames)[k] == 1.0
    ensures forall i :: 0 <= i < k ==> Keyframes(start, frames)[i] < 1.0
  {
    var p := Progress(frames[0] - start);
    EaseBounds(p);
    if k > 0 {
      KeyframesSingleShot(start, frames[1..], k - 1);
    }
  }
}
