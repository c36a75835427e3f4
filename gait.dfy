/**
 * The walking pose of the character (app/page.jsx, updateCharacter): legs
 * and arms swing in opposite pairs and the torso bobs at twice the stride
 * frequency. Math.sin and Math.PI are taken as given values.
 */
module Gait {

  /** Stride frequency factor (speed in updateCharacter). */
  const Speed: real := 3.2
  /** Leg swing amplitude, in radians. */
  const LegAmplitude: real := 0.6
  /** Arms swing at this fraction of the leg amplitude. */
  const ArmFactor: real := 0.7
  /** Torso rest height and bob amplitude. */
  const TorsoRest: real := 1.8
  const BobAmplitude: real := 0.05

  /** The trigonometry the page takes from Math: the sine function and the constant PI. */
  datatype Trig = Trig(sin: real -> real, pi: real)

  /** The sine takes values in [-1, 1]. */
  ghost predicate SineBounded(trig: Trig)
  {
    forall x :: -1.0 <= trig.sin(x) <= 1.0
  }

  /** A half turn negates the sine: sin(x + PI) = -sin(x). */
  ghost predicate HalfTurnNegates(trig: Trig)
  {
    forall x :: trig.sin(x + trig.pi) == -trig.sin(x)
  }

  /** The animated part of the pose: rotation.x of the four limbs and position.y of the torso. */
  datatype Pose = Pose(leftLeg: real, rightLeg: real, leftArm: real, rightArm: real, torsoY: real)

  /** The phase value of the left leg and right arm. */
  function Swing(t: real, trig: Trig): (a: real)
    ensures SineBounded(trig) ==> -LegAmplitude <= a <= LegAmplitude
  {
    trig.sin(t * Speed) * LegAmplitude
  }

  /** The phase value of the right leg and left arm, half a stride behind. */
  function Counter(t: real, trig: Trig): (a: real)
    ensures SineBounded(trig) ==> -LegAmplitude <= a <= LegAmplitude
    ensures HalfTurnNegates(trig) ==> a == -Swing(t, trig)
  {
    trig.sin(t * Speed + trig.pi) * LegAmplitude
  }

  /** The pose updateCharacter assigns at time t. */
  function GaitPose(t: real, trig: Trig): (p: Pose)
    ensures p.leftLeg == Swing(t, trig) && p.rightArm == ArmFactor * p.leftLeg
    ensures p.rightLeg == Counter(t, trig) && p.leftArm == ArmFactor * p.rightLeg
  {
    var swing := Swing(t, trig);
    var counter := Counter(t, trig);
    Pose(swing, counter, counter * ArmFactor, swing * ArmFactor,
         TorsoRest + trig.sin(t * Speed * 2.0) * BobAmplitude)
  }

  /**
   * With a sine that a half turn negates, the two legs are mirror images of
   * each other, and so are the two arms: each limb pair alternates.
   */
  lemma MirroredStride(t: real, trig: Trig)
    requires HalfTurnNegates(trig)
    ensures GaitPose(t, trig).rightLeg == -GaitPose(t, trig).leftLeg
    ensures GaitPose(t, trig).leftArm == -GaitPose(t, trig).rightArm
  {
  }

  /** With a bounded sine, legs stay within +-0.6, arms within +-0.42 and the torso in [1.75, 1.85]. */
  lemma PoseBounds(t: real, trig: Trig)
    requires SineBounded(trig)
    ensures var p := GaitPose(t, trig);
      && -0.6 <= p.leftLeg <= 0.6 && -0.6 <= p.rightLeg <= 0.6
      && -0.42 <= p.leftArm <= 0.42 && -0.42 <= p.rightArm <= 0.42
      && 1.75 <= p.torsoY <= 1.85
  {
  }

  /** The character parts updateCharacter poses (partsRef.current). */
  class Rig {
    var leftLeg: real
    var rightLeg: real
    var leftArm: real
    var rightArm: real
    var torsoY: real

    /** addCharacter: limbs unrotated, torso at its rest height. */
    constructor ()
      ensures Current() == Pose(0.0, 0.0, 0.0, 0.0, TorsoRest)
    {
      leftLeg, rightLeg, leftArm, rightArm := 0.0, 0.0, 0.0, 0.0;
      torsoY := TorsoRest;
    }

    function Current(): Pose
      reads this
    {
      Pose(leftLeg, rightLeg, leftArm, rightArm, torsoY)
    }
  }

  /** updateCharacter: pose the parts for time t; without parts, do nothing. */
  method UpdateCharacter(parts: Rig?, t: real, trig: Trig)
    modifies parts
    ensures parts != null ==> parts.Current() == GaitPose(t, trig)
  {
    if parts == null {
      return;
    }
    var swing := trig.sin(t * Speed) * LegAmplitude;
    var counter := trig.sin(t * Speed + trig.pi) * LegAmplitude;
    parts.leftLeg := swing;
    parts.rightLeg := counter;
    parts.leftArm := counter * ArmFactor;
    parts.rightArm := swing * ArmFactor;
    parts.torsoY := TorsoRest + trig.sin(t * Speed * 2.0) * BobAmplitude;
  }
}
