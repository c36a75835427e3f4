/**
 * One tick of the render loop (app/page.jsx, animate): advance the clock,
 * move the traffic, pose the character, then scroll the parallax-tagged
 * scene children. Drawing and rescheduling with requestAnimationFrame are
 * not part of this model.
 */
module RenderLoop {
  import Traffic
  import Parallax
  import Gait

  /** Simulation time added per frame. */
  const FrameStep: real := 0.016

  /** The body of animate(): returns the new time; updates cars, rig and scene children in place. */
  method Animate(cars: Traffic.CarGroup, scene: Parallax.SceneGraph, parts: Gait.Rig?, t: real, trig: Gait.Trig)
    returns (t': real)
    requires cars.Valid()
    modifies cars.cars, scene.children, parts
    ensures t' == t + FrameStep
    ensures cars.Valid() && cars.cars[..] == Traffic.AdvanceAll(old(cars.cars[..]))
    ensures parts != null ==> parts.Current() == Gait.GaitPose(t', trig)
    ensures scene.children[..] == Parallax.ScrollAll(old(scene.children[..]))
  {
    t' := t + FrameStep;
    cars.UpdateCars();
    Gait.UpdateCharacter(parts, t', trig);
    scene.ScrollParallax();
  }

  /** The clock after n frames: the time the gait is evaluated at on frame n. */
  function ClockAfter(n: nat): (t: real)
    ensures t == FrameStep * (n as real)
  {
    if n == 0 then 0.0 else ClockAfter(n - 1) + FrameStep
  }

  /**
   * n ticks of the loop that requestAnimationFrame keeps rescheduling, from
   * the clock's start at 0: the clock reads ClockAfter(n), the cars and the
   * scene children have gone through n frames, and the character holds the
   * pose of the last tick.
   */
  method RunFrames(cars: Traffic.CarGroup, scene: Parallax.SceneGraph, parts: Gait.Rig?, n: nat, trig: Gait.Trig)
    returns (t: real)
    requires cars.Valid()
    modifies cars.cars, scene.children, parts
    ensures t == ClockAfter(n)
    ensures cars.Valid() && cars.cars[..] == Traffic.Frames(old(cars.cars[..]), n)
    ensures scene.children[..] == Parallax.ScrollAllFrames(old(scene.children[..]), n)
    ensures parts != null && n > 0 ==> parts.Current() == Gait.GaitPose(t, trig)
  {
    t := 0.0;
    var i := 0;
    while i < n
      invariant 0 <= i <= n
      invariant t == ClockAfter(i)
      invariant cars.Valid() && cars.cars[..] == Traffic.Frames(old(cars.cars[..]), i)
      invariant scene.children[..] == Parallax.ScrollAllFrames(old(scene.children[..]), i)
      invariant parts != null && i > 0 ==> parts.Current() == Gait.GaitPose(t, trig)
    {
      t := Animate(cars, scene, parts, t, trig);
      i := i + 1;
    }
  }
}
