/**
 * The world scroll inside animate() (app/page.jsx): every top-level scene
 * child tagged isParallax slides towards the camera each frame and jumps back
 * once it has passed the far bound, so the character seems to walk forward.
 */
module Parallax {

  /** Per-frame scroll of a tagged node along z. */
  const ScrollStep: real := 0.12
  /** A node whose z exceeds WrapBound after the step is pulled back by WrapSpan. */
  const WrapBound: real := 30.0
  const WrapSpan: real := 60.0

  /** A top-level child of the scene: its isParallax tag and its z position. */
  datatype Node = Node(isParallax: bool, z: real)

  /** What one frame does to one top-level child. */
  function Scroll(n: Node): (m: Node)
    ensures m.isParallax == n.isParallax
    ensures !n.isParallax ==> m == n
  {
    if n.isParallax then
      var z := n.z + ScrollStep;
      n.(z := if z > WrapBound then z - WrapSpan else z)
    else n
  }

  /** The window (-30, 30] that tagged nodes cycle through. */
  predicate InWindow(n: Node)
  {
    -WrapBound < n.z <= WrapBound
  }

  /** A tagged node moves by +0.12, or by +0.12 - 60 when it wraps, and wraps iff it passed 30. */
  lemma ScrollMoves(n: Node)
    requires n.isParallax
    ensures n.z + 0.12 <= 30.0 ==> Scroll(n).z == n.z + 0.12
    ensures n.z + 0.12 > 30.0 ==> Scroll(n).z == n.z + 0.12 - 60.0
  {
  }

  /** One step keeps a node in the window (-30, 30]. */
  lemma ScrollKeepsWindow(n: Node)
    requires InWindow(n)
    ensures InWindow(Scroll(n))
  {
  }

  /** A tagged node anywhere in (-30, 89.88] is in the window after one step. */
  lemma ScrollEntersWindow(n: Node)
    requires n.isParallax && -30.0 < n.z <= 89.88
    ensures InWindow(Scroll(n))
  {
  }

  /** One frame over all top-level children. */
  function ScrollAll(ns: seq<Node>): (ms: seq<Node>)
    ensures |ms| == |ns|
    ensures forall i :: 0 <= i < |ns| ==> ms[i].isParallax == ns[i].isParallax
    ensures forall i :: 0 <= i < |ns| && !ns[i].isParallax ==> ms[i] == ns[i]
  {
    seq(|ns|, i requires 0 <= i < |ns| => Scroll(ns[i]))
  }

  /** All top-level children after k frames. */
  function ScrollAllFrames(ns: seq<Node>, k: nat): (ms: seq<Node>)
    ensures |ms| == |ns|
  {
    if k == 0 then ns else ScrollAll(ScrollAllFrames(ns, k - 1))
  }

  /** A node after k frames. */
  function ScrollFrames(n: Node, k: nat): Node
  {
    if k == 0 then n else Scroll(ScrollFrames(n, k - 1))
  }

  /** Where a node that started at z0 is after k frames and w wraps. */
  function Shifted(z0: real, k: nat, w: nat): real
  {
    z0 + ScrollStep * (k as real) - WrapSpan * (w as real)
  }

  /**
   * After k frames a tagged node that started in the window is still in it,
   * and has moved by 0.12 k less some whole number of wraps of 60: it never
   * accumulates overshoot.
   */
  lemma {:induction false} ScrollFramesInWindow(n: Node, k: nat)
    requires n.isParallax && InWindow(n)
    ensures InWindow(ScrollFrames(n, k))
    ensures ScrollFrames(n, k).isParallax
    ensures exists w: nat :: ScrollFrames(n, k).z == Shifted(n.z, k, w)
  {
    if k > 0 {
      ScrollFramesInWindow(n, k - 1);
      var prev := ScrollFrames(n, k - 1);
      var w: nat :| prev.z == Shifted(n.z, k - 1, w);
      ScrollKeepsWindow(prev);
      if prev.z + 0.12 > 30.0 {
        assert ScrollFrames(n, k).z == Shifted(n.z, k, w + 1);
      } else {
        assert ScrollFrames(n, k).z == Shifted(n.z, k, w);
      }
    } else {
      assert ScrollFrames(n, k).z == Shifted(n.z, k, 0);
    }
  }

  /** An untagged node (the car group, the character, the lights) never moves. */
  lemma {:induction false} UntaggedStaysPut(n: Node, k: nat)
    requires !n.isParallax
    ensures ScrollFrames(n, k) == n
  {
    if k > 0 {
      UntaggedStaysPut(n, k - 1);
    }
  }

  /** The scene's list of top-level children, whose positions animate() mutates. */
  class SceneGraph {
    var children: array<Node>

    constructor (nodes: seq<Node>)
      ensures fresh(children) && children[..] == nodes
    {
      children := new Node[|nodes|](i requires 0 <= i < |nodes| => nodes[i]);
    }

    /** The forEach over scene.children in animate(). */
    method ScrollParallax()
      modifies children
      ensures children[..] == ScrollAll(old(children[..]))
    {
      var i := 0;
      while i < children.Length
        invariant 0 <= i <= children.Length
        invariant forall k :: 0 <= k < i ==> children[k] == Scroll(old(children[k]))
        invariant forall k :: i <= k < children.Length ==> children[k] == old(children[k])
      {
        var obj := children[i];
        if obj.isParallax {
          var z := obj.z + ScrollStep;
          if z > WrapBound { z := z - WrapSpan; }
          children[i] := obj.(z := z);
        }
        i := i + 1;
      }
    }
  }
}
