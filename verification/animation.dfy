/**
 * Animation: a scene node that steps a sprite through a list of frames.
 * Time is integer microseconds, as sf::Time stores it. The sprite itself
 * is not modelled; the animation records which frame it last handed to
 * the sprite (`displayed`).
 */
module Animations {
  import opened Wrappers
  import opened Geometry
  import opened SceneGraph

  /** One frame: the texture rectangle, the origin factor and how long it is shown. */
  datatype Frame = Frame(textureRect: FloatRect, origin: Vec2, duration: int)

  /** Animation::Data, shared by pointer between the animation and its owner. */
  class AnimationData {
    var frames: seq<Frame>
    var totalDuration: int
    var repeat: bool
    var loopback: bool

    constructor (frames: seq<Frame>, totalDuration: int, repeat: bool, loopback: bool)
      ensures this.frames == frames && this.totalDuration == totalDuration
      ensures this.repeat == repeat && this.loopback == loopback
    {
      this.frames := frames;
      this.totalDuration := totalDuration;
      this.repeat := repeat;
      this.loopback := loopback;
    }

    /** The loopback loop of finalizeAnimationSetup: frames size-2 down to 0 pushed at the back. */
    method AppendLoopback()
      modifies this
      ensures frames == Loopback(old(frames))
      ensures totalDuration == old(totalDuration) && repeat == old(repeat) && loopback == old(loopback)
    {
      ghost var original := frames;
      if |frames| <= 1 {
        return;
      }
      ghost var m := |original| - 1;
      var i: int := |frames| - 2;
      while i >= 0
        invariant -1 <= i < m
        invariant totalDuration == old(totalDuration) && repeat == old(repeat) && loopback == old(loopback)
        invariant |frames| == 2 * m - i
        invariant frames[..|original|] == original
        invariant forall j :: |original| <= j < |frames| ==> frames[j] == original[2 * m - j]
      {
        frames := frames + [frames[i]];
        i := i - 1;
      }
      ghost var expected := Loopback(original);
      forall j | 0 <= j < |frames|
        ensures frames[j] == expected[j]
      {
        if j < |original| {
          assert frames[j] == frames[..|original|][j];
          assert expected[j] == expected[..|original|][j];
        } else {
          assert expected[j] == expected[|expected| - 1 - j];
          assert expected[|expected| - 1 - j] == expected[..|original|][|expected| - 1 - j];
        }
      }
    }

    /** The duration loop of finalizeAnimationSetup: every frame is given duration d. */
    method SetDurations(d: int)
      modifies this
      ensures frames == WithDuration(old(frames), d)
      ensures totalDuration == old(totalDuration) && repeat == old(repeat) && loopback == old(loopback)
    {
      ghost var original := frames;
      var j := 0;
      while j < |frames|
        invariant totalDuration == old(totalDuration) && repeat == old(repeat) && loopback == old(loopback)
        invariant 0 <= j <= |frames| == |original|
        invariant frames[..j] == WithDuration(original, d)[..j]
        invariant frames[j..] == original[j..]
      {
        frames := frames[j := frames[j].(duration := d)];
        j := j + 1;
      }
    }
  }

  /** The reversal of a sequence. */
  function Reversed<T>(s: seq<T>): (r: seq<T>)
    ensures |r| == |s|
    ensures forall i :: 0 <= i < |s| ==> r[i] == s[|s| - 1 - i]
  {
    if s == [] then [] else Reversed(s[1..]) + [s[0]]
  }

  /**
   * The loopback expansion: the frames, then every frame but the last in
   * reverse order, so that the animation plays forwards and back again.
   */
  function Loopback(frames: seq<Frame>): (r: seq<Frame>)
    ensures |frames| >= 1 ==> |r| == 2 * |frames| - 1
    ensures |frames| <= 1 ==> r == frames
    ensures |frames| <= |r| && r[..|frames|] == frames
    ensures forall i :: 0 <= i < |r| ==> r[i] == r[|r| - 1 - i]
  {
    if |frames| <= 1 then frames else frames + Reversed(frames[..|frames| - 1])
  }

  /** The frames after setup's first step: expanded when the data asks for loopback. */
  function Expanded(frames: seq<Frame>, loopback: bool): seq<Frame>
  {
    if loopback then Loopback(frames) else frames
  }

  /**
   * The total duration split evenly over n frames, truncated toward zero
   * as the conversion back to whole microseconds does.
   */
  function FrameDuration(total: int, n: nat): (d: int)
    requires n > 0
    ensures total >= 0 ==> 0 <= d && d * n <= total < (d + 1) * n
    ensures total < 0 ==> d <= 0 && total <= d * n && (d - 1) * n < total
  {
    if total >= 0 then
      DivisionBounds(total, n);
      total / n
    else
      DivisionBounds(-total, n);
      -((-total) / n)
  }

  /** The quotient of Euclidean division by a positive divisor, bracketed by multiples of the divisor. */
  lemma DivisionBounds(a: nat, n: nat)
    requires n > 0
    ensures 0 <= a / n
    ensures (a / n) * n <= a < (a / n + 1) * n
    ensures -(a / n) * n == -((a / n) * n) && (-(a / n) - 1) * n == -((a / n + 1) * n)
  {
    var q := a / n;
    assert a == q * n + a % n;
    assert (q + 1) * n == q * n + n;
    assert (-q) * n == -(q * n);
    assert (-q - 1) * n == -((q + 1) * n);
  }

  /** The frames with every duration replaced by d. */
  function WithDuration(frames: seq<Frame>, d: int): (r: seq<Frame>)
    ensures |r| == |frames|
    ensures forall i :: 0 <= i < |r| ==> r[i].duration == d
    ensures forall i :: 0 <= i < |r| ==> r[i].textureRect == frames[i].textureRect && r[i].origin == frames[i].origin
  {
    seq(|frames|, i requires 0 <= i < |frames| => frames[i].(duration := d))
  }

  /** The number of values of size_t: `frames.size() - 1` wraps modulo this. */
  const SizeModulus: int := 0x1_0000_0000_0000_0000

  /** `frames.size() - 1` in size_t arithmetic: 0 - 1 wraps to the largest size_t. */
  function LastIndex(size: nat): nat
    requires size < SizeModulus
  {
    if size == 0 then SizeModulus - 1 else size - 1
  }

  /** The `reached_end` test of updateCurrent. */
  predicate ReachedEnd(current: nat, size: nat, repeat: bool)
    requires size < SizeModulus
    ensures ReachedEnd(current, size, repeat) ==> !repeat
    ensures !repeat && size > 0 ==> (ReachedEnd(current, size, repeat) <==> current >= size - 1)
    ensures size == 0 ==> (ReachedEnd(current, size, repeat) <==> !repeat && current >= SizeModulus - 1)
  {
    !(current < LastIndex(size) || repeat)
  }

  /** The playback part of an animation's state. */
  datatype Playback = Playback(current: nat, elapsed: int, ongoing: bool)

  /** updateCurrent reads the current frame exactly when the animation is ongoing and not at its end. */
  predicate Defined(p: Playback, frames: seq<Frame>, repeat: bool)
  {
    |frames| < SizeModulus &&
    (p.ongoing && !ReachedEnd(p.current, |frames|, repeat) ==> p.current < |frames|)
  }

  /** The step moves on to another frame. */
  predicate Advances(p: Playback, frames: seq<Frame>, repeat: bool, dt: int)
    requires Defined(p, frames, repeat)
  {
    p.ongoing && !ReachedEnd(p.current, |frames|, repeat) && p.elapsed + dt >= frames[p.current].duration
  }

  /**
   * One call of Animation::updateCurrent on the playback state. Time only
   * accumulates while the animation is ongoing and not at its end; once it
   * reaches the current frame's duration the index moves on and the
   * accumulated time starts again from zero.
   */
  function Step(p: Playback, frames: seq<Frame>, repeat: bool, dt: int): (r: Playback)
    requires Defined(p, frames, repeat)
    ensures Defined(r, frames, repeat)
    ensures r.ongoing == p.ongoing
    ensures !p.ongoing || ReachedEnd(p.current, |frames|, repeat) ==> r == p
    ensures Advances(p, frames, repeat, dt) ==> r.elapsed == 0
    ensures !Advances(p, frames, repeat, dt) ==> r.current == p.current
    ensures p.ongoing && !ReachedEnd(p.current, |frames|, repeat) && !Advances(p, frames, repeat, dt) ==>
              r.elapsed == p.elapsed + dt
    ensures p.current < |frames| ==> r.current < |frames|
    ensures !repeat ==> p.current <= r.current
  {
    var atEnd := ReachedEnd(p.current, |frames|, repeat);
    if p.ongoing && !atEnd then
      var elapsed := p.elapsed + dt;
      if elapsed >= frames[p.current].duration then
        if !atEnd || repeat then
          if repeat then
            Playback(if p.current < LastIndex(|frames|) then p.current + 1 else 0, 0, p.ongoing)
          else
            Playback(p.current + 1, 0, p.ongoing)
        else
          Playback(p.current, elapsed, false)
      else
        Playback(p.current, elapsed, p.ongoing)
    else
      p
  }

  /**
   * An advance moves to the next frame in cyclic order; without repeat it
   * never needs to wrap, since the last frame counts as the end.
   */
  lemma StepAdvancesCyclically(p: Playback, frames: seq<Frame>, repeat: bool, dt: int)
    requires Defined(p, frames, repeat) && Advances(p, frames, repeat, dt)
    ensures Step(p, frames, repeat, dt).current == (p.current + 1) % |frames|
    ensures !repeat ==> p.current + 1 < |frames|
    ensures |frames| >= 2 ==> Step(p, frames, repeat, dt).current != p.current
  {
    NextModulo(p.current, |frames|);
  }

  /** The successor of an index modulo the count: the next index, or 0 after the last one. */
  lemma NextModulo(i: nat, n: nat)
    requires i < n
    ensures (i + 1) % n == if i + 1 < n then i + 1 else 0
  {
  }

  /** Animation: the base node's switches, the shared data, and the playback state. */
  class Animation {
    const node: SceneNode
    const data: AnimationData
    var current: nat
    var elapsed: int
    var ongoing: bool
    var displayed: Option<nat>

    ghost function State(): Playback
      reads this
    {
      Playback(current, elapsed, ongoing)
    }

    /** The base node is well formed and holds neither the animation nor its data. */
    ghost predicate Valid()
      reads this, node, node.Repr
    {
      node.Valid() && this !in node.Repr && data !in node.Repr
    }

    /** Animation::Animation: frame 0, no time elapsed, not ongoing, updating switched off. */
    constructor (data: AnimationData)
      ensures this.data == data && fresh(node) && Valid()
      ensures current == 0 && elapsed == 0 && !ongoing && displayed == None
      ensures node.updating == Activation(false, false)
      ensures node.eventHandling == Activation(true, true) && node.drawing == Activation(true, true)
      ensures node.parent == null && node.children == []
    {
      this.data := data;
      node := new SceneNode();
      current := 0;
      elapsed := 0;
      ongoing := false;
      displayed := None;
      new;
      node.ActivateUpdating(All, false);
    }

    /** Animation::start: only the node's own update switch is turned on. */
    method Start()
      modifies node
      ensures node.updating == Activation(true, old(node.updating.children))
      ensures node.eventHandling == old(node.eventHandling) && node.drawing == old(node.drawing)
      ensures node.children == old(node.children) && node.parent == old(node.parent)
      ensures old(Valid()) ==> Valid()
      ensures unchanged(this)
    {
      node.ActivateUpdating(Current, true);
    }

    /** Animation::stop: only the node's own update switch is turned off. */
    method Stop()
      modifies node
      ensures node.updating == Activation(false, old(node.updating.children))
      ensures node.eventHandling == old(node.eventHandling) && node.drawing == old(node.drawing)
      ensures node.children == old(node.children) && node.parent == old(node.parent)
      ensures old(Valid()) ==> Valid()
      ensures unchanged(this)
    {
      node.ActivateUpdating(Current, false);
    }

    /** Animation::restart: back to frame 0 with no time elapsed, switched on and ongoing. */
    method Restart()
      modifies this, node
      ensures current == 0 && elapsed == 0 && ongoing
      ensures displayed == old(displayed)
      ensures node.updating == Activation(true, old(node.updating.children))
      ensures node.eventHandling == old(node.eventHandling) && node.drawing == old(node.drawing)
      ensures node.children == old(node.children) && node.parent == old(node.parent)
      ensures old(Valid()) ==> Valid()
      ensures 0 < |data.frames| < SizeModulus ==> Defined(State(), data.frames, data.repeat)
    {
      current := 0;
      elapsed := 0;
      node.ActivateUpdating(Current, true);
      ongoing := true;
    }

    /**
     * Animation::finalizeAnimationSetup: expand the frames for loopback,
     * give every frame an equal share of the total duration, and hand the
     * current frame to the sprite.
     */
    method FinalizeAnimationSetup()
      requires current < |data.frames|
      modifies data, this
      ensures data.frames == WithDuration(Expanded(old(data.frames), old(data.loopback)),
                                          FrameDuration(old(data.totalDuration), |Expanded(old(data.frames), old(data.loopback))|))
      ensures old(data.loopback) ==> |data.frames| == 2 * |old(data.frames)| - 1
      ensures !old(data.loopback) ==> |data.frames| == |old(data.frames)|
      ensures data.totalDuration == old(data.totalDuration)
      ensures data.repeat == old(data.repeat) && data.loopback == old(data.loopback)
      ensures current == old(current) && elapsed == old(elapsed) && ongoing == old(ongoing)
      ensures displayed == Some(current) && current < |data.frames|
    {
      if data.loopback {
        data.AppendLoopback();
      }
      var duration := FrameDuration(data.totalDuration, |data.frames|);
      data.SetDurations(duration);
      displayed := Some(current);
    }

    /**
     * Animation::updateCurrent: one step of the playback state. When the
     * animation advances, the sprite is given the frame at the index it is
     * leaving, before the index moves on.
     */
    method UpdateCurrent(dt: int)
      requires Defined(State(), data.frames, data.repeat)
      modifies this
      ensures State() == Step(old(State()), data.frames, data.repeat, dt)
      ensures displayed == if Advances(old(State()), data.frames, data.repeat, dt) then Some(old(current)) else old(displayed)
      ensures Defined(State(), data.frames, data.repeat)
    {
      var repeat := data.repeat;
      var atEnd := !(current < LastIndex(|data.frames|) || repeat);
      if ongoing && !atEnd {
        elapsed := elapsed + dt;
        if elapsed >= data.frames[current].duration {
          if !atEnd || repeat {
            displayed := Some(current);
            elapsed := 0;
            if repeat {
              if current < LastIndex(|data.frames|) {
                current := current + 1;
              } else {
                current := 0;
              }
            } else {
              current := current + 1;
            }
          } else {
            assert false;
          }
        }
      }
    }
  }

  /** Without repeat, updateCurrent never hands the sprite the last frame. */
  lemma LastFrameNeverShownWithoutRepeat(p: Playback, frames: seq<Frame>, dt: int)
    requires Defined(p, frames, false) && Advances(p, frames, false, dt)
    ensures p.current < |frames| - 1
  {
  }
}
