/**
 * SoundProperties: the volume, attenuation, pitch, minimum distance and
 * listener-relative flag a sound is played with. The volume is kept in
 * [0, 100] and the minimum distance is never 0. The 3-D minimum distance
 * combines the 2-D one with the listener's depth; that depth is global
 * audio state, so it is a parameter here, and so is its square root, which
 * the caller supplies together with the fact that it is one.
 */
module Sounds {

  const MinVolume: real := 0.0
  const MaxVolume: real := 100.0

  /** The volume setVolume stores. */
  function ClampedVolume(volume: real): (r: real)
    ensures MinVolume <= r <= MaxVolume
    ensures MinVolume <= volume <= MaxVolume ==> r == volume
    ensures volume < MinVolume ==> r == MinVolume
    ensures volume > MaxVolume ==> r == MaxVolume
  {
    if volume < 0.0 then 0.0
    else if volume > 100.0 then 100.0
    else volume
  }

  /** Clamping a clamped volume changes nothing. */
  lemma ClampIsIdempotent(volume: real)
    ensures ClampedVolume(ClampedVolume(volume)) == ClampedVolume(volume)
  {
  }

  /** A louder request never gives a quieter sound. */
  lemma ClampIsMonotone(v: real, w: real)
    requires v <= w
    ensures ClampedVolume(v) <= ClampedVolume(w)
  {
  }

  /** The 2-D minimum distance setMinDistance2D stores: 0 is replaced by 1. */
  function GuardedDistance(distance: real): (r: real)
    ensures r != 0.0
    ensures distance != 0.0 ==> r == distance
    ensures distance == 0.0 ==> r == 1.0
  {
    if distance != 0.0 then distance else 1.0
  }

  function Abs(x: real): (r: real)
    ensures r >= 0.0 && (r == x || r == -x)
  {
    if x < 0.0 then -x else x
  }

  /** `root` is the 3-D minimum distance for the 2-D distance d2 and listener depth z. */
  ghost predicate IsDistance3D(root: real, d2: real, z: real)
  {
    root >= 0.0 && root * root == d2 * d2 + z * z
  }

  /** Two non-negative numbers compare as their squares do. */
  lemma SquareMonotone(a: real, b: real)
    requires 0.0 <= a < b
    ensures a * a < b * b
  {
    var c := b - a;
    assert b * b == (a + c) * (a + c) == a * a + 2.0 * a * c + c * c;
    assert a * c >= 0.0;
    assert c * c > 0.0;
  }

  /**
   * The 3-D minimum distance is at least as large as the 2-D one, positive
   * whenever the 2-D one is not 0, and equal to its magnitude when the
   * listener is at depth 0.
   */
  lemma Distance3DBounds(root: real, d2: real, z: real)
    requires IsDistance3D(root, d2, z)
    ensures root >= Abs(d2)
    ensures d2 != 0.0 ==> root > 0.0
    ensures z == 0.0 ==> root == Abs(d2)
  {
    var a := Abs(d2);
    assert a * a == d2 * d2;
    if root < a {
      SquareMonotone(root, a);
      assert false;
    }
    if z == 0.0 && a < root {
      SquareMonotone(a, root);
      assert false;
    }
  }

  class SoundProperties {
    var volume: real
    var attenuation: real
    var pitch: real
    var minDistance2D: real
    var minDistance3D: real
    var relativeToListener: bool
    /** The listener depth the 3-D distance was last computed for. */
    ghost var listenerDepth: real

    /** What every setter keeps: a volume in range and a consistent, non-zero minimum distance. */
    ghost predicate Valid()
      reads this
    {
      && MinVolume <= volume <= MaxVolume
      && minDistance2D != 0.0
      && IsDistance3D(minDistance3D, minDistance2D, listenerDepth)
    }

    /**
     * SoundProperties::SoundProperties: attenuation, pitch and the flag are
     * stored as given; volume and distance go through their setters.
     */
    constructor (volume: real, attenuation: real, pitch: real, minDistance2D: real,
                 relativeToListener: bool, z: real, root: real)
      requires IsDistance3D(root, GuardedDistance(minDistance2D), z)
      ensures Valid()
      ensures this.volume == ClampedVolume(volume)
      ensures this.attenuation == attenuation && this.pitch == pitch
      ensures this.relativeToListener == relativeToListener
      ensures this.minDistance2D == GuardedDistance(minDistance2D)
      ensures this.minDistance3D == root
    {
      this.attenuation := attenuation;
      this.pitch := pitch;
      this.relativeToListener := relativeToListener;
      new;
      SetVolume(volume);
      SetMinDistance2D(minDistance2D, z, root);
    }

    /** SoundProperties::setVolume */
    method SetVolume(v: real)
      modifies this
      ensures volume == ClampedVolume(v)
      ensures old(Valid()) ==> Valid()
      ensures attenuation == old(attenuation) && pitch == old(pitch)
      ensures relativeToListener == old(relativeToListener)
      ensures minDistance2D == old(minDistance2D) && minDistance3D == old(minDistance3D)
      ensures listenerDepth == old(listenerDepth)
    {
      if v < 0.0 {
        volume := 0.0;
      } else if v > 100.0 {
        volume := 100.0;
      } else {
        volume := v;
      }
    }

    /**
     * SoundProperties::setMinDistance2D, with the listener depth z and the
     * square root of d2 * d2 + z * z given.
     */
    method SetMinDistance2D(d: real, z: real, root: real)
      requires IsDistance3D(root, GuardedDistance(d), z)
      modifies this
      ensures minDistance2D == GuardedDistance(d) && minDistance3D == root
      ensures listenerDepth == z
      ensures old(MinVolume <= volume <= MaxVolume) ==> Valid()
      ensures minDistance3D >= Abs(minDistance2D) > 0.0
      ensures volume == old(volume) && attenuation == old(attenuation) && pitch == old(pitch)
      ensures relativeToListener == old(relativeToListener)
    {
      minDistance2D := if d != 0.0 then d else 1.0;
      minDistance3D := root;
      listenerDepth := z;
      Distance3DBounds(root, minDistance2D, z);
    }

    /** SoundProperties::setAttenuation */
    method SetAttenuation(a: real)
      modifies this
      ensures attenuation == a && pitch == old(pitch) && volume == old(volume)
      ensures relativeToListener == old(relativeToListener)
      ensures minDistance2D == old(minDistance2D) && minDistance3D == old(minDistance3D)
      ensures listenerDepth == old(listenerDepth)
    {
      attenuation := a;
    }

    /** SoundProperties::setPitch */
    method SetPitch(p: real)
      modifies this
      ensures pitch == p && attenuation == old(attenuation) && volume == old(volume)
      ensures relativeToListener == old(relativeToListener)
      ensures minDistance2D == old(minDistance2D) && minDistance3D == old(minDistance3D)
      ensures listenerDepth == old(listenerDepth)
    {
      pitch := p;
    }

    /** SoundProperties::setRelativeToListener */
    method SetRelativeToListener(relative: bool)
      modifies this
      ensures relativeToListener == relative && pitch == old(pitch)
      ensures attenuation == old(attenuation) && volume == old(volume)
      ensures minDistance2D == old(minDistance2D) && minDistance3D == old(minDistance3D)
      ensures listenerDepth == old(listenerDepth)
    {
      relativeToListener := relative;
    }
  }

  /**
   * Setting the same volume twice leaves the properties as setting it once:
   * once is the volume after the first call, and the second call, given
   * that volume, changes nothing.
   */
  method SetVolumeTwice(props: SoundProperties, v: real) returns (once: real)
    modifies props
    ensures once == ClampedVolume(v) && props.volume == once
    ensures old(props.Valid()) ==> props.Valid()
    ensures props.attenuation == old(props.attenuation) && props.pitch == old(props.pitch)
    ensures props.relativeToListener == old(props.relativeToListener)
    ensures props.minDistance2D == old(props.minDistance2D) && props.minDistance3D == old(props.minDistance3D)
    ensures props.listenerDepth == old(props.listenerDepth)
  {
    props.SetVolume(v);
    once := props.volume;
    props.SetVolume(once);
    ClampIsIdempotent(v);
  }
}
