/**
 * ParticleSystem: a bounded FIFO of particles fed by an initializer at the
 * emitter, moved by an affector, aged by the frame time and drawn as one
 * textured quad per particle. Time is integer microseconds.
 */
module Particles {
  import opened Wrappers
  import opened Geometry

  /** A particle; its pointer back to the system's original lifetime is not modelled. */
  datatype Particle = Particle(position: Vec2, size: Vec2, velocity: Vec2, acceleration: Vec2,
                               color: Color, lifetime: int)

  /**
   * The initializer. It may return a different particle on every call (it
   * usually draws random numbers), so it is modelled as the sequence of
   * its results: call number n returns Initializer(n).
   */
  type Initializer = nat -> Particle

  /** The affector, moving one particle over a time step. */
  type Affector = (Particle, int) -> Particle

  /** The particle an update appends: the initializer's result, placed at the emitter. */
  function Newborn(init: Initializer, call: nat, emitter: Vec2): (p: Particle)
    ensures p.position == emitter && p.lifetime == init(call).lifetime && p.size == init(call).size
  {
    init(call).(position := emitter)
  }

  /** The spawning rule: one particle is added while there is room, or when there is no limit. */
  function Spawned(particles: seq<Particle>, maxParticles: nat, newborn: Particle): (r: seq<Particle>)
    ensures r == particles || r == particles + [newborn]
    ensures r == particles + [newborn] <==> |particles| < maxParticles || maxParticles == 0
  {
    if |particles| < maxParticles || maxParticles == 0 then particles + [newborn] else particles
  }

  /** One particle after a step: moved by the affector, then its lifetime shortened by dt. */
  function Age(affector: Affector, p: Particle, dt: int): (q: Particle)
    ensures q.lifetime == affector(p, dt).lifetime - dt
    ensures q.position == affector(p, dt).position && q.size == affector(p, dt).size
    ensures q.color == affector(p, dt).color
  {
    var moved := affector(p, dt);
    moved.(lifetime := moved.lifetime - dt)
  }

  /** Every particle aged, in order. */
  function Aged(particles: seq<Particle>, affector: Affector, dt: int): (r: seq<Particle>)
    ensures |r| == |particles|
    ensures forall i :: 0 <= i < |r| ==> r[i] == Age(affector, particles[i], dt)
  {
    seq(|particles|, i requires 0 <= i < |particles| => Age(affector, particles[i], dt))
  }

  /** The expiry rule: only the front particle can go, and only once its lifetime is used up. */
  function Expired(particles: seq<Particle>): (r: seq<Particle>)
    ensures r == particles || (particles != [] && r == particles[1..])
    ensures r != particles <==> particles != [] && particles[0].lifetime <= 0
  {
    if particles != [] && particles[0].lifetime <= 0 then particles[1..] else particles
  }

  /** The magnitude of an integer. */
  function Abs(x: int): nat
  {
    if x < 0 then -x else x
  }

  /** The lifetime fraction lifetime / original is positive. */
  predicate PositiveRatio(lifetime: int, original: int)
  {
    (lifetime > 0 && original > 0) || (lifetime < 0 && original < 0)
  }

  /** q is the floor of x / d: q copies of d fit into x, q + 1 do not. */
  predicate Brackets(q: int, x: int, d: int)
  {
    q * d <= x < (q + 1) * d
  }

  /** Euclidean division of a natural number by a positive one is its floor. */
  lemma DivisionBrackets(x: nat, d: nat)
    requires d > 0
    ensures Brackets(x / d, x, d)
  {
  }

  lemma MultiplyMonotone(a: nat, b: nat, d: nat)
    requires a <= b
    ensures a * d <= b * d
  {
  }

  /**
   * The alpha of a particle: 255 times the fraction of its original
   * lifetime left, floored, and 0 once the fraction is not positive.
   */
  function Alpha(lifetime: int, original: int): (a: nat)
    requires original != 0
    ensures !PositiveRatio(lifetime, original) ==> a == 0
    ensures PositiveRatio(lifetime, original) ==> Brackets(a, 255 * Abs(lifetime), Abs(original))
  {
    if PositiveRatio(lifetime, original) then
      DivisionBrackets(255 * Abs(lifetime), Abs(original));
      255 * Abs(lifetime) / Abs(original)
    else 0
  }

  /** A particle with no more than its original lifetime left is at most fully opaque. */
  lemma AlphaAtMostOpaque(lifetime: int, original: int)
    requires original != 0 && Abs(lifetime) <= Abs(original)
    ensures Alpha(lifetime, original) <= 255
  {
    var a := Alpha(lifetime, original);
    if PositiveRatio(lifetime, original) {
      var d := Abs(original);
      assert a * d <= 255 * Abs(lifetime) by {
        assert Brackets(a, 255 * Abs(lifetime), d);
      }
      if a > 255 {
        MultiplyMonotone(256, a, d);
        assert false;
      }
    }
  }

  /** The four corners of a particle's quad, with texture coordinates spanning the texture. */
  function Quad(p: Particle, half: Vec2, original: int, texture: Vec2u): (q: seq<Vertex>)
    requires original != 0
    ensures |q| == 4
    ensures forall k :: 0 <= k < 4 ==> q[k].color == p.color.(a := Alpha(p.lifetime, original))
    ensures q[0].position == Vec2(p.position.x - half.x, p.position.y - half.y)
    ensures q[2].position == Vec2(p.position.x + half.x, p.position.y + half.y)
  {
    var c := p.color.(a := Alpha(p.lifetime, original));
    var tu := texture.x as real;
    var tv := texture.y as real;
    [ Vertex(Vec2(p.position.x - half.x, p.position.y - half.y), c, Vec2(0.0, 0.0)),
      Vertex(Vec2(p.position.x + half.x, p.position.y - half.y), c, Vec2(tu, 0.0)),
      Vertex(Vec2(p.position.x + half.x, p.position.y + half.y), c, Vec2(tu, tv)),
      Vertex(Vec2(p.position.x - half.x, p.position.y + half.y), c, Vec2(0.0, tv)) ]
  }

  /** The quads of all particles, in particle order. */
  function Quads(particles: seq<Particle>, half: Vec2, original: int, texture: Vec2u): (r: seq<Vertex>)
    requires original != 0
    ensures |r| == 4 * |particles|
    ensures forall i :: 0 <= i < |particles| ==> r[4 * i..4 * i + 4] == Quad(particles[i], half, original, texture)
  {
    if particles == [] then []
    else
      var n := |particles| - 1;
      var front := Quads(particles[..n], half, original, texture);
      var r := front + Quad(particles[n], half, original, texture);
      assert forall i :: 0 <= i < n ==> r[4 * i..4 * i + 4] == front[4 * i..4 * i + 4];
      r
  }

  /** The texture size the quads span: (0, 0) without a texture. */
  function TextureSize(texture: Option<Vec2u>): Vec2u
  {
    if texture.Some? then texture.value else Vec2u(0, 0)
  }

  /** The whole vertex array for the particles; every quad takes the front particle's size. */
  function Vertices(particles: seq<Particle>, original: int, texture: Option<Vec2u>): (r: seq<Vertex>)
    requires original != 0 && particles != []
    ensures |r| == 4 * |particles|
  {
    var size := particles[0].size;
    Quads(particles, Vec2(size.x / 2.0, size.y / 2.0), original, TextureSize(texture))
  }

  class ParticleSystem {
    var particles: seq<Particle>
    var maxParticles: nat
    var vertexArray: seq<Vertex>
    var texture: Option<Vec2u>
    var emitterActive: bool
    var emitterPosition: Vec2
    var originalLifetime: int
    var initializer: Option<Initializer>
    var affector: Option<Affector>
    /** How many times the initializer has been called. */
    var initializerCalls: nat

    /** ParticleSystem::ParticleSystem: no particles, emitter off, no initializer or affector. */
    constructor (maxParticles: nat, texture: Option<Vec2u>)
      ensures particles == [] && vertexArray == []
      ensures this.maxParticles == maxParticles && this.texture == texture
      ensures !emitterActive && emitterPosition == Vec2(0.0, 0.0)
      ensures originalLifetime == 0 && initializer == None && affector == None
      ensures initializerCalls == 0
    {
      particles := [];
      this.maxParticles := maxParticles;
      vertexArray := [];
      this.texture := texture;
      emitterActive := false;
      emitterPosition := Vec2(0.0, 0.0);
      originalLifetime := 0;
      initializer := None;
      affector := None;
      initializerCalls := 0;
    }

    /** ParticleSystem::setInitializer: the original lifetime is that of one call's particle. */
    method SetInitializer(init: Initializer)
      modifies this
      ensures initializer == Some(init)
      ensures originalLifetime == init(old(initializerCalls)).lifetime
      ensures initializerCalls == old(initializerCalls) + 1
      ensures particles == old(particles) && vertexArray == old(vertexArray) && affector == old(affector)
      ensures emitterActive == old(emitterActive) && emitterPosition == old(emitterPosition)
      ensures maxParticles == old(maxParticles) && texture == old(texture)
    {
      initializer := Some(init);
      originalLifetime := init(initializerCalls).lifetime;
      initializerCalls := initializerCalls + 1;
    }

    /** ParticleSystem::setAffector */
    method SetAffector(affect: Affector)
      modifies this
      ensures affector == Some(affect)
      ensures particles == old(particles) && vertexArray == old(vertexArray) && initializer == old(initializer)
      ensures originalLifetime == old(originalLifetime) && initializerCalls == old(initializerCalls)
      ensures emitterActive == old(emitterActive) && emitterPosition == old(emitterPosition)
      ensures maxParticles == old(maxParticles) && texture == old(texture)
    {
      affector := Some(affect);
    }

    /** ParticleSystem::setMaxParticles: 0 means no limit. */
    method SetMaxParticles(max: nat)
      modifies this
      ensures maxParticles == max
      ensures particles == old(particles) && vertexArray == old(vertexArray)
      ensures initializer == old(initializer) && affector == old(affector)
      ensures originalLifetime == old(originalLifetime) && initializerCalls == old(initializerCalls)
      ensures emitterActive == old(emitterActive) && emitterPosition == old(emitterPosition)
      ensures texture == old(texture)
    {
      maxParticles := max;
    }

    /** ParticleSystem::setTexture: a texture of the given size, or none. */
    method SetTexture(t: Option<Vec2u>)
      modifies this
      ensures texture == t
      ensures particles == old(particles) && vertexArray == old(vertexArray)
      ensures initializer == old(initializer) && affector == old(affector)
      ensures originalLifetime == old(originalLifetime) && initializerCalls == old(initializerCalls)
      ensures emitterActive == old(emitterActive) && emitterPosition == old(emitterPosition)
      ensures maxParticles == old(maxParticles)
    {
      texture := t;
    }

    /** ParticleSystem::activateEmitter */
    method ActivateEmitter(flag: bool)
      modifies this
      ensures emitterActive == flag
      ensures particles == old(particles) && vertexArray == old(vertexArray)
      ensures initializer == old(initializer) && affector == old(affector)
      ensures originalLifetime == old(originalLifetime) && initializerCalls == old(initializerCalls)
      ensures emitterPosition == old(emitterPosition) && maxParticles == old(maxParticles)
      ensures texture == old(texture)
    {
      emitterActive := flag;
    }

    /** ParticleSystem::setEmitterPosition */
    method SetEmitterPosition(position: Vec2)
      modifies this
      ensures emitterPosition == position
      ensures particles == old(particles) && vertexArray == old(vertexArray)
      ensures initializer == old(initializer) && affector == old(affector)
      ensures originalLifetime == old(originalLifetime) && initializerCalls == old(initializerCalls)
      ensures emitterActive == old(emitterActive) && maxParticles == old(maxParticles)
      ensures texture == old(texture)
    {
      emitterPosition := position;
    }

    /** ParticleSystem::addParticle: a new particle from the initializer, at the emitter. */
    method AddParticle()
      requires initializer.Some?
      modifies this
      ensures particles == old(particles) + [Newborn(old(initializer).value, old(initializerCalls), emitterPosition)]
      ensures initializerCalls == old(initializerCalls) + 1
      ensures vertexArray == old(vertexArray) && initializer == old(initializer) && affector == old(affector)
      ensures originalLifetime == old(originalLifetime)
      ensures emitterActive == old(emitterActive) && emitterPosition == old(emitterPosition)
      ensures maxParticles == old(maxParticles) && texture == old(texture)
    {
      var init := initializer.value;
      var p := init(initializerCalls);
      initializerCalls := initializerCalls + 1;
      particles := particles + [p];
      particles := particles[|particles| - 1 := particles[|particles| - 1].(position := emitterPosition)];
    }

    /**
     * ParticleSystem::computeVertices: with a non-zero original lifetime and
     * at least one particle the array is rebuilt, four vertices per particle;
     * otherwise it is left as it was.
     */
    method ComputeVertices()
      modifies this
      ensures originalLifetime != 0 && particles != [] ==>
                vertexArray == Vertices(particles, originalLifetime, texture)
      ensures !(originalLifetime != 0 && particles != []) ==> vertexArray == old(vertexArray)
      ensures particles == old(particles) && initializer == old(initializer) && affector == old(affector)
      ensures originalLifetime == old(originalLifetime) && initializerCalls == old(initializerCalls)
      ensures emitterActive == old(emitterActive) && emitterPosition == old(emitterPosition)
      ensures maxParticles == old(maxParticles) && texture == old(texture)
    {
      if originalLifetime != 0 && particles != [] {
        var ps := particles;
        var original := originalLifetime;
        var half := Vec2(ps[0].size.x / 2.0, ps[0].size.y / 2.0);
        var textureSize := TextureSize(texture);
        var vertices := [];
        for i := 0 to |ps|
          invariant vertices == Quads(ps[..i], half, original, textureSize)
        {
          assert ps[..i + 1][..i] == ps[..i];
          vertices := vertices + Quad(ps[i], half, original, textureSize);
        }
        assert ps[..|ps|] == ps;
        vertexArray := vertices;
      }
    }

    /** The aging loop of updateCurrent: affect every particle, then shorten its lifetime. */
    method AgeParticles(affect: Affector, dt: int)
      modifies this
      ensures particles == Aged(old(particles), affect, dt)
      ensures vertexArray == old(vertexArray) && initializer == old(initializer) && affector == old(affector)
      ensures originalLifetime == old(originalLifetime) && initializerCalls == old(initializerCalls)
      ensures emitterActive == old(emitterActive) && emitterPosition == old(emitterPosition)
      ensures maxParticles == old(maxParticles) && texture == old(texture)
    {
      for i := 0 to |particles|
        invariant |particles| == |old(particles)|
        invariant particles[..i] == Aged(old(particles), affect, dt)[..i]
        invariant particles[i..] == old(particles)[i..]
        invariant vertexArray == old(vertexArray) && initializer == old(initializer) && affector == old(affector)
        invariant originalLifetime == old(originalLifetime) && initializerCalls == old(initializerCalls)
        invariant emitterActive == old(emitterActive) && emitterPosition == old(emitterPosition)
        invariant maxParticles == old(maxParticles) && texture == old(texture)
      {
        var moved := affect(particles[i], dt);
        particles := particles[i := moved.(lifetime := moved.lifetime - dt)];
      }
    }

    /**
     * ParticleSystem::updateCurrent: with the emitter on and both functions
     * set, spawn at most one particle, age them all, drop at most the front
     * one, and rebuild the vertex array. Otherwise nothing changes.
     */
    method UpdateCurrent(dt: int)
      modifies this
      ensures !(old(emitterActive) && old(initializer).Some? && old(affector).Some?) ==>
                particles == old(particles) && vertexArray == old(vertexArray) && initializerCalls == old(initializerCalls)
      ensures old(emitterActive) && old(initializer).Some? && old(affector).Some? ==>
                var spawned := Spawned(old(particles), maxParticles,
                                       Newborn(old(initializer).value, old(initializerCalls), emitterPosition));
                && particles == Expired(Aged(spawned, old(affector).value, dt))
                && initializerCalls == old(initializerCalls) + (if spawned == old(particles) then 0 else 1)
                && (originalLifetime != 0 && particles != [] ==>
                      vertexArray == Vertices(particles, originalLifetime, texture))
                && (!(originalLifetime != 0 && particles != []) ==> vertexArray == old(vertexArray))
      ensures initializer == old(initializer) && affector == old(affector)
      ensures originalLifetime == old(originalLifetime)
      ensures emitterActive == old(emitterActive) && emitterPosition == old(emitterPosition)
      ensures maxParticles == old(maxParticles) && texture == old(texture)
    {
      if emitterActive && initializer.Some? && affector.Some? {
        if |particles| < maxParticles || maxParticles == 0 {
          AddParticle();
        }
        AgeParticles(affector.value, dt);
        if particles != [] && particles[0].lifetime <= 0 {
          particles := particles[1..];
        }
        ComputeVertices();
      }
    }
  }

  /** With a limit, an update never takes the particle count above it. */
  lemma UpdateKeepsLimit(particles: seq<Particle>, maxParticles: nat, newborn: Particle, affector: Affector, dt: int)
    requires 0 < maxParticles && |particles| <= maxParticles
    ensures |Expired(Aged(Spawned(particles, maxParticles, newborn), affector, dt))| <= maxParticles
  {
  }

  /**
   * An update adds at most one particle and removes at most one; what
   * survives is the aged list in order, less at most its front.
   */
  lemma {:induction false} UpdateChangesAtMostOne(particles: seq<Particle>, maxParticles: nat, newborn: Particle,
                                                  affector: Affector, dt: int)
    ensures var r := Expired(Aged(Spawned(particles, maxParticles, newborn), affector, dt));
            |particles| - 1 <= |r| <= |particles| + 1
    ensures var r := Expired(Aged(Spawned(particles, maxParticles, newborn), affector, dt));
            forall i :: 1 <= i < |particles| ==> Age(affector, particles[i], dt) in r
  {
    var spawned := Spawned(particles, maxParticles, newborn);
    var aged := Aged(spawned, affector, dt);
    forall i | 1 <= i < |particles|
      ensures Age(affector, particles[i], dt) in Expired(aged)
    {
      assert spawned[i] == particles[i];
      assert aged[i] == Age(affector, particles[i], dt);
      if Expired(aged) != aged {
        assert Expired(aged)[i - 1] == aged[i];
      }
    }
  }

  /** With an affector that leaves lifetimes alone, each update takes exactly dt off every lifetime. */
  lemma LifetimesDecreaseByDt(particles: seq<Particle>, affector: Affector, dt: int)
    requires forall p :: affector(p, dt).lifetime == p.lifetime
    ensures forall i :: 0 <= i < |particles| ==> Aged(particles, affector, dt)[i].lifetime == particles[i].lifetime - dt
  {
  }

  /** The vertex array holds the quad of particle i at positions 4i to 4i+3. */
  lemma VertexOfParticle(particles: seq<Particle>, original: int, texture: Option<Vec2u>, i: nat, k: nat)
    requires original != 0 && i < |particles| && k < 4
    ensures 4 * i + k < |Vertices(particles, original, texture)|
    ensures Vertices(particles, original, texture)[4 * i + k].color ==
            particles[i].color.(a := Alpha(particles[i].lifetime, original))
  {
    var size := particles[0].size;
    var r := Vertices(particles, original, texture);
    var q := Quad(particles[i], Vec2(size.x / 2.0, size.y / 2.0), original, TextureSize(texture));
    assert r[4 * i..4 * i + 4] == q;
    assert r[4 * i + k] == q[k];
  }
}
