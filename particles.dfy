/**
 * A single particle of the background: how it is sampled at creation and how
 * one animation frame moves, ages, fades, wraps and finally renews it.
 * Positions, velocities, sizes, opacities and lifespans are exact reals; the
 * frame counter `life` is a natural number.
 */
module Particles {

  datatype Particle = Particle(
    x: real, y: real,
    vx: real, vy: real,
    size: real,
    opacity: real,
    life: nat,
    maxLife: real)

  /**
   * The seven uniform draws in [0, 1) that creating a particle consumes, in
   * the order it draws them.
   */
  datatype Sample = Sample(maxLife: real, x: real, y: real, vx: real, vy: real, size: real, opacity: real)

  predicate Unit(r: real)
  {
    0.0 <= r < 1.0
  }

  predicate ValidSample(s: Sample)
  {
    Unit(s.maxLife) && Unit(s.x) && Unit(s.y) && Unit(s.vx) && Unit(s.vy) && Unit(s.size) && Unit(s.opacity)
  }

  /** A coordinate drawn uniformly from [0, bound), or exactly 0 when the bound is 0. */
  predicate SampledCoordinate(v: real, bound: nat)
  {
    0.0 <= v && (v < bound as real || v == 0.0)
  }

  /** The ranges a freshly created particle lies in. */
  predicate IsFresh(p: Particle, width: nat, height: nat)
  {
    && p.life == 0
    && 200.0 <= p.maxLife < 500.0
    && SampledCoordinate(p.x, width) && SampledCoordinate(p.y, height)
    && -0.25 <= p.vx < 0.25 && -0.25 <= p.vy < 0.25
    && 0.5 <= p.size < 2.5
    && 0.1 <= p.opacity < 0.4
  }

  /**
   * What holds of every particle in the field between frames: it has not yet
   * lived out its lifespan, it is on the canvas, its opacity is in [0, 0.4]
   * and the quantities fixed at creation are still in their sampled ranges.
   */
  predicate Live(p: Particle, width: nat, height: nat)
  {
    && p.life as real < p.maxLife
    && 200.0 <= p.maxLife < 500.0
    && 0.0 <= p.x <= width as real && 0.0 <= p.y <= height as real
    && -0.25 <= p.vx < 0.25 && -0.25 <= p.vy < 0.25
    && 0.5 <= p.size < 2.5
    && 0.0 <= p.opacity <= 0.4
    && OnFadeCurve(p)
  }

  /**
   * Where the opacity of a particle that has moved at least once stands on
   * its life fraction f = life / maxLife: exactly 4 f while fading in, exactly
   * 4 (1 - f) while fading out, and in the steady band held within one
   * frame's fade-in step below the peak of 0.4. A particle of age 0 still has
   * its sampled opacity.
   */
  predicate OnFadeCurve(p: Particle)
    requires p.maxLife > 0.0
  {
    var f := p.life as real / p.maxLife;
    && (1 <= p.life && f < 0.1 ==> p.opacity == 4.0 * f)
    && (0.1 <= f <= 0.9 ==> 0.4 - 4.0 / p.maxLife <= p.opacity < 0.4)
    && (0.9 < f ==> p.opacity == 4.0 * (1.0 - f))
  }

  /** A new particle on a `width` x `height` canvas, built from the draws in `s`. */
  function CreateParticle(s: Sample, width: nat, height: nat): (p: Particle)
    requires ValidSample(s)
    ensures IsFresh(p, width, height)
  {
    ScaleBelow(s.x, width);
    ScaleBelow(s.y, height);
    Particle(
      x := s.x * width as real,
      y := s.y * height as real,
      vx := (s.vx - 0.5) * 0.5,
      vy := (s.vy - 0.5) * 0.5,
      size := s.size * 2.0 + 0.5,
      opacity := s.opacity * 0.3 + 0.1,
      life := 0,
      maxLife := s.maxLife * 300.0 + 200.0)
  }

  lemma ScaleBelow(r: real, bound: nat)
    requires Unit(r)
    ensures SampledCoordinate(r * bound as real, bound)
  {
  }

  /** Every particle in the fresh ranges is produced by some choice of draws. */
  lemma {:induction false} FreshIsSampled(p: Particle, width: nat, height: nat)
    requires IsFresh(p, width, height)
    ensures exists s :: ValidSample(s) && CreateParticle(s, width, height) == p
  {
    var rx := if width == 0 then 0.0 else p.x / width as real;
    var ry := if height == 0 then 0.0 else p.y / height as real;
    var s := Sample(
      (p.maxLife - 200.0) / 300.0,
      rx, ry,
      p.vx * 2.0 + 0.5, p.vy * 2.0 + 0.5,
      (p.size - 0.5) / 2.0,
      (p.opacity - 0.1) / 0.3);
    UnscaleBelow(p.x, width);
    UnscaleBelow(p.y, height);
    assert ValidSample(s);
    assert CreateParticle(s, width, height) == p;
  }

  lemma UnscaleBelow(v: real, bound: nat)
    requires SampledCoordinate(v, bound)
    ensures var r := if bound == 0 then 0.0 else v / bound as real;
      Unit(r) && r * bound as real == v
  {
  }

  lemma FreshIsLive(p: Particle, width: nat, height: nat)
    requires IsFresh(p, width, height)
    ensures Live(p, width, height)
  {
  }

  /**
   * The opacity after a frame, from the new `life` and the lifespan: a linear
   * fade-in over the first tenth of the lifespan, a linear fade-out over the
   * last tenth, and in between the previous `opacity` is kept unchanged.
   */
  function Fade(life: nat, maxLife: real, opacity: real): (o: real)
    requires maxLife > 0.0
    ensures life as real <= maxLife && 0.0 <= opacity <= 0.4 ==> 0.0 <= o <= 0.4
    ensures 0.1 * maxLife <= life as real <= 0.9 * maxLife ==> o == opacity
  {
    var lifeCycle := life as real / maxLife;
    FractionBounds(life as real, maxLife);
    if lifeCycle < 0.1 then (lifeCycle / 0.1) * 0.4
    else if lifeCycle > 0.9 then ((1.0 - lifeCycle) / 0.1) * 0.4
    else opacity
  }

  lemma FractionBounds(a: real, b: real)
    requires 0.0 <= a && 0.0 < b
    ensures 0.0 <= a / b
    ensures a <= b ==> a / b <= 1.0
    ensures a / b < 0.1 ==> a < 0.1 * b
    ensures a / b > 0.9 ==> a > 0.9 * b
  {
    var f := a / b;
    assert a == f * b;
    if f < 0.1 {
      assert f * b < 0.1 * b;
    }
    if f > 0.9 {
      assert f * b > 0.9 * b;
    }
  }

  /**
   * Edge wrapping of one coordinate against a canvas extent: below 0 snaps to
   * the extent and beyond the extent snaps to 0; nothing is clamped or reduced
   * modulo the extent.
   */
  function Wrap(v: real, bound: nat): (r: real)
    ensures 0.0 <= r <= bound as real
    ensures 0.0 <= v <= bound as real ==> r == v
    ensures v < 0.0 ==> r == bound as real
    ensures v > bound as real ==> r == 0.0
  {
    var snapped := if v < 0.0 then bound as real else v;
    if snapped > bound as real then 0.0 else snapped
  }

  /** One frame of motion, ageing, fading and edge wrapping, before the expiry test. */
  function Step(p: Particle, width: nat, height: nat): Particle
    requires p.maxLife > 0.0
  {
    var life := p.life + 1;
    p.(x := Wrap(p.x + p.vx, width),
       y := Wrap(p.y + p.vy, height),
       life := life,
       opacity := Fade(life, p.maxLife, p.opacity))
  }

  /**
   * The particle that takes index i's place after a frame: the stepped
   * particle, or a new one built from `s` when the stepped one has lived out
   * its lifespan.
   */
  function Tick(p: Particle, width: nat, height: nat, s: Sample): (q: Particle)
    requires p.maxLife > 0.0 && ValidSample(s)
    ensures q.life as real < q.maxLife
    ensures 0.0 <= q.x <= width as real && 0.0 <= q.y <= height as real
    ensures q.life == 0 || (q.life == p.life + 1 && q.maxLife == p.maxLife)
  {
    var q := Step(p, width, height);
    if q.life as real >= q.maxLife then CreateParticle(s, width, height) else q
  }

  /** A frame keeps a live particle live, whether it survives or is renewed. */
  lemma TickPreservesLive(p: Particle, width: nat, height: nat, s: Sample)
    requires Live(p, width, height) && ValidSample(s)
    ensures Live(Tick(p, width, height, s), width, height)
  {
    TickKeepsFadeCurve(p, width, height, s);
  }

  /**
   * A frame keeps the opacity on the fade curve. In the steady band the
   * opacity is the one of the last fade-in frame, which lies within 4 /
   * maxLife below the peak.
   */
  lemma {:induction false} TickKeepsFadeCurve(p: Particle, width: nat, height: nat, s: Sample)
    requires Live(p, width, height) && ValidSample(s)
    ensures OnFadeCurve(Tick(p, width, height, s))
  {
    var q := Step(p, width, height);
    var m := p.maxLife;
    if q.life as real < m {
      var f := q.life as real / m;
      var g := p.life as real / m;
      StepFraction(p.life, m);
      FractionBounds(q.life as real, m);
      if 0.1 <= f <= 0.9 {
        assert q.opacity == p.opacity;
        if g < 0.1 {
          if p.life == 0 {
            assert false;
          }
          assert p.opacity == 4.0 * g;
        }
      }
    } else {
      FreshIsLive(CreateParticle(s, width, height), width, height);
    }
  }

  /** One more frame adds 1 / maxLife to the life fraction. */
  lemma StepFraction(life: nat, m: real)
    requires 0.0 < m
    ensures (life + 1) as real / m == life as real / m + 1.0 / m
  {
  }

  lemma ReciprocalAntitone(a: real, b: real)
    requires 0.0 < a <= b
    ensures 1.0 / b <= 1.0 / a
  {
    assert (1.0 / b) * b == 1.0;
    assert (1.0 / a) * a == 1.0;
    assert (1.0 / b) * a <= (1.0 / b) * b;
  }

  /** In the steady band the opacity of a live particle is at least 0.38. */
  lemma SteadyOpacityNearPeak(p: Particle, width: nat, height: nat)
    requires Live(p, width, height)
    requires 0.1 <= p.life as real / p.maxLife <= 0.9
    ensures 0.38 <= p.opacity < 0.4
  {
    ReciprocalAntitone(200.0, p.maxLife);
  }

  /**
   * A particle that survives the frame has moved by its velocity (then been
   * wrapped), aged by exactly one frame, and kept its velocity, size and
   * lifespan.
   */
  lemma TickSurvivor(p: Particle, width: nat, height: nat, s: Sample)
    requires Live(p, width, height) && ValidSample(s)
    requires (p.life + 1) as real < p.maxLife
    ensures var q := Tick(p, width, height, s);
      && q.x == Wrap(p.x + p.vx, width) && q.y == Wrap(p.y + p.vy, height)
      && q.life == p.life + 1
      && q.vx == p.vx && q.vy == p.vy && q.size == p.size && q.maxLife == p.maxLife
  {
  }

  /**
   * A particle whose aged counter reaches its lifespan is replaced in the same
   * frame by a new particle of age 0, which receives no movement or fading.
   */
  lemma TickExpiry(p: Particle, width: nat, height: nat, s: Sample)
    requires Live(p, width, height) && ValidSample(s)
    requires (p.life + 1) as real >= p.maxLife
    ensures Tick(p, width, height, s) == CreateParticle(s, width, height)
    ensures Tick(p, width, height, s).life == 0
    ensures 200.0 <= Tick(p, width, height, s).maxLife < 500.0
  {
  }

  /** A particle at x = width + 0.01 after moving lands on x = 0. */
  lemma WrapPastRightEdge(width: nat)
    ensures Wrap(width as real + 0.01, width) == 0.0
  {
  }
}
