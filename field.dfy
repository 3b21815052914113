/**
 * The particle field: the canvas extent and the particle array that the
 * animation mutates in place. Rebuilding on resize, the per-frame update and
 * the per-frame rendering are methods; rendering returns the circles and
 * lines a frame would paint instead of painting them.
 */
module Field {
  import opened Sizing
  import opened Particles
  import opened Proximity

  /** A filled circle of the particle colour at the given alpha. */
  datatype Circle = Circle(x: real, y: real, radius: real, alpha: real)

  /** Everything one frame paints, circles first, then connecting lines. */
  datatype Frame = Frame(circles: seq<Circle>, lines: seq<Line>)

  function CircleOf(p: Particle): Circle
  {
    Circle(p.x, p.y, p.size, p.opacity)
  }

  /**
   * The pair loop of a frame: for each particle, every later particle is
   * measured against it and a line is emitted when the two are closer than
   * the connection distance of a `width`-pixel viewport.
   */
  method ConnectionLines(ps: seq<Particle>, width: nat, sqrt: real -> real) returns (lines: seq<Line>)
    ensures lines == Connections(ps, TierOf(width), sqrt)
  {
    var isMobile := width < 768;
    var connectionDistance := if isMobile then 80.0 else 120.0;
    var connectionOpacity := if isMobile then 0.05 else 0.1;
    ghost var t := TierOf(width);
    assert connectionDistance == ConnectionDistance(t) && connectionOpacity == ConnectionOpacity(t);

    var n := |ps|;
    lines := [];
    var i := 0;
    while i < n
      invariant 0 <= i <= n
      invariant lines == RowsLines(ps, t, sqrt, i)
    {
      var j := i + 1;
      while j < n
        invariant i + 1 <= j <= n
        invariant lines == RowsLines(ps, t, sqrt, i) + RowLines(ps, t, sqrt, i, j)
      {
        var distance := sqrt(SquaredDistance(ps[i], ps[j]));
        ghost var before := lines;
        if distance < connectionDistance {
          var opacity := (1.0 - distance / connectionDistance) * connectionOpacity;
          lines := lines + [Line(i, j, opacity)];
        }
        assert lines == before + PairLines(ps, t, sqrt, i, j);
        j := j + 1;
      }
      i := i + 1;
    }
  }

  class ParticleField {
    var width: nat
    var height: nat
    var particles: seq<Particle>

    /**
     * The field invariant: no more particles than the tier cap, and every
     * particle live on the current canvas.
     */
    ghost predicate Valid()
      reads this
    {
      && |particles| <= Cap(TierOf(width))
      && forall k :: 0 <= k < |particles| ==> Live(particles[k], width, height)
    }

    /** A field before mounting: an empty particle array and a 0 x 0 canvas. */
    constructor ()
      ensures Valid()
      ensures width == 0 && height == 0 && particles == []
    {
      width, height, particles := 0, 0, [];
    }

    /**
     * Sizes the canvas to `w` x `h` and rebuilds the particle array from
     * scratch, drawing particle k from `samples[k]`. Nothing of the previous
     * particles survives.
     */
    method Reset(w: nat, h: nat, samples: seq<Sample>)
      requires ParticleCount(w, h) <= |samples|
      requires forall k :: 0 <= k < |samples| ==> ValidSample(samples[k])
      modifies this
      ensures Valid()
      ensures width == w && height == h
      ensures |particles| == ParticleCount(w, h)
      ensures forall k :: 0 <= k < |particles| ==> particles[k] == CreateParticle(samples[k], w, h)
      ensures forall k :: 0 <= k < |particles| ==> IsFresh(particles[k], w, h)
    {
      width, height := w, h;
      particles := [];
      var isMobile := w < 768;
      var isTablet := w >= 768 && w < 1024;
      var particleCount: nat;
      if isMobile {
        particleCount := Min((w * h) / 25000, 30);
      } else if isTablet {
        particleCount := Min((w * h) / 20000, 50);
      } else {
        particleCount := Min((w * h) / 15000, 80);
      }
      var i := 0;
      while i < particleCount
        invariant 0 <= i <= particleCount
        invariant particleCount == ParticleCount(w, h)
        invariant width == w && height == h
        invariant |particles| == i
        invariant forall k :: 0 <= k < i ==> particles[k] == CreateParticle(samples[k], w, h)
      {
        particles := particles + [CreateParticle(samples[i], w, h)];
        i := i + 1;
      }
      forall k | 0 <= k < |particles| ensures Live(particles[k], w, h) {
        FreshIsLive(particles[k], w, h);
      }
    }

    /**
     * One frame of the simulation, in place: particle k is moved, aged,
     * faded and wrapped, and replaced by a particle built from `renewals[k]` if
     * it has lived out its lifespan. Only index k is written while particle
     * k is processed.
     */
    method Update(renewals: seq<Sample>)
      requires Valid()
      requires |renewals| == |particles|
      requires forall k :: 0 <= k < |renewals| ==> ValidSample(renewals[k])
      modifies this
      ensures Valid()
      ensures width == old(width) && height == old(height)
      ensures |particles| == |old(particles)|
      ensures forall k :: 0 <= k < |particles| ==> particles[k] == Tick(old(particles)[k], width, height, renewals[k])
    {
      var i := 0;
      while i < |particles|
        invariant 0 <= i <= |particles| == |old(particles)|
        invariant width == old(width) && height == old(height)
        invariant forall k :: 0 <= k < i ==> particles[k] == Tick(old(particles)[k], width, height, renewals[k])
        invariant forall k :: i <= k < |particles| ==> particles[k] == old(particles)[k]
      {
        var p := particles[i];
        assert Live(p, width, height);
        p := p.(x := p.x + p.vx, y := p.y + p.vy);
        p := p.(life := p.life + 1);

        var lifeCycle := p.life as real / p.maxLife;
        if lifeCycle < 0.1 {
          p := p.(opacity := (lifeCycle / 0.1) * 0.4);
        } else if lifeCycle > 0.9 {
          p := p.(opacity := ((1.0 - lifeCycle) / 0.1) * 0.4);
        }

        if p.x < 0.0 { p := p.(x := width as real); }
        if p.x > width as real { p := p.(x := 0.0); }
        if p.y < 0.0 { p := p.(y := height as real); }
        if p.y > height as real { p := p.(y := 0.0); }

        if p.life as real >= p.maxLife {
          p := CreateParticle(renewals[i], width, height);
        }
        particles := particles[i := p];
        i := i + 1;
      }
      forall k | 0 <= k < |particles| ensures Live(particles[k], width, height) {
        TickPreservesLive(old(particles)[k], width, height, renewals[k]);
      }
    }

    /**
     * What one frame paints: a circle per particle at its position, radius
     * and opacity, then the connecting lines of every close pair. `sqrt` is
     * the host's square root.
     */
    method Render(sqrt: real -> real) returns (frame: Frame)
      requires Valid()
      ensures |frame.circles| == |particles|
      ensures forall k :: 0 <= k < |particles| ==> frame.circles[k] == CircleOf(particles[k])
      ensures forall k :: 0 <= k < |frame.circles| ==> 0.0 <= frame.circles[k].alpha <= 0.4
      ensures frame.lines == Connections(particles, TierOf(width), sqrt)
    {
      var ps := particles;
      var n := |ps|;
      var circles: seq<Circle> := [];
      var k := 0;
      while k < n
        invariant 0 <= k <= n
        invariant |circles| == k
        invariant forall m :: 0 <= m < k ==> circles[m] == CircleOf(ps[m])
      {
        circles := circles + [Circle(ps[k].x, ps[k].y, ps[k].size, ps[k].opacity)];
        k := k + 1;
      }

      var lines := ConnectionLines(ps, width, sqrt);
      frame := Frame(circles, lines);
    }

    /** One animation frame: update every particle, then render the result. */
    method Animate(renewals: seq<Sample>, sqrt: real -> real) returns (frame: Frame)
      requires Valid()
      requires |renewals| == |particles|
      requires forall k :: 0 <= k < |renewals| ==> ValidSample(renewals[k])
      modifies this
      ensures Valid()
      ensures width == old(width) && height == old(height)
      ensures |particles| == |old(particles)|
      ensures forall k :: 0 <= k < |particles| ==> particles[k] == Tick(old(particles)[k], width, height, renewals[k])
      ensures frame.circles == seq(|particles|, k requires 0 <= k < |particles| reads this => CircleOf(particles[k]))
      ensures frame.lines == Connections(particles, TierOf(width), sqrt)
    {
      Update(renewals);
      frame := Render(sqrt);
    }
  }
}
