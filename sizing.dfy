/**
 * Responsive sizing of the particle background: the viewport is classified
 * into a device tier by its width, and the tier fixes how many pixels of
 * viewport area buy one particle and how many particles there may be at most.
 */
module Sizing {

  datatype Tier = Mobile | Tablet | Desktop

  /** The device tier of a viewport `width` pixels wide. */
  function TierOf(width: nat): (t: Tier)
    ensures t == Mobile <==> width < 768
    ensures t == Tablet <==> 768 <= width < 1024
    ensures t == Desktop <==> 1024 <= width
  {
    var isMobile := width < 768;
    var isTablet := width >= 768 && width < 1024;
    if isMobile then Mobile else if isTablet then Tablet else Desktop
  }

  /** Viewport area (in square pixels) per particle. */
  function AreaPerParticle(t: Tier): nat
  {
    match t
    case Mobile => 25000
    case Tablet => 20000
    case Desktop => 15000
  }

  /** The largest particle count a tier allows. */
  function Cap(t: Tier): nat
  {
    match t
    case Mobile => 30
    case Tablet => 50
    case Desktop => 80
  }

  function Min(a: nat, b: nat): nat
  {
    if a < b then a else b
  }

  /**
   * The number of particles for a `width` x `height` canvas: the area divided
   * by the tier's area per particle, rounded down, and then capped.
   */
  function ParticleCount(width: nat, height: nat): (n: nat)
    ensures n <= Cap(TierOf(width))
    ensures n * AreaPerParticle(TierOf(width)) <= width * height
    ensures n == Cap(TierOf(width)) || width * height < (n + 1) * AreaPerParticle(TierOf(width))
  {
    var t := TierOf(width);
    Min((width * height) / AreaPerParticle(t), Cap(t))
  }

  /**
   * The three facts about ParticleCount pin it down: no other count is both
   * within the cap, affordable by the area, and either at the cap or maximal.
   */
  lemma ParticleCountIsUnique(width: nat, height: nat, n: nat)
    requires n <= Cap(TierOf(width))
    requires n * AreaPerParticle(TierOf(width)) <= width * height
    requires n == Cap(TierOf(width)) || width * height < (n + 1) * AreaPerParticle(TierOf(width))
    ensures n == ParticleCount(width, height)
  {
  }

  /** No viewport, however large, gets more than 80 particles. */
  lemma ParticleCountAtMost80(width: nat, height: nat)
    ensures ParticleCount(width, height) <= 80
  {
  }

  /** A 1024 x 768 desktop gets 52 particles and a 375 x 667 phone gets 10. */
  lemma ParticleCountExamples()
    ensures ParticleCount(1024, 768) == 52
    ensures ParticleCount(375, 667) == 10
  {
  }
}
