# Particle background — a Dafny model

This project models the animated particle background of a personal portfolio
site: a field of faint dots that drift, fade in and out over a bounded
lifespan, wrap around the canvas edges, and are joined by lines when two of
them come close. The model covers the whole engine in
`components/particle-background.tsx`:

- **Sizing** (`sizing.dfy`, module `Sizing`): the viewport width picks a device
  tier (mobile, tablet, desktop), and the tier fixes the area per particle and
  the particle cap. The particle count is the canvas area divided by the area
  per particle, rounded down, then capped.
- **Particles** (`particles.dfy`, module `Particles`): the particle record; the
  creation of a particle from seven uniform draws; the per-frame step (move by
  the velocity, age by one frame, recompute the opacity from the life
  fraction, snap to the opposite edge); and the renewal of a particle whose
  lifespan is used up.
- **Connections** (`proximity.dfy`, module `Proximity`): the upper-triangular
  pair scan and the rule that draws a line between two particles closer than
  the tier's connection distance, with an alpha that falls linearly with the
  distance.
- **The field** (`field.dfy`, module `Field`): class `ParticleField` holds the
  canvas extent and the particle array that the animation mutates in place.
  `Reset` is the resize handler (size the canvas, rebuild the array from
  scratch). `Update` is the in-place per-frame pass. `Render` returns the
  circles and lines one frame paints. `Animate` is one frame of the loop: an
  update, then a render.

Numbers are exact: positions, velocities, sizes, opacities and lifespans are
`real`, the frame counter `life` is a `nat`, and the canvas width and height
are `nat`. Randomness comes from outside. Each new particle is built from a
`Sample`, the seven values in [0, 1) that creation draws. `Reset` takes one
sample per particle. `Update` takes one sample per index, and it uses that
sample only if the particle at that index expires. The square root used for
distances is a parameter `sqrt`. The lemmas that need it to be exact require
that of it at the point where it is used.

The field invariant `ParticleField.Valid` says two things. There are never
more particles than the tier cap. Every particle is `Live`: `life < maxLife`,
`200 <= maxLife < 500`, `0 <= opacity <= 0.4`, the opacity is on the fade
curve, the position lies in `[0, width] x [0, height]`, and the velocity and
size are in their sampled ranges. `Reset` establishes it and `Update` preserves it.

The position bound is closed, `[0, width] x [0, height]`: a coordinate below
0 snaps to exactly `width` (or `height`). Between frames `life < maxLife`
holds strictly, because a particle whose counter reaches its lifespan is
renewed in the same pass.

The opacity in the middle of the lifespan (life fraction between 0.1 and 0.9)
is not recomputed. It keeps the value of the last fade-in frame, which lies
within `4 / maxLife` below the peak of 0.4, so at least 0.38. `Live` includes
this as `OnFadeCurve`: once a particle has moved, its opacity is exactly
`4 f` while fading in and exactly `4 (1 - f)` while fading out, where `f` is
the life fraction. In the steady band it lies in `[0.4 - 4 / maxLife, 0.4)`.

## Model

| member | source | states |
|---|---|---|
| `Sizing.TierOf` | components/particle-background.tsx:49-50 | The tiers partition the widths: mobile exactly below 768, tablet exactly from 768 to below 1024, desktop exactly from 1024 up. |
| `Sizing.ParticleCount` | components/particle-background.tsx:52-62 | The count is at most the tier cap (30, 50, 80). The canvas area pays for every particle at 25000, 20000 or 15000 square pixels each. The count is either at the cap or one more particle would not fit. |
| `Sizing.ParticleCountIsUnique` | components/particle-background.tsx:52-62 | Those three facts determine the count: any count that meets them equals `ParticleCount`, so it is `min(floor(area / D), C)`. |
| `Sizing.ParticleCountAtMost80` | components/particle-background.tsx:52-62 | No viewport gets more than 80 particles. |
| `Sizing.ParticleCountExamples` | components/particle-background.tsx:52-62 | A 1024 x 768 viewport gets 52 particles and a 375 x 667 viewport gets 10. |
| `Particles.CreateParticle` | components/particle-background.tsx:33-45 | A new particle has life 0, maxLife in [200, 500), a position in [0, width) x [0, height) (0 on an empty extent), each velocity component in [-0.25, 0.25), size in [0.5, 2.5) and opacity in [0.1, 0.4). |
| `Particles.FreshIsSampled` | components/particle-background.tsx:33-45 | The converse: every particle in those ranges is what creation yields for some seven draws in [0, 1). |
| `Particles.FreshIsLive` | components/particle-background.tsx:33-45 | A new particle satisfies the field invariant `Live`. |
| `Particles.Fade` | components/particle-background.tsx:75-81 | Opacity stays in [0, 0.4] whenever the life fraction is at most 1 and the previous opacity was in range. For a fraction in [0.1, 0.9] the previous opacity is kept unchanged. |
| `Particles.Wrap` | components/particle-background.tsx:83-87 | A wrapped coordinate lies in the closed range [0, bound]. Inside the range it is kept. Below 0 it becomes exactly the bound. Above the bound it becomes exactly 0. It is neither clamped nor reduced modulo the bound. |
| `Particles.WrapPastRightEdge` | components/particle-background.tsx:85 | A particle at width + 0.01 after moving lands on x = 0. |
| `Particles.Tick` | components/particle-background.tsx:70-92 | The particle at an index after one frame has `life < maxLife` and lies on the canvas. Either it is a new particle of age 0, or it is the old one aged by exactly one frame with its lifespan kept. `TickPreservesLive`, `TickKeepsFadeCurve`, `TickSurvivor` and `TickExpiry` state the rest. |
| `Particles.TickPreservesLive` | components/particle-background.tsx:69-93 | One frame keeps a live particle live, whether it survives or is renewed. So `life < maxLife`, opacity in [0, 0.4] and the position bounds all hold after every pass. |
| `Particles.TickKeepsFadeCurve` | components/particle-background.tsx:73-81 | One frame keeps a live particle's opacity on the fade curve. It is exactly 4 f while fading in and exactly 4 (1 - f) while fading out. In the steady band it is held from the last fade-in frame, within 4 / maxLife below 0.4. A renewed particle of age 0 keeps its sampled opacity. |
| `Particles.SteadyOpacityNearPeak` | components/particle-background.tsx:76-81 | A live particle in the steady band has opacity in [0.38, 0.4). |
| `Particles.TickSurvivor` | components/particle-background.tsx:70-87 | A particle that survives the frame is at its position plus its velocity, wrapped. Its life is exactly one more. Its velocity, size and lifespan are unchanged. |
| `Particles.TickExpiry` | components/particle-background.tsx:89-92 | A particle whose aged counter reaches its lifespan is replaced in the same pass by the particle built from its sample. The replacement has life 0 and a lifespan in [200, 500). |
| `Proximity.LineAlpha` | components/particle-background.tsx:118 | For a distance in [0, connection distance) the alpha lies in (0, connection opacity]. It is strictly below the connection opacity for any positive distance, and equal to it at distance 0. |
| `Proximity.SquaredDistance` | components/particle-background.tsx:113-115 | The squared distance that the host's square root is applied to is never negative. |
| `Proximity.Connections` | components/particle-background.tsx:111-127 | Every line drawn in a frame joins particles i < j < n whose distance is below the tier's connection distance. `ConnectionsMembers`, `ConnectionsOrdered` and `ConnectedIffClose` state the rest. |
| `Proximity.ConnectionsMembers` | components/particle-background.tsx:111-118 | A line (i, j, alpha) is drawn exactly when i < j < n, the pair is closer than the connection distance, and alpha is the alpha for that distance. So there are no self-pairs and no reversed pairs. |
| `Proximity.ConnectionsOrdered` | components/particle-background.tsx:111-112 | Lines come out in strictly increasing row-major pair order, so no unordered pair {i, j} is drawn twice. |
| `Proximity.ConnectedIffClose` | components/particle-background.tsx:113-117 | With an exact square root, pair (i, j) is connected exactly when its squared distance is below the square of the connection distance (80 on mobile, 120 otherwise). |
| `Proximity.DesktopNearPairJoined` | components/particle-background.tsx:107-118 | On a viewport at least 1024 wide, two particles 119 pixels apart are joined by a line whose alpha is strictly between 0 and 0.1. |
| `Proximity.FarPairNotJoined` | components/particle-background.tsx:107-117 | Two particles more than 120 pixels apart are never joined, whatever the alpha and the tier. |
| `Field.ConnectionLines` | components/particle-background.tsx:106-127 | The nested pair loop emits exactly `Connections` for the viewport's tier, whose meaning the three lemmas above state. |
| `Field.ParticleField.constructor` | components/particle-background.tsx:18 | A field starts with no particles and satisfies the invariant. |
| `Field.ParticleField.Reset` | components/particle-background.tsx:47-67 | After a resize the canvas has the new extent. The array holds exactly `ParticleCount(w, h)` particles, and each is the particle created from its own sample, so nothing from before survives. Each new particle is in the creation ranges, and the field invariant holds. |
| `Field.ParticleField.Update` | components/particle-background.tsx:69-94 | The array length and the canvas extent are unchanged. Index k holds the old particle k after one frame (`Tick`), or its replacement. The field invariant is preserved. The loop writes only index k while it processes particle k. |
| `Field.ParticleField.Render` | components/particle-background.tsx:96-128 | One circle per particle at its position with its radius and opacity, each alpha in [0, 0.4]. The lines are exactly `Connections` for the viewport's tier. |
| `Field.ParticleField.Animate` | components/particle-background.tsx:130-134 | One frame is an update followed by a render of the updated field, and it keeps the field invariant. |

The thresholds `Proximity.ConnectionDistance` (80 on mobile, 120 otherwise)
and `Proximity.ConnectionOpacity` (0.05 on mobile, 0.1 otherwise) model lines
107-108. `Proximity.Distance` is the host's square root of the squared
distance (line 115). They are constants and one-line helpers, and the members
above state their properties.

## Left out

- Canvas painting (`clearRect`, `arc`, `fill`, `moveTo`/`lineTo`, `stroke`, colour strings, the 0.5 line width) is foreign graphics output. `Render` returns the circles and lines with their alphas instead.
- `Math.random` is not modelled. Each new particle is built from a caller-supplied `Sample` of seven values in [0, 1). `Reset` requires at least as many samples as particles, and `Update` requires one sample per index. These requirements stand in for an endless random source; they are not demands the code makes.
- `Math.sqrt` is a parameter `sqrt`. The lemmas that relate connections to squared distances assume it is exact at the pair in question. Floating-point rounding of every quantity is not modelled, because the model computes with exact reals.
- The `requestAnimationFrame` loop, `cancelAnimationFrame`, the resize listener and the unmount teardown (lines 130-152) are host scheduling. `Animate` models one frame of the loop, and `Reset` models one call of the resize handler.
- The reads of `window.innerWidth` and `window.innerHeight` (lines 28-31, 49, 106) become the width passed in, which after `resizeCanvas` equals the canvas width.
- The early returns when the canvas or its 2D context is missing (lines 22-26) are host failures with no state to model.
- `Particles.Fade`: the contract bounds the opacity and states the held middle band. It does not repeat the fade-in and fade-out formulas, which are the function's body.
- Update in place of the particle objects is modelled on values. The array is a `seq<Particle>` field that `Update` rewrites index by index. No two indices share a particle object in the code, so no aliasing is lost.
- app/page.tsx and app/layout.tsx are page markup, DOM wiring and metadata, and are not part of this model.
