/**
 * The connection rule of the particle background: every unordered pair of
 * distinct particles is looked at once, in upper-triangular order, and a line
 * is drawn between the two when they are closer than the tier's connection
 * distance, fainter the farther apart they are.
 *
 * The distance is the host's square root of the squared distance; the root is
 * a parameter `sqrt`, and the lemmas that need it to be exact say so.
 */
module Proximity {
  import opened Sizing
  import opened Particles

  /** A line from particle i to particle j, stroked with the given alpha. */
  datatype Line = Line(i: nat, j: nat, alpha: real)

  /** Pairs closer than this many pixels are connected. */
  function ConnectionDistance(t: Tier): real
  {
    if t == Mobile then 80.0 else 120.0
  }

  /** The alpha of a line between two coincident particles. */
  function ConnectionOpacity(t: Tier): real
  {
    if t == Mobile then 0.05 else 0.1
  }

  function SquaredDistance(p: Particle, q: Particle): (d2: real)
    ensures 0.0 <= d2
  {
    var dx := p.x - q.x;
    var dy := p.y - q.y;
    dx * dx + dy * dy
  }

  /** The distance between particles i and j as the host computes it. */
  function Distance(ps: seq<Particle>, sqrt: real -> real, i: nat, j: nat): real
    requires i < |ps| && j < |ps|
  {
    sqrt(SquaredDistance(ps[i], ps[j]))
  }

  /**
   * The alpha of a line between particles `d` pixels apart: it falls
   * linearly from the tier's connection opacity at distance 0 and stays
   * strictly positive for every distance below the connection distance.
   */
  function LineAlpha(d: real, t: Tier): (a: real)
    ensures 0.0 <= d < ConnectionDistance(t) ==> 0.0 < a <= ConnectionOpacity(t)
    ensures 0.0 < d ==> a < ConnectionOpacity(t)
    ensures d == 0.0 ==> a == ConnectionOpacity(t)
  {
    (1.0 - d / ConnectionDistance(t)) * ConnectionOpacity(t)
  }

  /** The lines (zero or one) the pair (i, j) contributes. */
  function PairLines(ps: seq<Particle>, t: Tier, sqrt: real -> real, i: nat, j: nat): seq<Line>
    requires i < |ps| && j < |ps|
  {
    var d := Distance(ps, sqrt, i, j);
    if d < ConnectionDistance(t) then [Line(i, j, LineAlpha(d, t))] else []
  }

  /** The lines of the pairs (i, k) with i < k < j, in increasing k. */
  function RowLines(ps: seq<Particle>, t: Tier, sqrt: real -> real, i: nat, j: nat): seq<Line>
    requires i < |ps| && j <= |ps|
    decreases j
  {
    if j <= i + 1 then [] else RowLines(ps, t, sqrt, i, j - 1) + PairLines(ps, t, sqrt, i, j - 1)
  }

  /** The lines of all pairs whose first index is below i, row by row. */
  function RowsLines(ps: seq<Particle>, t: Tier, sqrt: real -> real, i: nat): seq<Line>
    requires i <= |ps|
  {
    if i == 0 then [] else RowsLines(ps, t, sqrt, i - 1) + RowLines(ps, t, sqrt, i - 1, |ps|)
  }

  /** Every line one frame draws between the particles `ps` on a tier-`t` viewport. */
  function Connections(ps: seq<Particle>, t: Tier, sqrt: real -> real): (ls: seq<Line>)
    ensures forall l :: l in ls ==> l.i < l.j < |ps| && Distance(ps, sqrt, l.i, l.j) < ConnectionDistance(t)
  {
    RowsLinesMembers(ps, t, sqrt, |ps|);
    RowsLines(ps, t, sqrt, |ps|)
  }

  /**
   * The defining property of a drawn line: it joins two distinct particles,
   * first index below second, that are closer than the connection distance,
   * and its alpha is the one for their distance.
   */
  predicate Connected(ps: seq<Particle>, t: Tier, sqrt: real -> real, l: Line)
  {
    && l.i < l.j < |ps|
    && Distance(ps, sqrt, l.i, l.j) < ConnectionDistance(t)
    && l.alpha == LineAlpha(Distance(ps, sqrt, l.i, l.j), t)
  }

  /** Line `a` comes before line `b` in row-major pair order. */
  predicate Precedes(a: Line, b: Line)
  {
    a.i < b.i || (a.i == b.i && a.j < b.j)
  }

  predicate StrictlyOrdered(ls: seq<Line>)
  {
    forall a, b :: 0 <= a < b < |ls| ==> Precedes(ls[a], ls[b])
  }

  lemma {:induction false} RowLinesMembers(ps: seq<Particle>, t: Tier, sqrt: real -> real, i: nat, j: nat)
    requires i < |ps| && j <= |ps|
    ensures forall l :: l in RowLines(ps, t, sqrt, i, j) <==> Connected(ps, t, sqrt, l) && l.i == i && l.j < j
    decreases j
  {
    if j > i + 1 {
      RowLinesMembers(ps, t, sqrt, i, j - 1);
    }
  }

  lemma {:induction false} RowsLinesMembers(ps: seq<Particle>, t: Tier, sqrt: real -> real, i: nat)
    requires i <= |ps|
    ensures forall l :: l in RowsLines(ps, t, sqrt, i) <==> Connected(ps, t, sqrt, l) && l.i < i
  {
    if i > 0 {
      RowsLinesMembers(ps, t, sqrt, i - 1);
      RowLinesMembers(ps, t, sqrt, i - 1, |ps|);
    }
  }

  /**
   * A line is drawn exactly for the pairs i < j closer than the connection
   * distance, and with the alpha for their distance; no particle is paired
   * with itself and no pair is drawn in both orientations.
   */
  lemma ConnectionsMembers(ps: seq<Particle>, t: Tier, sqrt: real -> real)
    ensures forall l :: l in Connections(ps, t, sqrt) <==> Connected(ps, t, sqrt, l)
  {
    RowsLinesMembers(ps, t, sqrt, |ps|);
  }

  lemma OrderedAppend(xs: seq<Line>, ys: seq<Line>)
    requires StrictlyOrdered(xs) && StrictlyOrdered(ys)
    requires forall a, b :: 0 <= a < |xs| && 0 <= b < |ys| ==> Precedes(xs[a], ys[b])
    ensures StrictlyOrdered(xs + ys)
  {
  }

  lemma {:induction false} RowLinesIndices(ps: seq<Particle>, t: Tier, sqrt: real -> real, i: nat, j: nat)
    requires i < |ps| && j <= |ps|
    ensures forall l :: l in RowLines(ps, t, sqrt, i, j) ==> l.i == i && l.j < j
    decreases j
  {
    if j > i + 1 {
      RowLinesIndices(ps, t, sqrt, i, j - 1);
    }
  }

  lemma {:induction false} RowsLinesBelow(ps: seq<Particle>, t: Tier, sqrt: real -> real, i: nat)
    requires i <= |ps|
    ensures forall l :: l in RowsLines(ps, t, sqrt, i) ==> l.i < i
  {
    if i > 0 {
      RowsLinesBelow(ps, t, sqrt, i - 1);
      RowLinesIndices(ps, t, sqrt, i - 1, |ps|);
    }
  }

  lemma {:induction false} RowLinesOrdered(ps: seq<Particle>, t: Tier, sqrt: real -> real, i: nat, j: nat)
    requires i < |ps| && j <= |ps|
    ensures StrictlyOrdered(RowLines(ps, t, sqrt, i, j))
    decreases j
  {
    if j > i + 1 {
      RowLinesOrdered(ps, t, sqrt, i, j - 1);
      RowLinesIndices(ps, t, sqrt, i, j - 1);
      var xs := RowLines(ps, t, sqrt, i, j - 1);
      var ys := PairLines(ps, t, sqrt, i, j - 1);
      forall a, b | 0 <= a < |xs| && 0 <= b < |ys| ensures Precedes(xs[a], ys[b]) {
        assert xs[a] in xs;
      }
      OrderedAppend(xs, ys);
    }
  }

  lemma {:induction false} RowsLinesOrdered(ps: seq<Particle>, t: Tier, sqrt: real -> real, i: nat)
    requires i <= |ps|
    ensures StrictlyOrdered(RowsLines(ps, t, sqrt, i))
  {
    if i > 0 {
      RowsLinesOrdered(ps, t, sqrt, i - 1);
      RowsLinesBelow(ps, t, sqrt, i - 1);
      RowLinesOrdered(ps, t, sqrt, i - 1, |ps|);
      RowLinesIndices(ps, t, sqrt, i - 1, |ps|);
      var xs := RowsLines(ps, t, sqrt, i - 1);
      var ys := RowLines(ps, t, sqrt, i - 1, |ps|);
      forall a | 0 <= a < |xs| ensures xs[a].i < i - 1 {
        assert xs[a] in xs;
      }
      forall b | 0 <= b < |ys| ensures ys[b].i == i - 1 {
        assert ys[b] in ys;
      }
      assert RowsLines(ps, t, sqrt, i) == xs + ys;
      OrderedAppend(xs, ys);
    }
  }

  /**
   * The lines come out in row-major pair order, so each unordered pair of
   * particles is visited, and drawn, at most once.
   */
  lemma ConnectionsOrdered(ps: seq<Particle>, t: Tier, sqrt: real -> real)
    ensures StrictlyOrdered(Connections(ps, t, sqrt))
    ensures forall a, b :: 0 <= a < b < |Connections(ps, t, sqrt)| ==>
      var la, lb := Connections(ps, t, sqrt)[a], Connections(ps, t, sqrt)[b];
      {la.i, la.j} != {lb.i, lb.j}
  {
    RowsLinesOrdered(ps, t, sqrt, |ps|);
    ConnectionsMembers(ps, t, sqrt);
    var ls := Connections(ps, t, sqrt);
    forall a, b | 0 <= a < b < |ls| ensures {ls[a].i, ls[a].j} != {ls[b].i, ls[b].j} {
      assert ls[a] in ls && ls[b] in ls;
      assert Precedes(ls[a], ls[b]);
    }
  }

  /**
   * With an exact square root, comparing the distance with the connection
   * distance is comparing the squared distance with its square: pair (i, j)
   * is connected exactly when their squared distance is below it.
   */
  lemma {:induction false} ConnectedIffClose(ps: seq<Particle>, t: Tier, sqrt: real -> real, i: nat, j: nat)
    requires i < j < |ps|
    requires var s := SquaredDistance(ps[i], ps[j]); 0.0 <= sqrt(s) && sqrt(s) * sqrt(s) == s
    ensures Line(i, j, LineAlpha(Distance(ps, sqrt, i, j), t)) in Connections(ps, t, sqrt)
      <==> SquaredDistance(ps[i], ps[j]) < ConnectionDistance(t) * ConnectionDistance(t)
  {
    ConnectionsMembers(ps, t, sqrt);
    var d := Distance(ps, sqrt, i, j);
    var c := ConnectionDistance(t);
    var sq := SquaredDistance(ps[i], ps[j]);
    var l := Line(i, j, LineAlpha(d, t));
    BelowIffSquareBelow(d, sq, c);
    assert Connected(ps, t, sqrt, l) <==> d < c;
    assert l in Connections(ps, t, sqrt) <==> Connected(ps, t, sqrt, l);
  }

  lemma BelowIffSquareBelow(d: real, sq: real, c: real)
    requires 0.0 <= d && d * d == sq && 0.0 < c
    ensures d < c <==> sq < c * c
  {
    var dc := d * c;
    if d < c {
      assert d * d <= dc;
      assert dc < c * c;
      assert sq < c * c;
    } else {
      assert d * d >= dc;
      assert dc >= c * c;
      assert sq >= c * c;
    }
  }

  /**
   * On a desktop-wide viewport, two particles 119 pixels apart are joined,
   * with an alpha strictly between 0 and the full connection opacity of 0.1.
   */
  lemma DesktopNearPairJoined(ps: seq<Particle>, width: nat, sqrt: real -> real, i: nat, j: nat)
    requires i < j < |ps| && 1024 <= width
    requires sqrt(SquaredDistance(ps[i], ps[j])) == 119.0
    ensures Line(i, j, LineAlpha(119.0, Desktop)) in Connections(ps, TierOf(width), sqrt)
    ensures 0.0 < LineAlpha(119.0, Desktop) < 0.1
  {
    ConnectionsMembers(ps, TierOf(width), sqrt);
  }

  /** Two particles farther apart than 120 pixels are never joined, on any tier. */
  lemma FarPairNotJoined(ps: seq<Particle>, width: nat, sqrt: real -> real, i: nat, j: nat)
    requires i < j < |ps|
    requires sqrt(SquaredDistance(ps[i], ps[j])) > 120.0
    ensures forall a :: Line(i, j, a) !in Connections(ps, TierOf(width), sqrt)
  {
    ConnectionsMembers(ps, TierOf(width), sqrt);
  }
}
