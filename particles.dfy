/** The particle field behind the page (src/pages/Portfolio.jsx,
    `initParticles` and `animate`): a pool of one hundred drifting points
    that wrap around the canvas edges, and a line between every two
    particles that are closer than 100 pixels. Random draws are passed in,
    JavaScript numbers are reals, and drawing calls are left out: a frame
    reports the lines it would stroke. */
module Particles {
  import opened Options
  import Fade

  /** Size of the pool (`particleCount`). */
  const ParticleCount: nat := 100

  /** `Math.random()` calls per particle: x, y, vx, vy, size, opacity, hue. */
  const DrawsPerParticle: nat := 7

  /** Squared form of the 100-pixel link distance. */
  const LinkDistanceSquared: real := Fade.LinkDistance * Fade.LinkDistance

  datatype Particle = Particle(x: real, y: real, vx: real, vy: real,
                               size: real, opacity: real, hue: real)

  /** The canvas's pixel size; a canvas `width` / `height` is a non-negative
      integer. */
  datatype Surface = Surface(width: nat, height: nat)

  /** A value `Math.random()` can return. */
  predicate IsDraw(r: real) { 0.0 <= r < 1.0 }

  predicate AreDraws(rs: seq<real>) { forall i :: 0 <= i < |rs| ==> IsDraw(rs[i]) }

  /** The ranges of everything but the position that `initParticles` draws;
      a frame never changes these fields. */
  predicate AttributesInRange(p: Particle) {
    && -0.25 <= p.vx < 0.25
    && -0.25 <= p.vy < 0.25
    && 0.5 <= p.size < 2.5
    && 0.2 <= p.opacity < 0.7
    && 250.0 <= p.hue < 310.0
  }

  /** The position is inside the closed box `[0, width] x [0, height]`. */
  predicate OnSurface(p: Particle, s: Surface) {
    0.0 <= p.x <= s.width as real && 0.0 <= p.y <= s.height as real
  }

  /** A particle as `initParticles` leaves it: attributes in range and the
      position in the half-open box `[0, width) x [0, height)` (collapsed
      to 0 along an axis of size 0). */
  predicate Seeded(p: Particle, s: Surface) {
    && AttributesInRange(p)
    && OnSurface(p, s)
    && (s.width > 0 ==> p.x < s.width as real)
    && (s.height > 0 ==> p.y < s.height as real)
  }

  /** The particle object pushed by `initParticles` from seven draws. */
  function NewParticle(s: Surface, r: seq<real>): (p: Particle)
    requires |r| == DrawsPerParticle && AreDraws(r)
    ensures Seeded(p, s)
  {
    var w, h := s.width as real, s.height as real;
    ScaleBelow(r[0], w);
    ScaleBelow(r[1], h);
    Particle(r[0] * w, r[1] * h,
             (r[2] - 0.5) * 0.5, (r[3] - 0.5) * 0.5,
             r[4] * 2.0 + 0.5, r[5] * 0.5 + 0.2, 250.0 + r[6] * 60.0)
  }

  /** A draw times a non-negative extent stays below the extent. */
  lemma ScaleBelow(r: real, e: real)
    requires IsDraw(r) && e >= 0.0
    ensures 0.0 <= r * e <= e
    ensures e > 0.0 ==> r * e < e
  {
    assert e - r * e == (1.0 - r) * e;
  }

  /** The draws that particle `k` of the pool consumes. */
  function DrawsFor(draws: seq<real>, k: nat): (r: seq<real>)
    requires |draws| == ParticleCount * DrawsPerParticle && AreDraws(draws)
    requires k < ParticleCount
    ensures |r| == DrawsPerParticle && AreDraws(r)
  {
    draws[k * DrawsPerParticle..k * DrawsPerParticle + DrawsPerParticle]
  }

  /** The pool `initParticles` builds: exactly `particleCount` particles,
      every one seeded inside the surface. */
  function InitialPool(s: Surface, draws: seq<real>): (pool: seq<Particle>)
    requires |draws| == ParticleCount * DrawsPerParticle && AreDraws(draws)
    ensures |pool| == ParticleCount
    ensures forall k :: 0 <= k < |pool| ==> Seeded(pool[k], s)
  {
    seq(ParticleCount, k requires 0 <= k < ParticleCount => NewParticle(s, DrawsFor(draws, k)))
  }

  /** One coordinate after the two wrap tests of `animate`: below 0 it is
      put on the far edge, then beyond the far edge it is put on 0. */
  function WrapCoord(v: real, bound: real): (r: real)
    requires bound >= 0.0
    ensures 0.0 <= r <= bound
    ensures v < 0.0 ==> r == bound
    ensures v > bound ==> r == 0.0
    ensures 0.0 <= v <= bound ==> r == v
  {
    var afterLow := if v < 0.0 then bound else v;
    if afterLow > bound then 0.0 else afterLow
  }

  /** The two wrap tests of `animate` as the page runs them, one after
      the other, on a coordinate that has just been moved. */
  method Wrap(v: real, bound: real) returns (r: real)
    requires bound >= 0.0
    ensures r == WrapCoord(v, bound)
  {
    r := v;
    if r < 0.0 { r := bound; }
    if r > bound { r := 0.0; }
  }

  /** The inner `for j` loop of `animate` for the particle at `index`,
      just moved: the lines to every later particle of the pool that is
      closer than 100 pixels, in the order they are stroked. */
  method Connect(particle: Particle, index: nat, pool: seq<Particle>) returns (row: seq<Link>)
    requires index < |pool|
    ensures row == RowLinks(particle, index, pool, |pool|)
  {
    row := [];
    for j := index + 1 to |pool|
      invariant row == RowLinks(particle, index, pool, j)
    {
      var other := pool[j];
      var distanceSquared := Dist2(particle, other);
      if distanceSquared < LinkDistanceSquared {
        row := row + [Link(index, j, distanceSquared)];
      }
    }
  }

  /** A particle one frame later: moved by its velocity, then wrapped.
      Whatever its prior position or velocity, it ends up on the surface,
      and only its position changes. */
  function StepParticle(p: Particle, s: Surface): (q: Particle)
    ensures OnSurface(q, s)
    ensures q.vx == p.vx && q.vy == p.vy && q.size == p.size
    ensures q.opacity == p.opacity && q.hue == p.hue
    ensures 0.0 <= p.x + p.vx <= s.width as real ==> q.x == p.x + p.vx
    ensures 0.0 <= p.y + p.vy <= s.height as real ==> q.y == p.y + p.vy
  {
    p.(x := WrapCoord(p.x + p.vx, s.width as real),
       y := WrapCoord(p.y + p.vy, s.height as real))
  }

  /** A frame keeps a particle's initial attribute ranges and puts it on
      the surface. */
  lemma StepKeepsRanges(p: Particle, s: Surface)
    requires AttributesInRange(p)
    ensures AttributesInRange(StepParticle(p, s)) && OnSurface(StepParticle(p, s), s)
  {
  }

  /** The exact wrap rule along x, with `x' = x + vx`: `width` if `x' < 0`,
      `0` if `x' > width`, otherwise `x'`; likewise along y. */
  lemma StepWrapRule(p: Particle, s: Surface)
    ensures var x', w := p.x + p.vx, s.width as real;
            StepParticle(p, s).x == if x' < 0.0 then w else if x' > w then 0.0 else x'
    ensures var y', h := p.y + p.vy, s.height as real;
            StepParticle(p, s).y == if y' < 0.0 then h else if y' > h then 0.0 else y'
  {
  }

  /** The whole pool after one frame of `animate`. */
  function StepAll(ps: seq<Particle>, s: Surface): (qs: seq<Particle>)
    ensures |qs| == |ps|
    ensures forall k :: 0 <= k < |qs| ==> qs[k] == StepParticle(ps[k], s)
  {
    seq(|ps|, k requires 0 <= k < |ps| => StepParticle(ps[k], s))
  }

  /** `dx * dx + dy * dy` for the two particles. */
  function Dist2(a: Particle, b: Particle): real {
    (a.x - b.x) * (a.x - b.x) + (a.y - b.y) * (a.y - b.y)
  }

  /** A constellation line that `animate` strokes between particles `i`
      and `j`, at squared distance `dist2`. */
  datatype Link = Link(i: nat, j: nat, dist2: real)

  /** The line from particle `a`, standing at index `i`, to particle `b`
      at index `j`, if they are closer than 100 pixels. */
  function LinkIfClose(a: Particle, i: nat, b: Particle, j: nat): seq<Link> {
    var d := Dist2(a, b);
    if d < LinkDistanceSquared then [Link(i, j, d)] else []
  }

  /** The lines the inner `for j` loop draws from `a`, standing at index
      `i`, to the pool entries `qs[j]` with `i < j < m`. */
  function RowLinks(a: Particle, i: nat, qs: seq<Particle>, m: nat): seq<Link>
    requires m <= |qs|
    decreases m
  {
    if m <= i + 1 then [] else RowLinks(a, i, qs, m - 1) + LinkIfClose(a, i, qs[m - 1], m - 1)
  }

  /** Lines drawn while handling particles `0 .. k-1` of the pool `ps` as
      it was when the frame began. `animate` moves particle `i` before it
      scans the particles `j > i`, which it has not moved yet: `i` is taken
      after its step, `j` before its own. */
  function FrameLinks(ps: seq<Particle>, s: Surface, k: nat): seq<Link>
    requires k <= |ps|
    decreases k
  {
    if k == 0 then []
    else FrameLinks(ps, s, k - 1) + RowLinks(StepParticle(ps[k - 1], s), k - 1, ps, |ps|)
  }

  /** The condition for a line: an unordered pair `i < j`, compared as
      described at LinkIfClose, closer than 100 pixels. */
  predicate Drawn(ps: seq<Particle>, s: Surface, l: Link) {
    && l.i < l.j < |ps|
    && l.dist2 == Dist2(StepParticle(ps[l.i], s), ps[l.j])
    && l.dist2 < LinkDistanceSquared
  }

  /** Lexicographic order on the pair of a line. */
  predicate PairBefore(a: Link, b: Link) {
    a.i < b.i || (a.i == b.i && a.j < b.j)
  }

  predicate StrictlyOrdered(ls: seq<Link>) {
    forall a, b :: 0 <= a < b < |ls| ==> PairBefore(ls[a], ls[b])
  }

  lemma {:induction false} RowLinksMembers(a: Particle, i: nat, qs: seq<Particle>, m: nat)
    requires m <= |qs|
    ensures forall l :: l in RowLinks(a, i, qs, m) <==>
              l.i == i && i < l.j < m && l.dist2 == Dist2(a, qs[l.j]) && l.dist2 < LinkDistanceSquared
    decreases m
  {
    if m > i + 1 {
      RowLinksMembers(a, i, qs, m - 1);
      assert RowLinks(a, i, qs, m) == RowLinks(a, i, qs, m - 1) + LinkIfClose(a, i, qs[m - 1], m - 1);
    }
  }

  lemma {:induction false} RowLinksOrdered(a: Particle, i: nat, qs: seq<Particle>, m: nat)
    requires m <= |qs|
    ensures forall l :: l in RowLinks(a, i, qs, m) ==> l.i == i && l.j < m
    ensures StrictlyOrdered(RowLinks(a, i, qs, m))
    decreases m
  {
    if m > i + 1 {
      RowLinksOrdered(a, i, qs, m - 1);
      var prev := RowLinks(a, i, qs, m - 1);
      var last := LinkIfClose(a, i, qs[m - 1], m - 1);
      assert RowLinks(a, i, qs, m) == prev + last;
      forall x, y | 0 <= x < y < |prev + last|
        ensures PairBefore((prev + last)[x], (prev + last)[y])
      {
        if y >= |prev| {
          assert (prev + last)[x] in prev;
        }
      }
    }
  }

  /** A row reads only the entries after its own index. */
  lemma {:induction false} RowLinksReadsLater(a: Particle, i: nat, qs: seq<Particle>, rs: seq<Particle>, m: nat)
    requires m <= |qs| && m <= |rs|
    requires forall j :: i < j < m ==> qs[j] == rs[j]
    ensures RowLinks(a, i, qs, m) == RowLinks(a, i, rs, m)
    decreases m
  {
    if m > i + 1 {
      RowLinksReadsLater(a, i, qs, rs, m - 1);
    }
  }

  lemma {:induction false} FrameLinksMembers(ps: seq<Particle>, s: Surface, k: nat)
    requires k <= |ps|
    ensures forall l :: l in FrameLinks(ps, s, k) <==> l.i < k && Drawn(ps, s, l)
    decreases k
  {
    if k > 0 {
      FrameLinksMembers(ps, s, k - 1);
      var a := StepParticle(ps[k - 1], s);
      RowLinksMembers(a, k - 1, ps, |ps|);
      var prev, row := FrameLinks(ps, s, k - 1), RowLinks(a, k - 1, ps, |ps|);
      assert FrameLinks(ps, s, k) == prev + row;
      forall l: Link ensures l in prev + row <==> l.i < k && Drawn(ps, s, l) {
        if l.i < k - 1 {
          assert l !in row;
          assert l in prev + row <==> l in prev;
        } else if l.i == k - 1 {
          assert l !in prev;
          assert l in prev + row <==> l in row;
        } else {
          assert l !in prev && l !in row;
        }
      }
    }
  }

  /** Two ordered runs, every line of the first before every line of the
      second, make an ordered run. */
  lemma OrderedConcat(xs: seq<Link>, ys: seq<Link>)
    requires StrictlyOrdered(xs) && StrictlyOrdered(ys)
    requires forall x, y :: x in xs && y in ys ==> PairBefore(x, y)
    ensures StrictlyOrdered(xs + ys)
  {
    forall a, b | 0 <= a < b < |xs + ys| ensures PairBefore((xs + ys)[a], (xs + ys)[b]) {
      if b < |xs| {
        assert (xs + ys)[a] == xs[a] && (xs + ys)[b] == xs[b];
      } else if a >= |xs| {
        assert (xs + ys)[a] == ys[a - |xs|] && (xs + ys)[b] == ys[b - |xs|];
      } else {
        assert (xs + ys)[a] in xs && (xs + ys)[b] in ys;
      }
    }
  }

  lemma {:induction false} FrameLinksOrdered(ps: seq<Particle>, s: Surface, k: nat)
    requires k <= |ps|
    ensures forall l :: l in FrameLinks(ps, s, k) ==> l.i < k
    ensures StrictlyOrdered(FrameLinks(ps, s, k))
    decreases k
  {
    if k > 0 {
      FrameLinksOrdered(ps, s, k - 1);
      var a := StepParticle(ps[k - 1], s);
      RowLinksOrdered(a, k - 1, ps, |ps|);
      var prev, row := FrameLinks(ps, s, k - 1), RowLinks(a, k - 1, ps, |ps|);
      assert FrameLinks(ps, s, k) == prev + row;
      forall x, y | x in prev && y in row ensures PairBefore(x, y) {
        assert x.i < k - 1 && y.i == k - 1;
      }
      OrderedConcat(prev, row);
    }
  }

  /** The lines of one frame are exactly the close pairs `i < j`, and no
      pair is drawn twice. An empty pool draws nothing. */
  lemma FrameDrawsEachClosePairOnce(ps: seq<Particle>, s: Surface)
    ensures forall l :: l in FrameLinks(ps, s, |ps|) <==> Drawn(ps, s, l)
    ensures forall a, b :: 0 <= a < b < |FrameLinks(ps, s, |ps|)| ==>
              (FrameLinks(ps, s, |ps|)[a].i, FrameLinks(ps, s, |ps|)[a].j) !=
              (FrameLinks(ps, s, |ps|)[b].i, FrameLinks(ps, s, |ps|)[b].j)
    ensures ps == [] ==> FrameLinks(ps, s, |ps|) == []
  {
    FrameLinksMembers(ps, s, |ps|);
    FrameLinksOrdered(ps, s, |ps|);
  }

  /** A drawn line, whose true distance `d` is the square root of its
      squared distance, gets an opacity in `(0, 0.1]`. */
  lemma DrawnLinkOpacity(ps: seq<Particle>, s: Surface, l: Link, d: real)
    requires Drawn(ps, s, l)
    requires d >= 0.0 && d * d == l.dist2
    ensures Fade.LinkOpacity(d).Some?
    ensures 0.0 < Fade.LinkOpacity(d).value <= 0.1
  {
    Fade.CloseIffSquaredClose(d);
  }

  /** The particle field of one page: the canvas (absent until React
      attaches it) and the pool held in `particles.current`. */
  class ParticleField {
    var canvas: Option<Surface>
    var particles: seq<Particle>

    /** Without a canvas the pool is never filled; with one, every
        particle has its initial attribute ranges and lies on the canvas. */
    ghost predicate Valid()
      reads this
    {
      && (canvas.None? ==> particles == [])
      && (canvas.Some? ==> forall k :: 0 <= k < |particles| ==>
            AttributesInRange(particles[k]) && OnSurface(particles[k], canvas.value))
    }

    /** The page as mounted: `particles` starts as `useRef([])`. */
    constructor (canvas: Option<Surface>)
      ensures Valid()
      ensures this.canvas == canvas && particles == []
    {
      this.canvas := canvas;
      particles := [];
    }

    /** `initParticles`: without a canvas nothing happens; otherwise the
        canvas is sized to the window, the pool emptied and refilled with
        `particleCount` particles from the draws, seven per particle. */
    method InitParticles(innerWidth: nat, innerHeight: nat, draws: seq<real>)
      requires Valid()
      requires |draws| == ParticleCount * DrawsPerParticle && AreDraws(draws)
      modifies this
      ensures Valid()
      ensures old(canvas).None? ==> canvas == old(canvas) && particles == old(particles)
      ensures old(canvas).Some? ==> canvas == Some(Surface(innerWidth, innerHeight))
      ensures old(canvas).Some? ==>
                particles == InitialPool(Surface(innerWidth, innerHeight), draws)
    {
      if canvas.None? {
        return;
      }
      var s := Surface(innerWidth, innerHeight);
      canvas := Some(s);
      particles := [];
      ghost var pool := InitialPool(s, draws);
      for i := 0 to ParticleCount
        invariant canvas == Some(s)
        invariant particles == pool[..i]
      {
        particles := particles + [NewParticle(s, DrawsFor(draws, i))];
      }
      assert pool[..ParticleCount] == pool;
    }

    /** The `forEach` callback of `animate` for the particle at `index`:
        move and wrap it in the pool, then connect it to every later
        particle. */
    method VisitParticle(index: nat) returns (row: seq<Link>)
      requires canvas.Some? && index < |particles|
      modifies this
      ensures canvas == old(canvas)
      ensures particles == old(particles)[index := StepParticle(old(particles)[index], canvas.value)]
      ensures row == RowLinks(StepParticle(old(particles)[index], canvas.value), index,
                              old(particles), |old(particles)|)
    {
      var w, h := canvas.value.width as real, canvas.value.height as real;
      var particle := particles[index];
      var x := Wrap(particle.x + particle.vx, w);
      var y := Wrap(particle.y + particle.vy, h);
      particle := particle.(x := x, y := y);
      ghost var before := particles;
      particles := particles[index := particle];
      row := Connect(particle, index, particles);
      RowLinksReadsLater(particle, index, particles, before, |particles|);
    }

    /** One call of `animate`: without a canvas nothing happens; otherwise
        each particle in turn is moved and wrapped, then compared with every
        later particle, and the lines of the close pairs are returned in
        the order they are stroked. */
    method Animate() returns (links: seq<Link>)
      requires Valid()
      modifies this
      ensures Valid() && canvas == old(canvas)
      ensures canvas.None? ==> particles == old(particles) && links == []
      ensures canvas.Some? ==> particles == StepAll(old(particles), canvas.value)
      ensures canvas.Some? ==> links == FrameLinks(old(particles), canvas.value, |old(particles)|)
    {
      links := [];
      if canvas.None? {
        return;
      }
      var s := canvas.value;
      ghost var ps := particles;
      var n := |particles|;
      var index := 0;
      while index < n
        invariant 0 <= index <= n && |particles| == n && canvas == Some(s)
        invariant forall k :: 0 <= k < index ==> particles[k] == StepParticle(ps[k], s)
        invariant forall k :: index <= k < n ==> particles[k] == ps[k]
        invariant links == FrameLinks(ps, s, index)
      {
        ghost var before := particles;
        var row := VisitParticle(index);
        RowLinksReadsLater(StepParticle(ps[index], s), index, before, ps, n);
        links := links + row;
        index := index + 1;
      }
      assert particles == StepAll(ps, s);
      forall k | 0 <= k < n
        ensures AttributesInRange(particles[k]) && OnSurface(particles[k], s)
      {
        StepKeepsRanges(ps[k], s);
      }
    }
  }
}
