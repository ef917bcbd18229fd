/** The fading formulas of the page: the opacity and scale of each pointer
    trail marker (src/pages/Portfolio.jsx, the `mouseTrail.map` style) and
    the opacity of a constellation line between two close particles
    (the pair loop of `animate`). JavaScript numbers are read as reals. */
module Fade {
  import opened Options

  /** The trail marker at `index` of a trail of `len` entries is drawn at
      `(index + 1) / len * 0.8` opacity. */
  function MarkerOpacity(index: nat, len: nat): (o: real)
    requires index < len
    ensures 0.0 < o <= 0.8
    ensures index == len - 1 ==> o == 0.8
  {
    (index + 1) as real / len as real * 0.8
  }

  /** The same marker is scaled by `(index + 1) / len`. */
  function MarkerScale(index: nat, len: nat): (s: real)
    requires index < len
    ensures 0.0 < s <= 1.0
    ensures index == len - 1 ==> s == 1.0
  {
    (index + 1) as real / len as real
  }

  /** Newer markers (higher index) are strictly more opaque and larger. */
  lemma MarkerFadeIncreases(i: nat, j: nat, len: nat)
    requires i < j < len
    ensures MarkerOpacity(i, len) < MarkerOpacity(j, len)
    ensures MarkerScale(i, len) < MarkerScale(j, len)
  {
    var n := len as real;
    assert (i + 1) as real < (j + 1) as real;
    assert (i + 1) as real / n < (j + 1) as real / n by {
      DivIncreases((i + 1) as real, (j + 1) as real, n);
    }
  }

  lemma DivIncreases(a: real, b: real, n: real)
    requires a < b && n > 0.0
    ensures a / n < b / n
  {
    assert b / n - a / n == (b - a) / n;
  }

  /** A trail of a single point draws it at full marker opacity and scale. */
  lemma SinglePointIsFull()
    ensures MarkerOpacity(0, 1) == 0.8 && MarkerScale(0, 1) == 1.0
  {
  }

  /** Distance below which two particles are joined by a line. */
  const LinkDistance: real := 100.0

  /** The line between two particles `d` apart: drawn only when `d < 100`,
      at opacity `(1 - d/100) * 0.1`. `d` comes from `Math.sqrt`, so it is
      never negative. */
  function LinkOpacity(d: real): (o: Option<real>)
    requires d >= 0.0
    ensures o.Some? <==> d < LinkDistance
    ensures o.Some? ==> 0.0 < o.value <= 0.1
    ensures d == 0.0 ==> o == Some(0.1)
  {
    if d < LinkDistance then Some((1.0 - d / LinkDistance) * 0.1) else None
  }

  /** Closer pairs get strictly more visible lines. */
  lemma LinkOpacityDecreases(d1: real, d2: real)
    requires 0.0 <= d1 < d2 < LinkDistance
    ensures LinkOpacity(d1).Some? && LinkOpacity(d2).Some?
    ensures LinkOpacity(d1).value > LinkOpacity(d2).value
  {
    assert LinkOpacity(d1).value - LinkOpacity(d2).value == (d2 - d1) / LinkDistance * 0.1;
  }

  /** The distance test can be made on the squared distance: for a
      non-negative `d`, `d < 100` exactly when `d * d < 100 * 100`. */
  lemma CloseIffSquaredClose(d: real)
    requires d >= 0.0
    ensures d < LinkDistance <==> d * d < LinkDistance * LinkDistance
  {
    if d < LinkDistance {
      assert d * d <= 100.0 * d;
    } else {
      assert d * d >= 100.0 * d;
    }
  }
}
