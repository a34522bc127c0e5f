/**
 The algebra behind the height-bounded parabola: the curve y = a*x*x + b*x
 through the origin, with its coefficients fitted from the maximum height `h`,
 the horizontal span `w` and the root `s` of 1 - yDis/h, where yDis is the
 height of the end point above the start.
 */
module HeightArc {

  datatype Parabola = Parabola(a: real, b: real)

  /** The height of the arc above its origin, `x` units along the span. */
  function Height(p: Parabola, x: real): real
  {
    p.a * x * x + p.b * x
  }

  /**
   The coefficients as TransformTweenBehaviour computes them: b is 1 + s
   divided by w / (2h), and a is -b*b / (4h).
   */
  function Fit(h: real, w: real, s: real): Parabola
    requires 0.0 < h && 0.0 < w
  {
    var b := (1.0 + s) / (w / (2.0 * h));
    Parabola(-b * b / (4.0 * h), b)
  }

  /** The fitted arc opens downwards (a < 0) and starts out rising (b > 0). */
  lemma FitSigns(h: real, w: real, s: real)
    requires 0.0 < h && 0.0 < w && 0.0 <= s
    ensures Fit(h, w, s).a < 0.0 < Fit(h, w, s).b
  {
    var k := w / (2.0 * h);
    DivPositive(w, 2.0 * h);
    var b := (1.0 + s) / k;
    DivPositive(1.0 + s, k);
    assert 0.0 < b * b;
    DivPositive(b * b, 4.0 * h);
  }

  /** b * w is 2h(1 + s): the slope at the origin times the span. */
  lemma FitSpan(h: real, w: real, s: real)
    requires 0.0 < h && 0.0 < w
    ensures Fit(h, w, s).b * w == 2.0 * h * (1.0 + s)
  {
    var k := w / (2.0 * h);
    assert w == k * (2.0 * h);
    var b := (1.0 + s) / k;
    assert b * k == 1.0 + s;
    assert b * w == b * k * (2.0 * h);
  }

  /** With s the root of 1 - yDis/h, the arc ends at height yDis after the full span. */
  lemma FitLands(h: real, yDis: real, w: real, s: real)
    requires 0.0 < h && 0.0 < w
    requires s * s == 1.0 - yDis / h
    ensures Height(Fit(h, w, s), w) == yDis
  {
    var p := Fit(h, w, s);
    FitSpan(h, w, s);
    var bw := p.b * w;
    assert bw == 2.0 * h * (1.0 + s);
    assert p.a * (4.0 * h) == -p.b * p.b;
    assert p.a * w * w * (4.0 * h) == -bw * bw;
    assert bw * bw == 4.0 * h * h * (1.0 + s) * (1.0 + s);
    assert p.a * w * w == -h * (1.0 + s) * (1.0 + s);
    assert yDis == h * (1.0 - s * s);
  }

  /** Nowhere, inside the span or beyond it, does the fitted arc rise above h. */
  lemma FitBounded(h: real, w: real, s: real, x: real)
    requires 0.0 < h && 0.0 < w
    ensures Height(Fit(h, w, s), x) <= h
  {
    var p := Fit(h, w, s);
    var d := p.b * x - 2.0 * h;
    assert 0.0 <= d * d;
    assert d * d == p.b * x * (p.b * x) - 4.0 * h * (p.b * x) + 4.0 * h * h;
    assert p.a * (4.0 * h) == -p.b * p.b;
    assert 4.0 * h * (h - p.a * x * x - p.b * x) == d * d;
  }

  /** The arc reaches exactly h at x = 2h / b, which lies inside the span (0, w]. */
  lemma FitApex(h: real, w: real, s: real)
    requires 0.0 < h && 0.0 < w && 0.0 <= s
    ensures 0.0 < Fit(h, w, s).b
    ensures 0.0 < 2.0 * h / Fit(h, w, s).b <= w
    ensures Height(Fit(h, w, s), 2.0 * h / Fit(h, w, s).b) == h
  {
    var p := Fit(h, w, s);
    FitSigns(h, w, s);
    FitSpan(h, w, s);
    var x := 2.0 * h / p.b;
    DivPositive(2.0 * h, p.b);
    assert p.b * x == 2.0 * h;
    assert x * (1.0 + s) == w by {
      assert p.b * x * w == 2.0 * h * w;
      assert p.b * w * x == 2.0 * h * (1.0 + s) * x;
    }
    assert x <= x * (1.0 + s);
    assert p.a * (4.0 * h) == -p.b * p.b;
    assert p.a * x * x * (4.0 * h) == -(p.b * x) * (p.b * x);
  }

  /** The apex lies at a fraction t in (0, 1] of the span. */
  lemma FitApexFraction(h: real, w: real, s: real) returns (t: real)
    requires 0.0 < h && 0.0 < w && 0.0 <= s
    ensures 0.0 < t <= 1.0
    ensures Height(Fit(h, w, s), t * w) == h
  {
    FitApex(h, w, s);
    var x := 2.0 * h / Fit(h, w, s).b;
    t := x / w;
    assert t * w == x;
    DivPositive(x, w);
  }

  lemma DivPositive(x: real, y: real)
    requires 0.0 < x && 0.0 < y
    ensures 0.0 < x / y
  {
  }
}
