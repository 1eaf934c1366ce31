/** `ts_corr` is a correlation: its clamps never act and its value lies between -1 and 1. */
module Correlation {
  import opened Wrappers
  import opened Numbers
  import opened Vocab
  import opened Ops

  /** The sum of the squares `(x + t * y - e)^2`. */
  function Residuals(p: seq<(real, real)>, t: real, e: real): (r: real)
    ensures r >= 0.0
  {
    if p == [] then 0.0
    else
      Residuals(p[..|p| - 1], t, e) + Square(p[|p| - 1].0 + t * p[|p| - 1].1 - e)
  }

  function Square(d: real): (r: real)
    ensures r >= 0.0
  {
    d * d
  }

  lemma ExpandSquare(x: real, y: real, t: real, e: real)
    ensures Square(x + t * y - e)
         == x * x + 2.0 * t * (x * y) + t * t * (y * y) - 2.0 * e * x - 2.0 * e * t * y + e * e
  {
    var u := x + t * y;
    assert (u - e) * (u - e) == u * u - 2.0 * e * u + e * e;
    assert u * u == x * x + 2.0 * t * (x * y) + t * t * (y * y);
  }

  function Expansion(n: real, sx: real, sy: real, sxx: real, sxy: real, syy: real, t: real, e: real): real {
    sxx + 2.0 * t * sxy + t * t * syy - 2.0 * e * sx - 2.0 * e * t * sy + n * e * e
  }

  lemma ExpansionGrows(n: real, sx: real, sy: real, sxx: real, sxy: real, syy: real, t: real, e: real, x: real, y: real)
    ensures Expansion(n + 1.0, sx + x, sy + y, sxx + x * x, sxy + x * y, syy + y * y, t, e)
         == Expansion(n, sx, sy, sxx, sxy, syy, t, e) + Square(x + t * y - e)
  {
    ExpandSquare(x, y, t, e);
    assert 2.0 * t * (sxy + x * y) == 2.0 * t * sxy + 2.0 * t * (x * y);
    assert t * t * (syy + y * y) == t * t * syy + t * t * (y * y);
    assert 2.0 * e * (sx + x) == 2.0 * e * sx + 2.0 * e * x;
    assert 2.0 * e * t * (sy + y) == 2.0 * e * t * sy + 2.0 * e * t * y;
    assert (n + 1.0) * e * e == n * e * e + e * e;
  }

  lemma ExpansionGrown(n: real, sx: real, sy: real, sxx: real, sxy: real, syy: real, t: real, e: real, x: real, y: real,
                       m: real, tx: real, ty: real, txx: real, txy: real, tyy: real)
    requires m == n + 1.0 && tx == sx + x && ty == sy + y && txx == sxx + x * x && txy == sxy + x * y
    requires tyy == syy + y * y
    ensures Expansion(m, tx, ty, txx, txy, tyy, t, e) == Expansion(n, sx, sy, sxx, sxy, syy, t, e)
            + Square(x + t * y - e)
  {
    hide Expansion;
    hide Square;
    ExpansionGrows(n, sx, sy, sxx, sxy, syy, t, e, x, y);
  }

  lemma TimesZero(x: real)
    ensures x * 0.0 == 0.0
  {
  }

  lemma ExpansionOfNothing(t: real, e: real)
    ensures Expansion(0.0, 0.0, 0.0, 0.0, 0.0, 0.0, t, e) == 0.0
  {
    TimesZero(2.0 * t);
    TimesZero(t * t);
    TimesZero(2.0 * e);
    TimesZero(2.0 * e * t);
  }

  lemma SumsGrow(p: seq<(real, real)>)
    requires p != []
    ensures var front, last := p[..|p| - 1], p[|p| - 1];
            && SumX(p) == SumX(front) + last.0 && SumY(p) == SumY(front) + last.1
            && SumXX(p) == SumXX(front) + last.0 * last.0 && SumYY(p) == SumYY(front) + last.1 * last.1
            && SumXY(p) == SumXY(front) + last.0 * last.1 && |p| as real == |front| as real + 1.0
  {
  }

  lemma ResidualsGrow(p: seq<(real, real)>, t: real, e: real)
    requires p != []
    ensures var front, last := p[..|p| - 1], p[|p| - 1];
            Residuals(p, t, e) == Residuals(front, t, e) + Square(last.0 + t * last.1 - e)
  {
  }

  lemma ResidualsOfNothing(p: seq<(real, real)>, t: real, e: real)
    requires p == []
    ensures Residuals(p, t, e) == Expansion(|p| as real, SumX(p), SumY(p), SumXX(p), SumXY(p), SumYY(p), t, e)
  {
    ExpansionOfNothing(t, e);
  }

  lemma {:induction false} ResidualsExpand(p: seq<(real, real)>, t: real, e: real)
    ensures Residuals(p, t, e) == Expansion(|p| as real, SumX(p), SumY(p), SumXX(p), SumXY(p), SumYY(p), t, e)
  {
    hide Square;
    hide Residuals;
    hide Expansion;
    hide SumX;
    hide SumY;
    hide SumXX;
    hide SumYY;
    hide SumXY;
    if p == [] {
      ResidualsOfNothing(p, t, e);
    } else {
      var front, last := p[..|p| - 1], p[|p| - 1];
      ResidualsExpand(front, t, e);
      SumsGrow(p);
      ResidualsGrow(p, t, e);
      ExpansionGrown(|front| as real, SumX(front), SumY(front), SumXX(front), SumXY(front), SumYY(front), t, e, last.0,
                     last.1,
                     |p| as real, SumX(p), SumY(p), SumXX(p), SumXY(p), SumYY(p));
    }
  }

  function Form(vx: real, vy: real, c: real, t: real): real {
    vx + 2.0 * t * c + t * t * vy
  }

  /** At the mean the expansion is `n` times the quadratic form of the covariance matrix. */
  lemma ExpansionAtMean(n: real, sx: real, sy: real, sxx: real, sxy: real, syy: real, t: real)
    requires n > 0.0
    ensures Expansion(n, sx, sy, sxx, sxy, syy, t, sx / n + t * (sy / n))
         == n * Form(VarianceOf(n, sxx, sx), VarianceOf(n, syy, sy), CovarianceOf(n, sxy, sx, sy), t)
  {
    var a, b := sx / n, sy / n;
    var c, d, f := sxx / n, sxy / n, syy / n;
    assert sx == n * a && sy == n * b && sxx == n * c && sxy == n * d && syy == n * f;
    MeanProduct(n, a, b, sx, sy);
    ScaledExpansion(n, a, b, c, d, f, t);
  }

  lemma SquareOverItself(n: real, m: real)
    requires n > 0.0 && m == n * n
    ensures m / n == n
  {
  }

  lemma PositiveSquare(n: real, m: real)
    requires n > 0.0 && m == n * n
    ensures m > 0.0
  {
    if m <= 0.0 {
      SquareOverItself(n, m);
    }
  }

  lemma QuotientBySquare(x: real, n: real, m: real, q: real)
    requires m > 0.0 && m == n * n && x == q * n * n
    ensures x / m == q
  {
    assert x == q * m;
  }

  lemma ProductOfProducts(a: real, b: real, n: real)
    ensures (a * n) * (b * n) == (a * b) * n * n
  {
  }

  lemma MeanProduct(n: real, a: real, b: real, sx: real, sy: real)
    requires n > 0.0 && sx == a * n && sy == b * n
    ensures n * n > 0.0 && sx * sy / (n * n) == a * b
  {
    var m, x, q := n * n, sx * sy, a * b;
    PositiveSquare(n, m);
    ProductOfProducts(a, b, n);
    QuotientBySquare(x, n, m, q);
  }

  lemma ScaledExpansion(n: real, a: real, b: real, c: real, d: real, f: real, t: real)
    ensures Expansion(n, n * a, n * b, n * c, n * d, n * f, t, a + t * b)
         == n * ((c - a * a) + 2.0 * t * (d - a * b) + t * t * (f - b * b))
  {
    var e := a + t * b;
    assert 2.0 * e * (n * a) + 2.0 * e * t * (n * b) == 2.0 * n * (e * e);
    assert e * e == a * a + 2.0 * t * (a * b) + t * t * (b * b);
  }

  lemma FormFromExpansion(n: real, sx: real, sy: real, sxx: real, sxy: real, syy: real, t: real, e: real)
    requires n > 0.0 && e == sx / n + t * (sy / n) && Expansion(n, sx, sy, sxx, sxy, syy, t, e) >= 0.0
    ensures Form(VarianceOf(n, sxx, sx), VarianceOf(n, syy, sy), CovarianceOf(n, sxy, sx, sy), t) >= 0.0
  {
    hide Expansion;
    hide Form;
    hide VarianceOf;
    hide CovarianceOf;
    ExpansionAtMean(n, sx, sy, sxx, sxy, syy, t);
    PositiveFactor(n, Form(VarianceOf(n, sxx, sx), VarianceOf(n, syy, sy), CovarianceOf(n, sxy, sx, sy), t),
                   Expansion(n, sx, sy, sxx, sxy, syy, t, e));
  }

  lemma NegativeProduct(n: real, x: real)
    requires n > 0.0 && x < 0.0
    ensures n * x < 0.0
  {
  }

  lemma PositiveFactor(n: real, x: real, y: real)
    requires n > 0.0 && y == n * x && y >= 0.0
    ensures x >= 0.0
  {
    if x < 0.0 {
      NegativeProduct(n, x);
    }
  }

  /** The quadratic form is non-negative at every `t`. */
  lemma FormIsNonnegative(p: seq<(real, real)>, t: real)
    requires p != []
    ensures Form(VarianceX(p), VarianceY(p), Covariance(p), t) >= 0.0
  {
    hide Residuals;
    hide Expansion;
    hide Form;
    hide VarianceOf;
    hide CovarianceOf;
    var n := Size(p);
    assert n == |p| as real;
    var e := SumX(p) / n + t * (SumY(p) / n);
    ResidualsExpand(p, t, e);
    FormFromExpansion(n, SumX(p), SumY(p), SumXX(p), SumXY(p), SumYY(p), t, e);
  }

  lemma Cancel(v: real, c: real)
    requires c != 0.0
    ensures 2.0 * (-(v + 1.0) / (2.0 * c)) * c == -(v + 1.0)
  {
    var q := -(v + 1.0) / (2.0 * c);
    assert q * (2.0 * c) == -(v + 1.0);
  }

  /** A form `vx + 2 t c + t^2 vy` that is never negative has a non-negative discriminant defect. */
  lemma Discriminant(vx: real, vy: real, c: real)
    requires vy >= 0.0
    requires vy > 0.0 ==> Form(vx, vy, c, -c / vy) >= 0.0
    requires vy == 0.0 && c != 0.0 ==> Form(vx, vy, c, -(vx + 1.0) / (2.0 * c)) >= 0.0
    ensures c * c <= vx * vy
  {
    if vy > 0.0 {
      var q := c / vy;
      assert c == q * vy;
      assert -c / vy == -q;
      assert vx - q * c >= 0.0;
      assert (vx - q * c) * vy >= 0.0;
      assert q * c * vy == c * c;
    } else if c != 0.0 {
      Cancel(vx, c);
    }
  }

  /** Cauchy-Schwarz for the masked window: both variances are non-negative and bound the covariance. */
  lemma CovarianceIsBounded(p: seq<(real, real)>)
    requires p != []
    ensures VarianceX(p) >= 0.0 && VarianceY(p) >= 0.0
    ensures Covariance(p) * Covariance(p) <= VarianceX(p) * VarianceY(p)
  {
    hide VarianceX;
    hide VarianceY;
    hide Covariance;
    assert Form(VarianceX(p), VarianceY(p), Covariance(p), 0.0) == VarianceX(p);
    hide Form;
    var vx, vy, c := VarianceX(p), VarianceY(p), Covariance(p);
    FormIsNonnegative(p, 0.0);
    LeadingCoefficient(p);
    if vy > 0.0 {
      FormIsNonnegative(p, -c / vy);
    } else if c != 0.0 {
      FormIsNonnegative(p, -(vx + 1.0) / (2.0 * c));
    }
    Discriminant(vx, vy, c);
  }

  /** Swapping the two series swaps the variances. */
  function Swap(p: seq<(real, real)>): (r: seq<(real, real)>)
    ensures |r| == |p|
  {
    if p == [] then [] else Swap(p[..|p| - 1]) + [(p[|p| - 1].1, p[|p| - 1].0)]
  }

  lemma {:induction false} SwapSums(p: seq<(real, real)>)
    ensures SumX(Swap(p)) == SumY(p) && SumXX(Swap(p)) == SumYY(p)
  {
    if p != [] {
      SwapSums(p[..|p| - 1]);
    }
  }

  lemma LeadingCoefficient(p: seq<(real, real)>)
    requires p != []
    ensures VarianceY(p) >= 0.0
  {
    hide VarianceOf;
    hide CovarianceOf;
    SwapSums(p);
    FormIsNonnegative(Swap(p), 0.0);
  }

  lemma Stretches(q: real, d: real)
    requires q > 1.0 && d > 0.0
    ensures q * d > d
  {
  }

  lemma LargerSquare(c: real, d: real)
    requires c > d > 0.0
    ensures c * c > d * d
  {
    assert c * c > c * d;
    assert c * d > d * d;
  }

  lemma Negated(c: real, q: real, d: real)
    ensures (-c) * (-c) == c * c && (-q) * d == -(q * d)
  {
  }

  lemma Bounded(c: real, d: real, q: real)
    requires d > 0.0 && c * c <= d * d && c == q * d
    ensures -1.0 <= q <= 1.0
  {
    if q > 1.0 {
      Stretches(q, d);
      LargerSquare(c, d);
    } else if q < -1.0 {
      Stretches(-q, d);
      Negated(c, q, d);
      LargerSquare(-c, d);
    }
  }

  /**
   * The value of `ts_corr`. With a square root that is right at the one point where it is taken, the clamps
   * are no-ops and every value it gives lies in [-1, 1].
   */
  lemma CorrelationIsInRange(k: Kernel, a: seq<Cell>, b: seq<Cell>)
    requires |a| == |b| && PairCell(k, TsCorr, a, b).Some?
    requires var p := Pairs(a, b);
             Denominator(k, p) * Denominator(k, p) == Positive(VarianceX(p)) * Positive(VarianceY(p))
    ensures var p := Pairs(a, b); Positive(VarianceX(p)) == VarianceX(p) && Positive(VarianceY(p)) == VarianceY(p)
    ensures -1.0 <= PairCell(k, TsCorr, a, b).value <= 1.0
  {
    hide VarianceX;
    hide VarianceY;
    hide Covariance;
    hide Denominator;
    hide Pairs;
    var p := Pairs(a, b);
    CovarianceIsBounded(p);
    Bounded(Covariance(p), Denominator(k, p), Covariance(p) / Denominator(k, p));
  }
}
