/** The slope a tick predicts with: a least-squares fit of the last SNR windows. */
module PolicySlope {
  import opened Common
  import opened Policy

  // ---- products ------------------------------------------------------------------------------

  // A product under a name.
  function Mul(a: real, b: real): real { a * b }

  function Sq(x: real): real { Mul(x, x) }

  lemma SquareSign(v: real)
    ensures Sq(v) >= 0.0 && (v != 0.0 ==> Sq(v) > 0.0)
  {
    if v > 0.0 {
      MulPositive(v, v);
    } else if v < 0.0 {
      MulPositive(-v, -v);
      assert Mul(-v, -v) == Mul(v, v);
    }
  }

  lemma MulPositive(a: real, b: real)
    requires a > 0.0 && b > 0.0
    ensures Mul(a, b) > 0.0
  {
  }

  lemma Binomial(a: real, b: real)
    ensures (a + b) * (a + b) == a * a + 2.0 * (a * b) + b * b
  {
  }

  lemma Dist(k: real, a: real, b: real)
    ensures k * (a + b) == k * a + k * b
  {
  }

  lemma Assoc(a: real, b: real, c: real)
    ensures a * (b * c) == a * b * c
  {
  }

  lemma SameProducts(m: real, u: real, v: real)
    ensures u * (m * v) == m * (v * u) && (m * v) * (m * v) == m * m * (v * v)
  {
    Assoc(m, v, u);
    Assoc(m * v, m, v);
    Assoc(m, m, v * v);
    Assoc(m, v, m * v);
  }

  // ---- the residual of a line -------------------------------------------------------------------

  // Squared distance of the samples from the line c + m * i.
  function Residual(s: seq<real>, c: real, m: real): real {
    if s == [] then 0.0
    else Residual(s[..|s| - 1], c, m) + Sq(s[|s| - 1] - (c + Mul(m, (|s| - 1) as real)))
  }

  function Spread(s: seq<real>, mean: real): real {
    if s == [] then 0.0 else Spread(s[..|s| - 1], mean) + Sq(s[|s| - 1] - mean)
  }

  function Indices(n: nat): real { if n == 0 then 0.0 else Indices(n - 1) + (n - 1) as real }

  // The same distance, from the samples' deviations about any pair of centres.
  function Expanded(spread: real, cov: real, vari: real, dy: real, dx: real, n: real, d: real, m: real): real {
    spread - 2.0 * (m * cov) + m * m * vari + 2.0 * (d * dy) - 2.0 * (d * (m * dx)) + n * (d * d)
  }

  lemma ExpandsNone(d: real, m: real)
    ensures Expanded(0.0, 0.0, 0.0, 0.0, 0.0, 0.0, d, m) == 0.0
  {
  }

  lemma ExpandsOne(u: real, v: real, d: real, m: real)
    ensures Sq(u - Mul(m, v) + d) == Expanded(Sq(u), Mul(v, u), Mul(v, v), u, v, 1.0, d, m)
  {
    Binomial(u, -(m * v));
    SameProducts(m, u, v);
    Binomial(u - m * v, d);
    Dist(d, u, -(m * v));
  }

  lemma ExpandsSum(a1: real, b1: real, c1: real, d1: real, e1: real, n1: real, a2: real, b2: real, c2: real, d2: real, e2: real, n2: real, d: real, m: real)
    ensures Expanded(a1, b1, c1, d1, e1, n1, d, m) + Expanded(a2, b2, c2, d2, e2, n2, d, m)
      == Expanded(a1 + a2, b1 + b2, c1 + c2, d1 + d2, e1 + e2, n1 + n2, d, m)
  {
    Dist(m, b1, b2);
    Dist(m * m, c1, c2);
    Dist(d, d1, d2);
    Dist(m, e1, e2);
    Dist(d, m * e1, m * e2);
    Dist(d * d, n1, n2);
  }

  function Parts(s: seq<real>, mx: real, my: real, d: real, m: real): real {
    Expanded(Spread(s, my), Covariance(s, mx, my), Variance(|s|, mx), Sum(s) - Mul(|s| as real, my), Indices(|s|) - Mul(|s| as real, mx),
             |s| as real, d, m)
  }

  lemma LastCovariance(s: seq<real>, mx: real, my: real)
    requires s != []
    ensures var k := |s| - 1; Covariance(s, mx, my) == Covariance(s[..k], mx, my) + Mul(k as real - mx, s[k] - my)
  {
  }

  lemma LastVariance(k: nat, mx: real)
    ensures Variance(k + 1, mx) == Variance(k, mx) + Mul(k as real - mx, k as real - mx)
  {
  }

  lemma OneMore(k: nat, x: real)
    ensures Mul((k + 1) as real, x) == Mul(k as real, x) + x
  {
  }

  lemma PartsNext(s: seq<real>, mx: real, my: real, d: real, m: real)
    requires s != []
    ensures var k := |s| - 1;
      var u, v := s[k] - my, k as real - mx;
      Parts(s, mx, my, d, m) == Parts(s[..k], mx, my, d, m) + Expanded(Sq(u), Mul(v, u), Mul(v, v), u, v, 1.0, d, m)
  {
    hide Expanded, Mul, Sq, Covariance, Variance;
    var k := |s| - 1;
    var r, u, v := s[..k], s[k] - my, k as real - mx;
    LastCovariance(s, mx, my);
    LastVariance(k, mx);
    OneMore(k, mx);
    OneMore(k, my);
    ExpandsSum(Spread(r, my), Covariance(r, mx, my), Variance(k, mx), Sum(r) - Mul(k as real, my), Indices(k) - Mul(k as real, mx), k as real,
               Sq(u), Mul(v, u), Mul(v, v), u, v, 1.0, d, m);
  }

  lemma MulMinus(m: real, x: real, y: real)
    ensures Mul(m, x - y) == Mul(m, x) - Mul(m, y)
  {
    Dist(m, x, -y);
  }

  lemma {:induction false} ResidualExpands(s: seq<real>, c: real, m: real, mx: real, my: real)
    ensures Residual(s, c, m) == Parts(s, mx, my, my - c - Mul(m, mx), m)
  {
    var d := my - c - Mul(m, mx);
    if s == [] {
      ExpandsNone(d, m);
    } else {
      hide Parts, Mul, Sq, Expanded;
      var k := |s| - 1;
      ResidualExpands(s[..k], c, m, mx, my);
      PartsNext(s, mx, my, d, m);
      ExpandsOne(s[k] - my, k as real - mx, d, m);
      MulMinus(m, k as real, mx);
      assert s[k] - (c + Mul(m, k as real)) == s[k] - my - Mul(m, k as real - mx) + d;
    }
  }

  // ---- at the means ----------------------------------------------------------------------------

  lemma {:induction false} IndexMean(n: nat)
    ensures n >= 1 ==> 2.0 * Indices(n) == n as real * (n - 1) as real
  {
    if n > 1 { IndexMean(n - 1); Gauss(n as real); }
  }

  lemma Gauss(n: real)
    ensures (n - 1.0) * (n - 2.0) + 2.0 * (n - 1.0) == n * (n - 1.0)
  {
  }

  lemma {:induction false} VariancePositive(n: nat, mx: real)
    ensures Variance(n, mx) >= 0.0 && (n >= 1 && mx > 0.0 ==> Variance(n, mx) > 0.0)
  {
    if n > 0 {
      VariancePositive(n - 1, mx);
      var v := (n - 1) as real - mx;
      assert Variance(n, mx) == Variance(n - 1, mx) + Sq((n - 1) as real - mx);
      hide Sq, Variance;
      SquareSign(v);
    }
  }

  lemma Times(n: real, x: real)
    requires n > 0.0
    ensures n * (x / n) == x
  {
  }

  lemma Halves(n: real, k: real)
    ensures 2.0 * (n * (k / 2.0)) == n * k
  {
  }

  // The middle terms vanish.
  lemma CentredResidual(s: seq<real>, c: real, m: real, mx: real, my: real, d: real)
    requires |s| >= 2 && mx == (|s| - 1) as real / 2.0 && my == Sum(s) / |s| as real && d == my - c - Mul(m, mx)
    ensures Residual(s, c, m) == Spread(s, my) - 2.0 * (m * Covariance(s, mx, my)) + m * m * Variance(|s|, mx) + |s| as real * (d * d)
  {
    hide Sq, Residual, Spread, Covariance, Variance, Sum, Indices;
    ResidualExpands(s, c, m, mx, my);
    IndexMean(|s|);
    Times(|s| as real, Sum(s));
    Halves(|s| as real, (|s| - 1) as real);
    ExpandsCentred(Spread(s, my), Covariance(s, mx, my), Variance(|s|, mx), |s| as real, d, m);
  }

  lemma ExpandsCentred(spread: real, cov: real, vari: real, n: real, d: real, m: real)
    ensures Expanded(spread, cov, vari, 0.0, 0.0, n, d, m) == spread - 2.0 * (m * cov) + m * m * vari + n * (d * d)
  {
  }

  // The line of gradient m through the means.
  function Line(s: seq<real>, m: real): real
    requires |s| >= 1
  {
    Sum(s) / |s| as real - Mul(m, (|s| - 1) as real / 2.0)
  }

  /** LsqSlope is the gradient of the best line: no other line is closer to the samples, and
      one with another gradient is further away. */
  lemma SlopeIsBest(s: seq<real>, c: real, m: real)
    requires |s| >= 2
    ensures var best := Residual(s, Line(s, LsqSlope(s)), LsqSlope(s));
      best <= Residual(s, c, m) && (m != LsqSlope(s) ==> best < Residual(s, c, m))
  {
    hide Sq, Residual, Spread, Covariance, Variance, Sum, Mul;
    var mx, my := (|s| - 1) as real / 2.0, Sum(s) / |s| as real;
    var b, vari := LsqSlope(s), Variance(|s|, mx);
    VariancePositive(|s|, mx);
    Times(vari, Covariance(s, mx, my));
    var d := my - c - Mul(m, mx);
    CentredResidual(s, c, m, mx, my, d);
    CentredResidual(s, Line(s, b), b, mx, my, 0.0);
    Compare(Spread(s, my), Covariance(s, mx, my), vari, |s| as real, m, b, d);
  }

  lemma Compare(spread: real, cov: real, v: real, n: real, m: real, b: real, d: real)
    requires cov == v * b && v > 0.0 && n > 0.0
    ensures var best, other := spread - 2.0 * (b * cov) + b * b * v + n * (0.0 * 0.0), spread - 2.0 * (m * cov) + m * m * v + n * (d * d);
      best <= other && (m != b ==> best < other)
  {
    Parabola(m, b, v);
    NonNegative(v, m - b);
    NonNegative(n, d);
  }

  lemma NonNegative(n: real, d: real)
    requires n > 0.0
    ensures n * Sq(d) >= 0.0 && (d != 0.0 ==> n * Sq(d) > 0.0)
  {
    SquareSign(d);
  }

  lemma Parabola(m: real, b: real, v: real)
    ensures (-2.0 * (m * (v * b)) + m * m * v) - (-2.0 * (b * (v * b)) + b * b * v) == v * Sq(m - b)
  {
  }
}
