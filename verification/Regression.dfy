/** The three least-squares fits of the load examples, over the reals: `loglog_fit`
    (examples/argon2_saturation.rs) on points already transformed, `linreg`
    (examples/saturation_throughput.rs) and `ols` (examples/disk_slope_sweep.rs). */
module Regression {

  // ----- Vectors

  type Vec = seq<real>

  /** The sum of the products of the first `k` coordinates. */
  function DotTo(u: Vec, v: Vec, k: nat): (d: real)
    requires k <= |u| == |v|
  {
    if k == 0 then 0.0 else DotTo(u, v, k - 1) + u[k - 1] * v[k - 1]
  }

  function Dot(u: Vec, v: Vec): (d: real)
    requires |u| == |v|
  {
    DotTo(u, v, |u|)
  }

  function Add(u: Vec, v: Vec): (w: Vec)
    requires |u| == |v|
    ensures |w| == |u| && forall i | 0 <= i < |w| :: w[i] == u[i] + v[i]
  {
    seq(|u|, i requires 0 <= i < |u| => u[i] + v[i])
  }

  function Scale(t: real, u: Vec): (w: Vec)
    ensures |w| == |u| && forall i | 0 <= i < |w| :: w[i] == t * u[i]
  {
    seq(|u|, i requires 0 <= i < |u| => t * u[i])
  }

  function Ones(n: nat): (w: Vec)
    ensures |w| == n && forall i | 0 <= i < |w| :: w[i] == 1.0
  {
    seq(n, _ => 1.0)
  }

  lemma {:induction false} DotSymmetric(u: Vec, v: Vec, k: nat)
    requires k <= |u| == |v|
    ensures DotTo(u, v, k) == DotTo(v, u, k)
  {
    if k > 0 { DotSymmetric(u, v, k - 1); }
  }

  lemma Distribute(a: real, b: real, c: real)
    ensures (a + b) * c == a * c + b * c
    ensures c * (a + b) == c * a + c * b
    ensures (c * a) * b == c * (a * b)
  {
  }

  lemma {:induction false} DotAdd(u: Vec, v: Vec, w: Vec, k: nat)
    requires k <= |u| == |v| == |w|
    ensures DotTo(Add(u, v), w, k) == DotTo(u, w, k) + DotTo(v, w, k)
  {
    if k > 0 {
      DotAdd(u, v, w, k - 1);
      Distribute(u[k - 1], v[k - 1], w[k - 1]);
    }
  }

  lemma {:induction false} DotScale(t: real, u: Vec, w: Vec, k: nat)
    requires k <= |u| == |w|
    ensures DotTo(Scale(t, u), w, k) == t * DotTo(u, w, k)
  {
    if k > 0 {
      DotScale(t, u, w, k - 1);
      Distribute(DotTo(u, w, k - 1), u[k - 1] * w[k - 1], t);
      Distribute(u[k - 1], w[k - 1], t);
    }
  }

  /** The square of a sum. */
  lemma DotSquare(u: Vec, v: Vec)
    requires |u| == |v|
    ensures Dot(Add(u, v), Add(u, v)) == Dot(u, u) + 2.0 * Dot(u, v) + Dot(v, v)
  {
    var w, n := Add(u, v), |u|;
    DotAdd(u, v, w, n);
    DotSymmetric(u, w, n);
    DotSymmetric(v, w, n);
    DotAdd(u, v, u, n);
    DotAdd(u, v, v, n);
    DotSymmetric(u, v, n);
  }

  function Times(x: real, y: real): (p: real) { x * y }

  function Sq(x: real): (p: real) { Times(x, x) }

  lemma TimesPositive(x: real, y: real)
    requires x > 0.0 && y > 0.0
    ensures Times(x, y) > 0.0
  {
  }

  lemma TimesNegative(x: real, y: real)
    requires x < 0.0 && y < 0.0
    ensures Times(x, y) > 0.0
  {
  }

  lemma TimesZero(x: real, y: real)
    requires x == 0.0
    ensures Times(x, y) == 0.0
  {
  }

  lemma Square(x: real)
    ensures Sq(x) >= 0.0
    ensures Sq(x) == 0.0 <==> x == 0.0
  {
    if x > 0.0 { TimesPositive(x, x); } else if x < 0.0 { TimesNegative(x, x); } else { TimesZero(x, x); }
  }

  lemma {:induction false} DotNonNegative(u: Vec, k: nat)
    requires k <= |u|
    ensures DotTo(u, u, k) >= 0.0
  {
    if k > 0 {
      DotNonNegative(u, k - 1);
      Square(u[k - 1]);
    }
  }

  /** A vector of length zero has product zero with every vector. */
  lemma {:induction false} DotZero(u: Vec, v: Vec, k: nat)
    requires k <= |u| == |v| && DotTo(u, u, k) == 0.0
    ensures DotTo(u, v, k) == 0.0
  {
    if k > 0 {
      DotNonNegative(u, k - 1);
      Square(u[k - 1]);
      DotZero(u, v, k - 1);
    }
  }

  // ----- Points

  function Sum(xs: Vec): (s: real) {
    Dot(xs, Ones(|xs|))
  }

  function Mean(xs: Vec): (m: real)
    requires |xs| > 0
  {
    Sum(xs) / |xs| as real
  }

  /** The coordinates measured from `a`. */
  function From(a: real, xs: Vec): (u: Vec)
    ensures |u| == |xs| && forall i | 0 <= i < |u| :: u[i] == xs[i] - a
  {
    seq(|xs|, i requires 0 <= i < |xs| => xs[i] - a)
  }

  /** The residuals of the line `intercept + slope * x`. */
  function Errors(xs: Vec, ys: Vec, intercept: real, slope: real): (r: Vec)
    requires |xs| == |ys|
    ensures |r| == |xs| && forall i | 0 <= i < |r| :: r[i] == ys[i] - (intercept + slope * xs[i])
  {
    seq(|xs|, i requires 0 <= i < |xs| => ys[i] - (intercept + slope * xs[i]))
  }

  /** The sum of the squared residuals. */
  function Residuals(xs: Vec, ys: Vec, intercept: real, slope: real): (s: real)
    requires |xs| == |ys|
  {
    Dot(Errors(xs, ys, intercept, slope), Errors(xs, ys, intercept, slope))
  }

  /** Number of points, means and centred sums: all that the fits depend on. */
  datatype Sums = Sums(n: real, mx: real, my: real, sxx: real, sxy: real, syy: real)

  function Centred(xs: Vec, ys: Vec): (s: Sums)
    requires |xs| == |ys| > 0
  {
    var u, v := From(Mean(xs), xs), From(Mean(ys), ys);
    Sums(|xs| as real, Mean(xs), Mean(ys), Dot(u, u), Dot(u, v), Dot(v, v))
  }

  /** What holds of the sums of any points. */
  predicate Ok(s: Sums) {
    s.n > 0.0 && s.sxx >= 0.0 && s.syy >= 0.0 && (s.sxx == 0.0 ==> s.sxy == 0.0)
  }

  lemma CentredOk(xs: Vec, ys: Vec)
    requires |xs| == |ys| > 0
    ensures Ok(Centred(xs, ys))
  {
    var u, v := From(Mean(xs), xs), From(Mean(ys), ys);
    DotNonNegative(u, |u|);
    DotNonNegative(v, |v|);
    if Dot(u, u) == 0.0 { DotZero(u, v, |u|); }
  }

  lemma {:induction false} DotOnes(n: nat, k: nat)
    requires k <= n
    ensures DotTo(Ones(n), Ones(n), k) == k as real
  {
    if k > 0 { DotOnes(n, k - 1); }
  }

  /** The coordinates measured from the mean add up to zero. */
  lemma FromMean(xs: Vec)
    requires |xs| > 0
    ensures Sum(xs) == |xs| as real * Mean(xs)
    ensures Dot(From(Mean(xs), xs), Ones(|xs|)) == 0.0
  {
    var a, n, ones := Mean(xs), |xs|, Ones(|xs|);
    assert From(a, xs) == Add(xs, Scale(-a, ones));
    DotAdd(xs, Scale(-a, ones), ones, n);
    DotScale(-a, ones, ones, n);
    DotOnes(n, n);
  }

  // ----- The residuals of an arbitrary line

  /** The quadratic form the residuals of a line are: `t` is its slope, `c` how far the mean
      point lies above it. */
  function Form(s: Sums, t: real, c: real): (q: real) {
    s.syy - 2.0 * (t * s.sxy) + t * (t * s.sxx) + c * (c * s.n)
  }

  /** How far the mean point lies above a line. */
  function Height(s: Sums, intercept: real, slope: real): (c: real) {
    s.my - intercept - slope * s.mx
  }

  lemma ErrorScalar(x: real, y: real, a: real, b: real, intercept: real, t: real, c: real)
    requires c == b - intercept - t * a
    ensures y - (intercept + t * x) == ((y - b) + (-t) * (x - a)) + c * 1.0
  {
    assert (-t) * (x - a) == t * a - t * x;
  }

  lemma ErrorsSplit(xs: Vec, ys: Vec, a: real, b: real, intercept: real, t: real, c: real)
    requires |xs| == |ys| && c == b - intercept - t * a
    ensures Errors(xs, ys, intercept, t) ==
            Add(Add(From(b, ys), Scale(-t, From(a, xs))), Scale(c, Ones(|xs|)))
  {
    var r := Add(Add(From(b, ys), Scale(-t, From(a, xs))), Scale(c, Ones(|xs|)));
    forall i | 0 <= i < |xs| ensures Errors(xs, ys, intercept, t)[i] == r[i] {
      ErrorScalar(xs[i], ys[i], a, b, intercept, t, c);
    }
  }

  /** The square of `v + t * u`. */
  lemma SquareTilted(u: Vec, v: Vec, t: real)
    requires |u| == |v|
    ensures var w := Add(v, Scale(t, u));
            Dot(w, w) == Dot(v, v) + 2.0 * (t * Dot(u, v)) + t * (t * Dot(u, u))
  {
    var z, n := Scale(t, u), |u|;
    DotSquare(v, z);
    DotSymmetric(v, z, n);
    DotScale(t, u, v, n);
    DotScale(t, u, z, n);
    DotSymmetric(u, z, n);
    DotScale(t, u, u, n);
  }

  /** The square of `v + t * u + c`, for vectors that add up to zero. */
  lemma SquareLifted(u: Vec, v: Vec, t: real, c: real)
    requires |u| == |v| && Dot(u, Ones(|u|)) == 0.0 && Dot(v, Ones(|u|)) == 0.0
    ensures var w := Add(v, Scale(t, u));
            var e := Add(w, Scale(c, Ones(|u|)));
            Dot(e, e) == Dot(w, w) + c * (c * |u| as real)
  {
    var w, ones, n := Add(v, Scale(t, u)), Ones(|u|), |u|;
    DotAdd(v, Scale(t, u), ones, n);
    DotScale(t, u, ones, n);
    DotSymmetric(ones, w, n);
    SquareTilted(ones, w, c);
    DotOnes(n, n);
  }

  lemma LineForm(u: Vec, v: Vec, s: Sums, t: real, c: real)
    requires |u| == |v| && Dot(u, Ones(|u|)) == 0.0 && Dot(v, Ones(|u|)) == 0.0
    requires s.n == |u| as real && s.sxx == Dot(u, u) && s.sxy == Dot(u, v) && s.syy == Dot(v, v)
    ensures var e := Add(Add(v, Scale(-t, u)), Scale(c, Ones(|u|)));
            Dot(e, e) == Form(s, t, c)
  {
    var w := Add(v, Scale(-t, u));
    assert Dot(w, w) == s.syy + 2.0 * ((-t) * s.sxy) + (-t) * ((-t) * s.sxx) by { SquareTilted(u, v, -t); }
    FormScalar(s, t, c);
    SquareLifted(u, v, -t, c);
  }

  /** The residuals of any line are the quadratic form in its slope and height. */
  lemma ResidualsForm(xs: Vec, ys: Vec, intercept: real, slope: real)
    requires |xs| == |ys| > 0
    ensures var s := Centred(xs, ys);
            Residuals(xs, ys, intercept, slope) == Form(s, slope, Height(s, intercept, slope))
  {
    var s := Centred(xs, ys);
    var c := Height(s, intercept, slope);
    ErrorsSplit(xs, ys, s.mx, s.my, intercept, slope, c);
    FromMean(xs);
    FromMean(ys);
    LineForm(From(s.mx, xs), From(s.my, ys), s, slope, c);
  }

  lemma FormScalar(s: Sums, t: real, c: real)
    ensures Form(s, t, c) == (s.syy + 2.0 * ((-t) * s.sxy) + (-t) * ((-t) * s.sxx)) + c * (c * s.n)
  {
    assert (-t) * s.sxy == -(t * s.sxy);
    assert (-t) * ((-t) * s.sxx) == t * (t * s.sxx);
  }

  // ----- The best line

  lemma NonNegative(a: real, b: real)
    requires a >= 0.0 && b >= 0.0
    ensures a * b >= 0.0
  {
  }

  lemma Positive(a: real, b: real)
    requires a > 0.0 && b >= 0.0
    ensures a * b >= 0.0 && (a * b == 0.0 <==> b == 0.0)
  {
    if b > 0.0 { TimesPositive(a, b); }
  }

  lemma Ratio(a: real, b: real)
    requires 0.0 <= a <= b && b > 0.0
    ensures 0.0 <= a / b <= 1.0
  {
  }

  lemma Quotient(a: real, b: real, q: real)
    requires b != 0.0 && q * b == a
    ensures a / b == q
  {
  }

  /** The slope the fits compute: zero when there is no spread to divide by. */
  function BestSlope(s: Sums): (t: real) {
    if s.sxx == 0.0 then 0.0 else s.sxy / s.sxx
  }

  function BestIntercept(s: Sums): (c: real) {
    s.my - BestSlope(s) * s.mx
  }

  lemma SlopeSolves(s: Sums)
    requires Ok(s)
    ensures s.sxy == BestSlope(s) * s.sxx
  {
  }

  /** What a line's slope and height cost, over the best line. */
  function Gap(s: Sums, t: real, c: real): (g: real) {
    s.sxx * Sq(t) + s.n * Sq(c)
  }

  lemma GapNonNegative(s: Sums, t: real, c: real)
    requires Ok(s)
    ensures Gap(s, t, c) >= 0.0
    ensures s.sxx > 0.0 ==> (Gap(s, t, c) == 0.0 <==> t == 0.0 && c == 0.0)
  {
    Square(t);
    Square(c);
    NonNegative(s.sxx, Sq(t));
    Positive(s.n, Sq(c));
    if s.sxx > 0.0 { Positive(s.sxx, Sq(t)); }
  }

  lemma FormGap(s: Sums, best: real, t: real, c: real)
    requires s.sxy == best * s.sxx
    ensures Form(s, t, c) - Form(s, best, 0.0) == Gap(s, t - best, c)
  {
    assert t * s.sxy == t * (best * s.sxx);
    assert best * s.sxy == best * (best * s.sxx);
    assert c * (c * s.n) == s.n * (c * c);
    assert (t - best) * (t - best) == t * t - 2.0 * (t * best) + best * best;
    assert s.sxx * (t * t - 2.0 * (t * best) + best * best)
        == t * (t * s.sxx) - 2.0 * (t * (best * s.sxx)) + best * (best * s.sxx);
  }

  function BestResiduals(xs: Vec, ys: Vec): (r: real)
    requires |xs| == |ys| > 0
  {
    Residuals(xs, ys, BestIntercept(Centred(xs, ys)), BestSlope(Centred(xs, ys)))
  }

  /** The best residuals as a value of the quadratic form. */
  lemma BestForm(xs: Vec, ys: Vec)
    requires |xs| == |ys| > 0
    ensures BestResiduals(xs, ys) == Form(Centred(xs, ys), BestSlope(Centred(xs, ys)), 0.0)
  {
    var s := Centred(xs, ys);
    ResidualsForm(xs, ys, BestIntercept(s), BestSlope(s));
    assert Height(s, BestIntercept(s), BestSlope(s)) == 0.0;
  }

  /** For every list of points and every line: the fitted line leaves the smaller squared
      residuals, by exactly the spread times the slope error squared plus, per point, the
      height error squared. */
  lemma FitIsOptimal(xs: Vec, ys: Vec, intercept: real, slope: real)
    requires |xs| == |ys| > 0
    ensures var s := Centred(xs, ys);
            Residuals(xs, ys, intercept, slope) ==
            BestResiduals(xs, ys) + Gap(s, slope - BestSlope(s), Height(s, intercept, slope))
    ensures BestResiduals(xs, ys) <= Residuals(xs, ys, intercept, slope)
  {
    var s := Centred(xs, ys);
    CentredOk(xs, ys);
    ResidualsForm(xs, ys, intercept, slope);
    BestForm(xs, ys);
    OptimalScalar(s, slope, Height(s, intercept, slope));
  }

  lemma OptimalScalar(s: Sums, t: real, c: real)
    requires Ok(s)
    ensures Form(s, t, c) == Form(s, BestSlope(s), 0.0) + Gap(s, t - BestSlope(s), c)
    ensures Gap(s, t - BestSlope(s), c) >= 0.0
  {
    SlopeSolves(s);
    FormGap(s, BestSlope(s), t, c);
    GapNonNegative(s, t - BestSlope(s), c);
  }

  /** With spread in `x` the best line is the only one. */
  lemma FitIsUnique(xs: Vec, ys: Vec, intercept: real, slope: real)
    requires |xs| == |ys| > 0 && Centred(xs, ys).sxx > 0.0
    ensures var s := Centred(xs, ys);
            Residuals(xs, ys, intercept, slope) == BestResiduals(xs, ys) <==>
            slope == BestSlope(s) && intercept == BestIntercept(s)
  {
    CentredOk(xs, ys);
    FitIsOptimal(xs, ys, intercept, slope);
    OnlyBest(Centred(xs, ys), intercept, slope);
  }

  lemma OnlyBest(s: Sums, intercept: real, slope: real)
    requires Ok(s) && s.sxx > 0.0
    ensures Gap(s, slope - BestSlope(s), Height(s, intercept, slope)) == 0.0 <==>
            slope == BestSlope(s) && intercept == BestIntercept(s)
  {
    GapNonNegative(s, slope - BestSlope(s), Height(s, intercept, slope));
  }

  // ----- R squared

  lemma FormAtBest(s: Sums)
    requires Ok(s)
    ensures Form(s, BestSlope(s), 0.0) == s.syy - BestSlope(s) * s.sxy <= s.syy
  {
    var best := BestSlope(s);
    SlopeSolves(s);
    assert best * (best * s.sxx) == best * s.sxy;
    Square(best);
    assert best * (best * s.sxx) == (best * best) * s.sxx >= 0.0;
  }

  /** What the best line leaves, in closed form. */
  lemma BestResidualsClosed(xs: Vec, ys: Vec)
    requires |xs| == |ys| > 0
    ensures var s := Centred(xs, ys);
            && BestResiduals(xs, ys) == s.syy - BestSlope(s) * s.sxy
            && 0.0 <= BestResiduals(xs, ys) <= s.syy
  {
    var s := Centred(xs, ys);
    CentredOk(xs, ys);
    BestForm(xs, ys);
    FormAtBest(s);
    DotNonNegative(Errors(xs, ys, BestIntercept(s), BestSlope(s)), |xs|);
  }

  lemma Schwarz(s: Sums)
    requires Ok(s) && 0.0 <= s.syy - BestSlope(s) * s.sxy
    ensures s.sxy * s.sxy <= s.sxx * s.syy
  {
    var best := BestSlope(s);
    SlopeSolves(s);
    assert s.sxx * (best * s.sxy) == s.sxy * s.sxy;
    assert s.sxx * (s.syy - best * s.sxy) == s.sxx * s.syy - s.sxx * (best * s.sxy);
    assert s.sxx * (s.syy - best * s.sxy) >= 0.0;
  }

  /** Cauchy-Schwarz for the centred sums. */
  lemma CauchySchwarz(xs: Vec, ys: Vec)
    requires |xs| == |ys| > 0
    ensures var s := Centred(xs, ys); s.sxy * s.sxy <= s.sxx * s.syy
  {
    CentredOk(xs, ys);
    BestResidualsClosed(xs, ys);
    Schwarz(Centred(xs, ys));
  }

  /** `linreg`: 1 when a spread is missing, else the product form. */
  function ProductR2(s: Sums): (r: real) {
    if s.sxx == 0.0 || s.syy == 0.0 then 1.0 else (s.sxy * s.sxy) / (s.sxx * s.syy)
  }

  /** `loglog_fit`: the residual form. */
  function ResidualR2(ssRes: real, ssTot: real): (r: real) {
    if ssTot == 0.0 then 1.0 else 1.0 - ssRes / ssTot
  }

  lemma SquareNonNegative(x: real)
    ensures x * x >= 0.0
  {
  }

  lemma ProductBounded(s: Sums)
    requires Ok(s) && s.sxy * s.sxy <= s.sxx * s.syy
    ensures 0.0 <= ProductR2(s) <= 1.0
  {
    if s.sxx > 0.0 && s.syy > 0.0 {
      SquareNonNegative(s.sxy);
      Positive(s.sxx, s.syy);
      Ratio(s.sxy * s.sxy, s.sxx * s.syy);
    }
  }

  lemma ResidualBounded(res: real, tot: real)
    requires 0.0 <= res <= tot
    ensures 0.0 <= ResidualR2(res, tot) <= 1.0
  {
    if tot > 0.0 { Ratio(res, tot); }
  }

  /** Both forms of R squared lie between 0 and 1, for all points. */
  lemma R2Bounded(xs: Vec, ys: Vec)
    requires |xs| == |ys| > 0
    ensures 0.0 <= ProductR2(Centred(xs, ys)) <= 1.0
    ensures 0.0 <= ResidualR2(BestResiduals(xs, ys), Centred(xs, ys).syy) <= 1.0
  {
    CentredOk(xs, ys);
    CauchySchwarz(xs, ys);
    ProductBounded(Centred(xs, ys));
    BestResidualsClosed(xs, ys);
    ResidualBounded(BestResiduals(xs, ys), Centred(xs, ys).syy);
  }

  lemma ProductIsResidual(s: Sums, res: real)
    requires s.sxx > 0.0 && s.syy > 0.0 && res == s.syy - BestSlope(s) * s.sxy
    ensures (s.sxy * s.sxy) / (s.sxx * s.syy) == 1.0 - res / s.syy
  {
    var best := BestSlope(s);
    var p := best * s.sxy;
    var q := p / s.syy;
    assert q * s.syy == p;
    assert (1.0 - q) * s.syy == res;
    Quotient(res, s.syy, 1.0 - q);
    assert best * s.sxx == s.sxy;
    assert p * s.sxx == s.sxy * s.sxy;
    assert q * (s.sxx * s.syy) == (q * s.syy) * s.sxx;
    Positive(s.sxx, s.syy);
    Quotient(s.sxy * s.sxy, s.sxx * s.syy, q);
  }

  lemma R2Cases(s: Sums, res: real)
    requires Ok(s) && res == s.syy - BestSlope(s) * s.sxy
    ensures var product, residual := ProductR2(s), ResidualR2(res, s.syy);
            && (product == residual <==> !(s.sxx == 0.0 && s.syy > 0.0))
            && (product != residual ==> product == 1.0 && residual == 0.0)
  {
    if s.sxx > 0.0 && s.syy > 0.0 {
      ProductIsResidual(s, res);
    } else if s.syy > 0.0 {
      assert res == s.syy;
      Quotient(res, s.syy, 1.0);
    }
  }

  /** The two programs report the same R squared exactly when the points are not spread in
      `y` above a single `x`: there `linreg` reports 1 and `loglog_fit` reports 0. */
  lemma R2FormsAgreeIff(xs: Vec, ys: Vec)
    requires |xs| == |ys| > 0
    ensures var s := Centred(xs, ys);
            var product, residual := ProductR2(s), ResidualR2(BestResiduals(xs, ys), s.syy);
            && (product == residual <==> !(s.sxx == 0.0 && s.syy > 0.0))
            && (product != residual ==> product == 1.0 && residual == 0.0)
  {
    CentredOk(xs, ys);
    BestResidualsClosed(xs, ys);
    R2Cases(Centred(xs, ys), BestResiduals(xs, ys));
  }

  /** Two points above the same `x`: the two programs disagree. */
  lemma R2FormsDisagree(x: real)
    ensures var s := Centred([x, x], [0.0, 2.0]);
            && ProductR2(s) == 1.0
            && ResidualR2(BestResiduals([x, x], [0.0, 2.0]), s.syy) == 0.0
  {
    var xs, ys, ones := [x, x], [0.0, 2.0], Ones(2);
    assert DotTo(xs, ones, 1) == x && Sum(xs) == x + x && Mean(xs) == x;
    assert DotTo(ys, ones, 1) == 0.0 && Sum(ys) == 2.0 && Mean(ys) == 1.0;
    assert From(x, xs) == [0.0, 0.0] && From(1.0, ys) == [-1.0, 1.0];
    assert DotTo([0.0, 0.0], [0.0, 0.0], 1) == 0.0 && DotTo([-1.0, 1.0], [-1.0, 1.0], 1) == 1.0;
    R2FormsAgreeIff(xs, ys);
  }

  // ----- The programs

  /** The accumulation both centred programs make: `(x - a) * (y - b)` over the points. */
  method CentredProducts(xs: Vec, ys: Vec, a: real, b: real) returns (s: real)
    requires |xs| == |ys|
    ensures s == Dot(From(a, xs), From(b, ys))
  {
    s := 0.0;
    ghost var u, v := From(a, xs), From(b, ys);
    for i := 0 to |xs|
      invariant s == DotTo(u, v, i)
    {
      assert xs[i] - a == u[i] && ys[i] - b == v[i];
      s := s + (xs[i] - a) * (ys[i] - b);
    }
  }

  /** The second loop of `loglog_fit`. */
  method SquaredErrors(xs: Vec, ys: Vec, intercept: real, slope: real) returns (ssRes: real)
    requires |xs| == |ys|
    ensures ssRes == Residuals(xs, ys, intercept, slope)
  {
    ssRes := 0.0;
    ghost var r := Errors(xs, ys, intercept, slope);
    for i := 0 to |xs|
      invariant ssRes == DotTo(r, r, i)
    {
      var e := ys[i] - (intercept + slope * xs[i]);
      assert e == r[i];
      ssRes := ssRes + e * e;
    }
  }

  /** `loglog_fit` on points already transformed. */
  method LogLogFit(xs: Vec, ys: Vec) returns (slope: real, r2: real)
    requires |xs| == |ys|
    ensures |xs| < 2 ==> slope == 0.0 && r2 == 0.0
    ensures |xs| >= 2 ==> slope == BestSlope(Centred(xs, ys))
    ensures |xs| >= 2 ==> r2 == ResidualR2(BestResiduals(xs, ys), Centred(xs, ys).syy)
  {
    if |xs| < 2 { return 0.0, 0.0; }
    var mx, my := Mean(xs), Mean(ys);
    var sxy := CentredProducts(xs, ys, mx, my);
    var sxx := CentredProducts(xs, xs, mx, mx);
    slope := if sxx == 0.0 then 0.0 else sxy / sxx;
    assert slope == BestSlope(Centred(xs, ys)) && my - slope * mx == BestIntercept(Centred(xs, ys));
    var ssRes := SquaredErrors(xs, ys, my - slope * mx, slope);
    var ssTot := CentredProducts(ys, ys, my, my);
    r2 := if ssTot == 0.0 then 1.0 else 1.0 - ssRes / ssTot;
  }

  /** `linreg` */
  method Linreg(xs: Vec, ys: Vec) returns (slope: real, r2: real)
    requires |xs| == |ys| > 0
    ensures slope == BestSlope(Centred(xs, ys)) && r2 == ProductR2(Centred(xs, ys))
  {
    var mx, my := Mean(xs), Mean(ys);
    var sxx := CentredProducts(xs, xs, mx, mx);
    var sxy := CentredProducts(xs, ys, mx, my);
    var syy := CentredProducts(ys, ys, my, my);
    slope := if sxx == 0.0 then 0.0 else sxy / sxx;
    r2 := if sxx == 0.0 || syy == 0.0 then 1.0 else (sxy * sxy) / (sxx * syy);
  }

  // ----- Raw sums

  /** The number of points times a raw sum, less the product of the sums. */
  function Raw(xs: Vec, ys: Vec): (r: real)
    requires |xs| == |ys|
  {
    |xs| as real * Dot(xs, ys) - Sum(xs) * Sum(ys)
  }

  lemma CentreLeft(a: real, xs: Vec, ys: Vec)
    requires |xs| == |ys|
    ensures Dot(From(a, xs), ys) == Dot(xs, ys) - a * Dot(Ones(|xs|), ys)
  {
    var ones := Ones(|xs|);
    assert From(a, xs) == Add(xs, Scale(-a, ones));
    DotAdd(xs, Scale(-a, ones), ys, |xs|);
    DotScale(-a, ones, ys, |xs|);
  }

  /** Centring only one of two vectors is enough. */
  lemma CentreOne(xs: Vec, ys: Vec)
    requires |xs| == |ys| > 0
    ensures Dot(From(Mean(xs), xs), From(Mean(ys), ys)) == Dot(xs, ys) - Mean(xs) * Sum(ys)
  {
    var u, v, n := From(Mean(xs), xs), From(Mean(ys), ys), |xs|;
    CentreLeft(Mean(ys), ys, u);
    DotSymmetric(v, u, n);
    DotSymmetric(ys, u, n);
    FromMean(xs);
    DotSymmetric(Ones(n), u, n);
    CentreLeft(Mean(xs), xs, ys);
    DotSymmetric(Ones(n), ys, n);
  }

  /** Raw sums are centred sums times the number of points. */
  lemma RawIsCentred(xs: Vec, ys: Vec)
    requires |xs| == |ys| > 0
    ensures Raw(xs, ys) == |xs| as real * Dot(From(Mean(xs), xs), From(Mean(ys), ys))
  {
    CentreOne(xs, ys);
    FromMean(xs);
    RawScalar(|xs| as real, Mean(xs), Dot(xs, ys), Sum(ys));
  }

  lemma RawScalar(n: real, a: real, d: real, sy: real)
    ensures n * d - (n * a) * sy == n * (d - a * sy)
  {
  }

  /** The smallest total `ols` divides by. */
  const FLOOR: real := 0.000000000001

  function AtLeastFloor(x: real): (r: real) { if x >= FLOOR then x else FLOOR }

  function OlsSlope(xs: Vec, ys: Vec): (m: real)
    requires |xs| == |ys| > 0 && Raw(xs, xs) != 0.0
  {
    Raw(xs, ys) / Raw(xs, xs)
  }

  function OlsIntercept(xs: Vec, ys: Vec): (b: real)
    requires |xs| == |ys| > 0 && Raw(xs, xs) != 0.0
  {
    (Sum(ys) - OlsSlope(xs, ys) * Sum(xs)) / |xs| as real
  }

  function OlsR2(xs: Vec, ys: Vec): (r: real)
    requires |xs| == |ys| > 0 && Raw(xs, xs) != 0.0
  {
    var v := From(Mean(ys), ys);
    1.0 - Residuals(xs, ys, OlsIntercept(xs, ys), OlsSlope(xs, ys)) / AtLeastFloor(Dot(v, v))
  }

  lemma Cancel(n: real, a: real, b: real)
    requires n > 0.0 && b > 0.0
    ensures n * b > 0.0 && (n * a) / (n * b) == a / b
  {
    var q := a / b;
    assert q * b == a;
    assert q * (n * b) == n * a;
    Positive(n, b);
    Quotient(n * a, n * b, q);
  }

  lemma InterceptScalar(n: real, mx: real, my: real, m: real)
    requires n > 0.0
    ensures (n * my - m * (n * mx)) / n == my - m * mx
  {
    assert m * (n * mx) == (m * mx) * n;
    assert (my - m * mx) * n == n * my - m * (n * mx);
    Quotient(n * my - m * (n * mx), n, my - m * mx);
  }

  /** `ols` can divide exactly when the points are spread in `x`, and then its raw-sum slope
      and intercept are the best line's. */
  lemma OlsIsBest(xs: Vec, ys: Vec)
    requires |xs| == |ys| > 0
    ensures Raw(xs, xs) != 0.0 <==> Centred(xs, ys).sxx > 0.0
    ensures Raw(xs, xs) != 0.0 ==>
              && OlsSlope(xs, ys) == BestSlope(Centred(xs, ys))
              && OlsIntercept(xs, ys) == BestIntercept(Centred(xs, ys))
  {
    var s := Centred(xs, ys);
    CentredOk(xs, ys);
    RawIsCentred(xs, xs);
    RawIsCentred(xs, ys);
    Positive(s.n, s.sxx);
    if Raw(xs, xs) != 0.0 {
      Cancel(s.n, s.sxy, s.sxx);
      FromMean(xs);
      FromMean(ys);
      InterceptScalar(s.n, s.mx, s.my, BestSlope(s));
    }
  }

  lemma SmallerShare(a: real, b: real, c: real)
    requires a >= 0.0 && 0.0 < b < c
    ensures a / b == a / c <==> a == 0.0
  {
    var p, q := a / b, a / c;
    assert p * b == a && q * c == a;
    if p == q {
      assert p * (c - b) == p * c - p * b == 0.0;
      Square(p);
      if p > 0.0 { Positive(c - b, p); }
    }
  }

  lemma FloorCases(res: real, tot: real)
    requires 0.0 <= res <= tot
    ensures 1.0 - res / AtLeastFloor(tot) == ResidualR2(res, tot) <==> tot >= FLOOR || res == 0.0
  {
    if 0.0 < tot < FLOOR { SmallerShare(res, tot, FLOOR); }
  }

  /** `ols` and `loglog_fit` report the same R squared exactly when the total is not below the
      floor or nothing is left over. */
  lemma OlsR2AgreesIff(xs: Vec, ys: Vec)
    requires |xs| == |ys| > 0 && Raw(xs, xs) != 0.0
    ensures OlsR2(xs, ys) == ResidualR2(BestResiduals(xs, ys), Centred(xs, ys).syy) <==>
            Centred(xs, ys).syy >= 0.000000000001 || BestResiduals(xs, ys) == 0.0
  {
    OlsIsBest(xs, ys);
    BestResidualsClosed(xs, ys);
    FloorCases(BestResiduals(xs, ys), Centred(xs, ys).syy);
  }
}
