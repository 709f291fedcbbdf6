/** Least squares over measured points: `leastSquares` of the resource model and the
    sweep's own slope, `PerWorkspace`. Floats are reals; NaN is a datatype case. */
module Regression {
  import opened Sums

  // ----- Points and affine forms -----

  datatype Point = Point(x: real, y: real)

  /** The affine form a + b*x + c*y. Every sum the source accumulates is the sum, over
      the points, of the product of two of these. */
  datatype Form = Form(a: real, b: real, c: real) {
    function At(p: Point): real { a + b * p.x + c * p.y }
  }

  const ONE := Form(1.0, 0.0, 0.0)
  const X := Form(0.0, 1.0, 0.0)
  const Y := Form(0.0, 0.0, 1.0)

  /** What the line base + slope*x leaves unexplained. */
  function Residual(base: real, slope: real): Form { Form(-base, -slope, 1.0) }

  function Dot(pts: seq<Point>, f: Form, g: Form): real { Inner(pts, f.At, g.At) }

  /** Sum of squared residuals of a line. */
  function SquaredError(pts: seq<Point>, base: real, slope: real): real {
    Dot(pts, Residual(base, slope), Residual(base, slope))
  }

  lemma {:induction false} DotLinear(pts: seq<Point>, f: Form, h: Form)
    ensures Dot(pts, f, h) == f.a * Dot(pts, ONE, h) + f.b * Dot(pts, X, h) + f.c * Dot(pts, Y, h)
  {
    InnerLinear(pts, f.At, h.At, f.a, ONE.At, f.b, X.At, f.c, Y.At);
  }

  lemma {:induction false} DotSymmetric(pts: seq<Point>, f: Form, g: Form)
    ensures Dot(pts, f, g) == Dot(pts, g, f)
  {
    InnerSymmetric(pts, f.At, g.At);
  }

  lemma {:induction false} DotCount(pts: seq<Point>)
    ensures Dot(pts, ONE, ONE) == |pts| as real
  {
    if pts != [] { DotCount(pts[..|pts| - 1]); }
  }

  lemma {:induction false} DotConstant(pts: seq<Point>, x: real)
    requires forall p :: p in pts ==> p.x == x
    ensures Dot(pts, X, ONE) == |pts| as real * x
  {
    if pts != [] {
      assert pts[|pts| - 1] in pts;
      DotConstant(pts[..|pts| - 1], x);
    }
  }

  // ----- The least-squares line -----

  datatype Coefficients = Coefficients(base: real, perWorkspace: real, rSquared: real) {
    function At(workspaces: int): real { base + perWorkspace * (workspaces as real) }
  }

  ghost predicate SameX(pts: seq<Point>) {
    forall p, q :: p in pts && q in pts ==> p.x == q.x
  }

  ghost function MeanOf(pts: seq<Point>, f: Form): real
    requires pts != []
  {
    Dot(pts, f, ONE) / |pts| as real
  }

  /** Squared error of the best horizontal line: what there is to explain. */
  ghost function Variation(pts: seq<Point>): real
    requires pts != []
  {
    SquaredError(pts, MeanOf(pts, Y), 0.0)
  }

  lemma {:induction false} ConstantDot(pts: seq<Point>, d: real, h: Form)
    ensures Dot(pts, Form(d, 0.0, 0.0), h) == d * Dot(pts, ONE, h)
  {
    DotLinear(pts, Form(d, 0.0, 0.0), h);
  }

  lemma {:induction false} MeanLeavesNothing(pts: seq<Point>)
    requires pts != []
    ensures Dot(pts, ONE, Residual(MeanOf(pts, Y), 0.0)) == 0.0
  {
    DotCount(pts);
    MeanTimesCount(pts, Y);
    DotLinear(pts, Residual(MeanOf(pts, Y), 0.0), ONE);
    DotSymmetric(pts, Residual(MeanOf(pts, Y), 0.0), ONE);
  }

  /** No other level is as close to the points as their mean. */
  lemma {:induction false} MeanIsBestLevel(pts: seq<Point>, level: real)
    requires pts != []
    ensures level != MeanOf(pts, Y) ==> Variation(pts) < SquaredError(pts, level, 0.0)
  {
    var mean := MeanOf(pts, Y);
    var d, r := mean - level, Residual(mean, 0.0);
    var f := Form(d, 0.0, 0.0);
    forall p: Point ensures Residual(level, 0.0).At(p) == r.At(p) + f.At(p) {}
    InnerOfSum(pts, Residual(level, 0.0).At, r.At, f.At);
    MeanLeavesNothing(pts);
    ConstantDot(pts, d, r);
    DotSymmetric(pts, r, f);
    ConstantDot(pts, d, f);
    ConstantDot(pts, d, ONE);
    DotSymmetric(pts, ONE, f);
    DotCount(pts);
    if d != 0.0 { SquareTimes(d, |pts| as real); }
  }

  lemma SquareTimes(d: real, n: real)
    requires d != 0.0 && n > 0.0
    ensures d * (d * n) > 0.0
  {
    assert d * d > 0.0;
    assert d * (d * n) == d * d * n;
  }

  /** c is strictly better than every other line. */
  ghost predicate StrictlyBest(pts: seq<Point>, c: Coefficients) {
    forall b, m :: b != c.base || m != c.perWorkspace ==>
      SquaredError(pts, c.base, c.perWorkspace) < SquaredError(pts, b, m)
  }

  /** c is the best line and reports the share of the variation it accounts for (all of
      it, when there is none). */
  ghost predicate IsLeastSquares(pts: seq<Point>, c: Coefficients) {
    && pts != []
    && StrictlyBest(pts, c)
    && c.rSquared == (if Variation(pts) > 0.0
                      then 1.0 - SquaredError(pts, c.base, c.perWorkspace) / Variation(pts)
                      else 1.0)
  }

  /** A line whose residuals are orthogonal to 1 and to x. */
  ghost predicate Normal(pts: seq<Point>, base: real, slope: real) {
    Dot(pts, Residual(base, slope), ONE) == 0.0 && Dot(pts, Residual(base, slope), X) == 0.0
  }

  /** Such a line beats every other by the squared size of the difference. */
  lemma {:induction false} Pythagoras(pts: seq<Point>, base: real, slope: real, b: real, m: real)
    requires Normal(pts, base, slope)
    ensures var d := Form(base - b, slope - m, 0.0);
            SquaredError(pts, b, m) == SquaredError(pts, base, slope) + Dot(pts, d, d)
  {
    var r, d := Residual(base, slope), Form(base - b, slope - m, 0.0);
    forall p: Point ensures Residual(b, m).At(p) == r.At(p) + d.At(p) {
      assert slope * p.x - m * p.x == (slope - m) * p.x;
    }
    InnerOfSum(pts, Residual(b, m).At, r.At, d.At);
    DotLinear(pts, d, r);
    DotSymmetric(pts, d, r);
    DotSymmetric(pts, ONE, r);
    DotSymmetric(pts, X, r);
    assert Dot(pts, r, d) == 0.0;
  }

  lemma {:induction false} NormalIsBest(pts: seq<Point>, base: real, slope: real, b: real, m: real)
    requires !SameX(pts) && Normal(pts, base, slope)
    requires b != base || m != slope
    ensures SquaredError(pts, base, slope) < SquaredError(pts, b, m)
  {
    var d := Form(base - b, slope - m, 0.0);
    Pythagoras(pts, base, slope, b, m);
    InnerSquare(pts, d.At);
    var p, q :| p in pts && q in pts && p.x != q.x;
    TwoZeros(d.a, d.b, p.x, q.x);
  }

  lemma TwoZeros(a: real, b: real, x: real, y: real)
    requires x != y && (a != 0.0 || b != 0.0)
    ensures a + b * x != 0.0 || a + b * y != 0.0
  {
    assert (a + b * x) - (a + b * y) == b * (x - y);
    if b == 0.0 {
      assert a + b * x == a;
    } else {
      NonzeroProduct(b, x - y);
    }
  }

  lemma NonzeroProduct(a: real, b: real)
    requires a != 0.0 && b != 0.0
    ensures a * b != 0.0
  {
    assert (a * b) / b == a;
  }

  ghost function CentredX(pts: seq<Point>): Form requires pts != [] { Form(-MeanOf(pts, X), 1.0, 0.0) }
  ghost function CentredY(pts: seq<Point>): Form requires pts != [] { Form(-MeanOf(pts, Y), 0.0, 1.0) }

  lemma {:induction false} MeanTimesCount(pts: seq<Point>, f: Form)
    requires pts != []
    ensures |pts| as real * MeanOf(pts, f) == Dot(pts, f, ONE)
  {
  }

  lemma {:induction false} CentredHasNoSum(pts: seq<Point>)
    requires pts != []
    ensures Dot(pts, CentredX(pts), ONE) == 0.0 && Dot(pts, CentredY(pts), ONE) == 0.0
  {
    DotCount(pts);
    MeanTimesCount(pts, X);
    MeanTimesCount(pts, Y);
    DotLinear(pts, CentredX(pts), ONE);
    DotLinear(pts, CentredY(pts), ONE);
  }

  lemma {:induction false} CentredAgainstX(pts: seq<Point>)
    requires pts != []
    ensures Dot(pts, CentredX(pts), X) == Dot(pts, X, X) - MeanOf(pts, X) * Dot(pts, X, ONE)
    ensures Dot(pts, CentredY(pts), X) == Dot(pts, X, Y) - MeanOf(pts, Y) * Dot(pts, X, ONE)
  {
    DotLinear(pts, CentredX(pts), X);
    DotLinear(pts, CentredY(pts), X);
    DotSymmetric(pts, X, ONE);
    DotSymmetric(pts, X, Y);
  }

  /** Against a form without a sum, centring x makes no difference. */
  lemma {:induction false} AgainstCentredX(pts: seq<Point>, f: Form)
    requires pts != [] && Dot(pts, f, ONE) == 0.0
    ensures Dot(pts, CentredX(pts), f) == Dot(pts, f, X)
  {
    DotLinear(pts, CentredX(pts), f);
    DotSymmetric(pts, ONE, f);
    DotSymmetric(pts, X, f);
  }

  /** Centred sums in terms of raw ones. */
  lemma {:induction false} CentredSums(pts: seq<Point>)
    requires pts != []
    ensures Dot(pts, CentredX(pts), CentredX(pts)) == Dot(pts, X, X) - MeanOf(pts, X) * Dot(pts, X, ONE)
    ensures Dot(pts, CentredX(pts), CentredY(pts)) == Dot(pts, X, Y) - MeanOf(pts, Y) * Dot(pts, X, ONE)
  {
    CentredHasNoSum(pts);
    CentredAgainstX(pts);
    AgainstCentredX(pts, CentredX(pts));
    AgainstCentredX(pts, CentredY(pts));
  }

  lemma {:induction false} SameXIsMean(pts: seq<Point>, p: Point)
    requires SameX(pts) && p in pts
    ensures p.x == MeanOf(pts, X)
  {
    DotConstant(pts, p.x);
    MeanTimesCount(pts, X);
    CancelCount(|pts| as real, MeanOf(pts, X), p.x);
  }

  /** There is a trend to fit exactly when two points differ in x. */
  lemma {:induction false} NoSpreadIsSameX(pts: seq<Point>)
    requires pts != []
    ensures Dot(pts, CentredX(pts), CentredX(pts)) == 0.0 <==> SameX(pts)
  {
    var dx := CentredX(pts);
    InnerSquare(pts, dx.At);
    assert forall p :: p in pts ==> dx.At(p) == p.x - MeanOf(pts, X);
    if SameX(pts) {
      forall p | p in pts ensures dx.At(p) == 0.0 { SameXIsMean(pts, p); }
    }
  }

  lemma CancelCount(n: real, a: real, b: real)
    requires n != 0.0 && n * a == n * b
    ensures a == b
  {
    assert n * (a - b) == 0.0;
  }

  lemma {:induction false} ResidualSums(pts: seq<Point>, base: real, slope: real)
    ensures Dot(pts, Residual(base, slope), ONE)
            == -base * |pts| as real + -slope * Dot(pts, X, ONE) + Dot(pts, Y, ONE)
    ensures Dot(pts, Residual(base, slope), X)
            == -base * Dot(pts, X, ONE) + -slope * Dot(pts, X, X) + Dot(pts, X, Y)
  {
    DotCount(pts);
    DotLinear(pts, Residual(base, slope), ONE);
    DotLinear(pts, Residual(base, slope), X);
    DotSymmetric(pts, X, ONE);
    DotSymmetric(pts, X, Y);
  }

  /** The centred formulas solve the normal equations. */
  lemma {:induction false} CentredLineIsNormal(pts: seq<Point>, base: real, slope: real)
    requires pts != []
    requires slope * Dot(pts, CentredX(pts), CentredX(pts)) == Dot(pts, CentredX(pts), CentredY(pts))
    requires base == MeanOf(pts, Y) - slope * MeanOf(pts, X)
    ensures Normal(pts, base, slope)
  {
    CentredSums(pts);
    MeanTimesCount(pts, X);
    MeanTimesCount(pts, Y);
    ResidualSums(pts, base, slope);
    NormalAlgebra(|pts| as real, Dot(pts, X, ONE), Dot(pts, Y, ONE), Dot(pts, X, X), Dot(pts, X, Y),
                  MeanOf(pts, X), MeanOf(pts, Y), base, slope);
  }

  lemma NormalAlgebra(n: real, sx: real, sy: real, sxx: real, sxy: real,
                      mx: real, my: real, base: real, slope: real)
    requires n * mx == sx && n * my == sy && base == my - slope * mx
    requires slope * (sxx - mx * sx) == sxy - my * sx
    ensures -base * n + -slope * sx + sy == 0.0
    ensures -base * sx + -slope * sxx + sxy == 0.0
  {
    assert base * n == my * n - slope * (n * mx);
    assert base * sx == my * sx - slope * (mx * sx);
    assert slope * (sxx - mx * sx) == slope * sxx - slope * (mx * sx);
  }

  // ----- What the source computes -----

  datatype Outcome<+T, +E> = Ok(value: T) | Err(error: E)

  datatype NoTrend = SameWorkspaceCount

  ghost function Points(xs: seq<real>, ys: seq<real>): (pts: seq<Point>)
    requires |xs| == |ys|
    ensures |pts| == |xs| && forall i :: 0 <= i < |pts| ==> pts[i] == Point(xs[i], ys[i])
  {
    seq(|xs|, i requires 0 <= i < |xs| => Point(xs[i], ys[i]))
  }

  lemma {:induction false} DotStep(pts: seq<Point>, i: nat, f: Form, g: Form)
    requires i < |pts|
    ensures Dot(pts[..i + 1], f, g) == Dot(pts[..i], f, g) + f.At(pts[i]) * g.At(pts[i])
  {
    InnerStep(pts, i, f.At, g.At);
  }

  method Totals(xs: seq<real>, ys: seq<real>) returns (sumX: real, sumY: real)
    requires |xs| == |ys|
    ensures sumX == Dot(Points(xs, ys), X, ONE) && sumY == Dot(Points(xs, ys), Y, ONE)
  {
    ghost var pts := Points(xs, ys);
    sumX, sumY := 0.0, 0.0;
    for i := 0 to |xs|
      invariant sumX == Dot(pts[..i], X, ONE) && sumY == Dot(pts[..i], Y, ONE)
    {
      DotStep(pts, i, X, ONE);
      DotStep(pts, i, Y, ONE);
      sumX := sumX + xs[i];
      sumY := sumY + ys[i];
    }
    assert pts[..|xs|] == pts;
  }

  method CentredTotals(xs: seq<real>, ys: seq<real>, meanX: real, meanY: real) returns (sxx: real, sxy: real)
    requires |xs| == |ys|
    ensures sxx == Dot(Points(xs, ys), Form(-meanX, 1.0, 0.0), Form(-meanX, 1.0, 0.0))
    ensures sxy == Dot(Points(xs, ys), Form(-meanX, 1.0, 0.0), Form(-meanY, 0.0, 1.0))
  {
    ghost var pts := Points(xs, ys);
    ghost var cx, cy := Form(-meanX, 1.0, 0.0), Form(-meanY, 0.0, 1.0);
    sxx, sxy := 0.0, 0.0;
    for i := 0 to |xs|
      invariant sxx == Dot(pts[..i], cx, cx) && sxy == Dot(pts[..i], cx, cy)
    {
      DotStep(pts, i, cx, cx);
      DotStep(pts, i, cx, cy);
      var dx := xs[i] - meanX;
      assert cx.At(pts[i]) == dx && cy.At(pts[i]) == ys[i] - meanY;
      sxx := sxx + dx * dx;
      sxy := sxy + dx * (ys[i] - meanY);
    }
    assert pts[..|xs|] == pts;
  }

  method ResidualTotals(xs: seq<real>, ys: seq<real>, base: real, slope: real, meanY: real)
    returns (ssRes: real, ssTot: real)
    requires |xs| == |ys|
    ensures ssRes == SquaredError(Points(xs, ys), base, slope)
    ensures ssTot == SquaredError(Points(xs, ys), meanY, 0.0)
  {
    ghost var pts := Points(xs, ys);
    ghost var residual, flat := Residual(base, slope), Residual(meanY, 0.0);
    ssRes, ssTot := 0.0, 0.0;
    for i := 0 to |xs|
      invariant ssRes == Dot(pts[..i], residual, residual) && ssTot == Dot(pts[..i], flat, flat)
    {
      DotStep(pts, i, residual, residual);
      DotStep(pts, i, flat, flat);
      var resid := ys[i] - (base + slope * xs[i]);
      var dy := ys[i] - meanY;
      assert residual.At(pts[i]) == resid && flat.At(pts[i]) == dy;
      ssRes := ssRes + resid * resid;
      ssTot := ssTot + dy * dy;
    }
    assert pts[..|xs|] == pts;
  }

  /** `leastSquares`; its three loops are the three methods above. */
  method LeastSquares(xs: seq<real>, ys: seq<real>) returns (r: Outcome<Coefficients, NoTrend>)
    requires |xs| == |ys|
    ensures r.Err? <==> SameX(Points(xs, ys))
    ensures r.Ok? ==> IsLeastSquares(Points(xs, ys), r.value)
  {
    ghost var pts := Points(xs, ys);
    var sumX, sumY := Totals(xs, ys);
    if |xs| == 0 {
      // The means are NaN here; nothing reads them before the empty sum below is found zero.
      return Err(SameWorkspaceCount);
    }
    assert |pts| > 0;
    var n := |xs| as real;
    var meanX, meanY := sumX / n, sumY / n;

    var sxx, sxy := CentredTotals(xs, ys, meanX, meanY);
    NoSpreadIsSameX(pts);
    if sxx == 0.0 {
      return Err(SameWorkspaceCount);
    }

    var slope := sxy / sxx;
    var base := meanY - slope * meanX;
    var ssRes, ssTot := ResidualTotals(xs, ys, base, slope, meanY);
    var rSquared := 1.0;
    if ssTot > 0.0 {
      rSquared := 1.0 - ssRes / ssTot;
    }
    r := Ok(Coefficients(base, slope, rSquared));
    CentredLineIsStrictlyBest(pts, r.value, sxx, sxy);
  }

  /** Whenever the points differ in x there is a line to find. */
  lemma {:induction false} SomeLine(pts: seq<Point>) returns (c: Coefficients)
    requires !SameX(pts)
    ensures IsLeastSquares(pts, c)
  {
    assert |pts| > 0;
    NoSpreadIsSameX(pts);
    var sxx, sxy := Dot(pts, CentredX(pts), CentredX(pts)), Dot(pts, CentredX(pts), CentredY(pts));
    var slope := sxy / sxx;
    var base := MeanOf(pts, Y) - slope * MeanOf(pts, X);
    var best, flat := SquaredError(pts, base, slope), Variation(pts);
    c := Coefficients(base, slope, if flat > 0.0 then 1.0 - best / flat else 1.0);
    CentredLineIsStrictlyBest(pts, c, sxx, sxy);
  }

  lemma {:induction false} CentredLineIsStrictlyBest(pts: seq<Point>, c: Coefficients, sxx: real, sxy: real)
    requires |pts| > 0 && sxx != 0.0
    requires sxx == Dot(pts, CentredX(pts), CentredX(pts)) && sxy == Dot(pts, CentredX(pts), CentredY(pts))
    requires c.perWorkspace == sxy / sxx && c.base == MeanOf(pts, Y) - c.perWorkspace * MeanOf(pts, X)
    ensures StrictlyBest(pts, c)
  {
    NoSpreadIsSameX(pts);
    assert c.perWorkspace * sxx == sxy;
    CentredLineIsNormal(pts, c.base, c.perWorkspace);
    forall b, m | b != c.base || m != c.perWorkspace
      ensures SquaredError(pts, c.base, c.perWorkspace) < SquaredError(pts, b, m)
    {
      NormalIsBest(pts, c.base, c.perWorkspace, b, m);
    }
  }

  datatype Number = NaN | Number(value: real)

  method RawTotals(xs: seq<real>, ys: seq<real>)
    returns (sumX: real, sumY: real, sumXY: real, sumXX: real)
    requires |xs| == |ys|
    ensures sumX == Dot(Points(xs, ys), X, ONE) && sumY == Dot(Points(xs, ys), Y, ONE)
    ensures sumXY == Dot(Points(xs, ys), X, Y) && sumXX == Dot(Points(xs, ys), X, X)
  {
    ghost var pts := Points(xs, ys);
    sumX, sumY, sumXY, sumXX := 0.0, 0.0, 0.0, 0.0;
    for i := 0 to |xs|
      invariant sumX == Dot(pts[..i], X, ONE) && sumY == Dot(pts[..i], Y, ONE)
      invariant sumXY == Dot(pts[..i], X, Y) && sumXX == Dot(pts[..i], X, X)
    {
      DotStep(pts, i, X, ONE);
      DotStep(pts, i, Y, ONE);
      DotStep(pts, i, X, Y);
      DotStep(pts, i, X, X);
      var x, y := xs[i], ys[i];
      assert X.At(pts[i]) == x && Y.At(pts[i]) == y && ONE.At(pts[i]) == 1.0;
      sumX := sumX + x;
      sumY := sumY + y;
      sumXY := sumXY + x * y;
      sumXX := sumXX + x * x;
    }
    assert pts[..|xs|] == pts;
  }

  /** The sweep's slope, from raw sums rather than centred ones: NaN exactly when
      `LeastSquares` reports no trend, and otherwise the slope `LeastSquares` finds. */
  method PerWorkspace(xs: seq<real>, ys: seq<real>) returns (r: Number)
    requires |xs| == |ys|
    ensures r.NaN? <==> SameX(Points(xs, ys))
    ensures r.Number? ==> exists c :: IsLeastSquares(Points(xs, ys), c) && r.value == c.perWorkspace
  {
    ghost var pts := Points(xs, ys);
    var n := |xs| as real;
    if n < 2.0 {
      return NaN;
    }
    var sumX, sumY, sumXY, sumXX := RawTotals(xs, ys);
    var denominator := n * sumXX - sumX * sumX;
    RawDenominator(pts, n, sumX, sumXX);
    if denominator == 0.0 {
      return NaN;
    }
    var slope := (n * sumXY - sumX * sumY) / denominator;
    RawSlopeIsBest(pts, slope, n, sumX, sumY, sumXX, sumXY);
    return Number(slope);
  }

  lemma QuotientTimes(a: real, b: real)
    requires b != 0.0
    ensures (a / b) * b == a
  {
  }

  lemma {:induction false} RawDenominator(pts: seq<Point>, n: real, sx: real, sxx: real)
    requires |pts| > 0 && n == |pts| as real && sx == Dot(pts, X, ONE) && sxx == Dot(pts, X, X)
    ensures n * sxx - sx * sx == 0.0 <==> SameX(pts)
  {
    var mx := MeanOf(pts, X);
    CentredSums(pts);
    NoSpreadIsSameX(pts);
    MeanTimesCount(pts, X);
    ScaleByCount(n, sxx, mx, sx, sx);
    if n * sxx - sx * sx == 0.0 { CancelCount(n, sxx - mx * sx, 0.0); }
  }

  lemma ScaleByCount(n: real, s: real, mean: real, total: real, t: real)
    requires n * mean == total
    ensures n * (s - mean * t) == n * s - total * t
  {
    assert n * (mean * t) == (n * mean) * t;
  }

  lemma {:induction false} RawSlopeIsCentred(pts: seq<Point>, slope: real, n: real, sx: real, sy: real,
      sxx: real, sxy: real)
    requires |pts| > 0 && n == |pts| as real
    requires sx == Dot(pts, X, ONE) && sy == Dot(pts, Y, ONE) && sxx == Dot(pts, X, X) && sxy == Dot(pts, X, Y)
    requires slope * (n * sxx - sx * sx) == n * sxy - sx * sy
    ensures slope * Dot(pts, CentredX(pts), CentredX(pts)) == Dot(pts, CentredX(pts), CentredY(pts))
  {
    var mx, my := MeanOf(pts, X), MeanOf(pts, Y);
    assert n * mx == sx && n * my == sy by { MeanTimesCount(pts, X); MeanTimesCount(pts, Y); }
    RawAlgebra(n, mx, my, sx, sy, sxx, sxy, slope);
    CentredSums(pts);
  }

  lemma RawAlgebra(n: real, mx: real, my: real, sx: real, sy: real, sxx: real, sxy: real,
      slope: real)
    requires n != 0.0 && n * mx == sx && n * my == sy
    requires slope * (n * sxx - sx * sx) == n * sxy - sx * sy
    ensures slope * (sxx - mx * sx) == sxy - my * sx
  {
    ScaleByCount(n, sxx, mx, sx, sx);
    ScaleByCount(n, sxy, my, sy, sx);
    ScaledEquation(n, slope, sxx - mx * sx, sxy - my * sx);
  }

  lemma {:induction false} RawSlopeIsBest(pts: seq<Point>, slope: real, n: real, sx: real, sy: real, sxx: real,
      sxy: real)
    requires !SameX(pts) && n == |pts| as real && n * sxx - sx * sx != 0.0
    requires sx == Dot(pts, X, ONE) && sy == Dot(pts, Y, ONE) && sxx == Dot(pts, X, X) && sxy == Dot(pts, X, Y)
    requires slope == (n * sxy - sx * sy) / (n * sxx - sx * sx)
    ensures exists c :: IsLeastSquares(pts, c) && slope == c.perWorkspace
  {
    var base := MeanOf(pts, Y) - slope * MeanOf(pts, X);
    assert |pts| > 0;
    QuotientTimes(n * sxy - sx * sy, n * sxx - sx * sx);
    RawSlopeIsCentred(pts, slope, n, sx, sy, sxx, sxy);
    CentredLineIsNormal(pts, base, slope);
    var c := SomeLine(pts);
    if slope != c.perWorkspace {
      NormalIsBest(pts, base, slope, c.base, c.perWorkspace);
    }
  }

  lemma ScaledEquation(n: real, k: real, a: real, b: real)
    requires n != 0.0 && k * (n * a) == n * b
    ensures k * a == b
  {
    assert n * (k * a) == k * (n * a);
    CancelCount(n, k * a, b);
  }

  // ----- What the figures mean -----

  lemma {:induction false} FitIsUnique(pts: seq<Point>, c: Coefficients, d: Coefficients)
    requires IsLeastSquares(pts, c) && IsLeastSquares(pts, d)
    ensures c == d
  {
    assert !(SquaredError(pts, c.base, c.perWorkspace) < SquaredError(pts, d.base, d.perWorkspace)
          && SquaredError(pts, d.base, d.perWorkspace) < SquaredError(pts, c.base, c.perWorkspace));
  }

  lemma {:induction false} DotPermuted(a: seq<Point>, b: seq<Point>, f: Form, g: Form)
    requires multiset(a) == multiset(b)
    ensures Dot(a, f, g) == Dot(b, f, g) && |a| == |b|
  {
    InnerPermuted(a, b, f.At, g.At);
    assert |a| == |multiset(a)| && |b| == |multiset(b)|;
  }

  lemma {:induction false} FitIgnoresOrder(a: seq<Point>, b: seq<Point>, c: Coefficients)
    requires multiset(a) == multiset(b) && IsLeastSquares(a, c)
    ensures IsLeastSquares(b, c)
  {
    DotPermuted(a, b, Y, ONE);
    assert MeanOf(a, Y) == MeanOf(b, Y);
    forall base, slope ensures SquaredError(a, base, slope) == SquaredError(b, base, slope) {
      DotPermuted(a, b, Residual(base, slope), Residual(base, slope));
    }
    assert Variation(a) == Variation(b);
    assert StrictlyBest(b, c);
  }

  lemma {:induction false} ErrorIsZeroOnLine(pts: seq<Point>, base: real, slope: real)
    ensures SquaredError(pts, base, slope) >= 0.0
    ensures SquaredError(pts, base, slope) == 0.0 <==> forall p :: p in pts ==> p.y == base + slope * p.x
  {
    var r := Residual(base, slope);
    InnerSquare(pts, r.At);
    assert forall p :: r.At(p) == 0.0 <==> p.y == base + slope * p.x;
  }

  /** R-squared lies in [0, 1] and is 1 exactly when the line passes through every point. */
  lemma {:induction false} RSquaredMeaning(pts: seq<Point>, c: Coefficients)
    requires IsLeastSquares(pts, c)
    ensures 0.0 <= c.rSquared <= 1.0
    ensures c.rSquared == 1.0 <==> forall p :: p in pts ==> p.y == c.base + c.perWorkspace * p.x
  {
    var best, flat := SquaredError(pts, c.base, c.perWorkspace), Variation(pts);
    ErrorIsZeroOnLine(pts, c.base, c.perWorkspace);
    ErrorIsZeroOnLine(pts, MeanOf(pts, Y), 0.0);
    assert best <= flat;
    if flat > 0.0 { FractionBounds(best, flat); }
  }

  lemma FractionBounds(a: real, b: real)
    requires 0.0 <= a <= b && 0.0 < b
    ensures 0.0 <= a / b <= 1.0
    ensures a / b == 0.0 <==> a == 0.0
  {
    assert (a / b) * b == a;
  }

  /** Points on a line are fitted by that line. */
  lemma {:induction false} LineIsRecovered(pts: seq<Point>, c: Coefficients, base: real, slope: real)
    requires IsLeastSquares(pts, c)
    requires forall p :: p in pts ==> p.y == base + slope * p.x
    ensures c == Coefficients(base, slope, 1.0)
  {
    ErrorIsZeroOnLine(pts, base, slope);
    ErrorIsZeroOnLine(pts, c.base, c.perWorkspace);
    RSquaredMeaning(pts, c);
    assert !(SquaredError(pts, c.base, c.perWorkspace) < SquaredError(pts, base, slope));
  }
}
