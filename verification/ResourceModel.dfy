/** The resource model of `internal/scaleharness`: fitting a sweep's measurements, predicting
    from the fit, and validating it by holding each measurement out. */
module ResourceModel {
  import opened Options
  import opened Ordering
  import opened Regression
  import opened Sums

  datatype Measurement = Measurement(
    workspaces: int, heapBytes: nat, goroutines: int, processBytes: nat, stackBytes: nat)

  datatype Profile = Profile(name: string, objectsPerWorkspace: int, eventsPerWorkspacePerSecond: real) {
    predicate Valid() {
      && name != ""
      && objectsPerWorkspace >= 0
      && eventsPerWorkspacePerSecond >= 0.0
      && !(objectsPerWorkspace == 0 && eventsPerWorkspacePerSecond > 0.0)
    }
  }

  datatype Run = Run(service: string, profile: Profile, mode: string,
                     measurements: seq<Measurement>, listenersPerWorkspace: int) {
    predicate Valid() {
      service != "" && (mode == "synthetic" || mode == "observed") && profile.Valid()
    }
    function MeasuredShape(): Shape {
      Shape(profile.name, listenersPerWorkspace, profile.objectsPerWorkspace,
                  profile.eventsPerWorkspacePerSecond)
    }
  }

  datatype Shape = Shape(profile: string, listenersPerWorkspace: int, objectsPerWorkspace: int,
                         eventsPerWorkspacePerSecond: real)

  datatype Regime = Regime(shape: Shape, mode: string, service: string,
                           minWorkspaces: int, maxWorkspaces: int, points: nat)

  datatype Model = Model(regime: Regime, heap: Coefficients, goroutines: Coefficients,
                         process: Option<Coefficients>, stack: Option<Coefficients>)

  datatype FitError = InvalidRun | NoLoadMode | TooFewPoints | NoTrend | CannotPredict | ShapeNotMeasured

  const MIN_FIT_POINTS := 3

  // ----- Fitting -----

  datatype Quantity = Heap | Goroutines | Process | Stack {
    function Of(m: Measurement): real {
      match this
      case Heap => m.heapBytes as real
      case Goroutines => m.goroutines as real
      case Process => m.processBytes as real
      case Stack => m.stackBytes as real
    }
    function PointOf(m: Measurement): Point { Point(m.workspaces as real, Of(m)) }
  }

  function PointsOf(ms: seq<Measurement>, q: Quantity): seq<Point> {
    Map(ms, q.PointOf)
  }

  ghost predicate SameCount(ms: seq<Measurement>) {
    forall m, n :: m in ms && n in ms ==> m.workspaces == n.workspaces
  }

  ghost predicate HaveProcess(ms: seq<Measurement>) {
    forall m :: m in ms ==> m.processBytes != 0
  }

  /** What `Fit` owes for a run: an error for a run that cannot be fitted, and otherwise
      the least-squares line of every quantity the run recorded, with the regime. */
  ghost predicate Fitted(run: Run, r: Outcome<Model, FitError>) {
    var ms := run.measurements;
    if !run.Valid() then r == Err(InvalidRun)
    else if |ms| < MIN_FIT_POINTS then r == Err(TooFewPoints)
    else if SameCount(ms) then r == Err(NoTrend)
    else r.Ok? && FittedModel(run, r.value)
  }

  /** Which runs are refused, and as what. */
  lemma {:induction false} FitFailsExactlyWhen(run: Run, r: Outcome<Model, FitError>)
    requires Fitted(run, r)
    ensures r == Err(InvalidRun) <==>
              || run.service == "" || run.mode !in ["synthetic", "observed"] || run.profile.name == ""
              || run.profile.objectsPerWorkspace < 0 || run.profile.eventsPerWorkspacePerSecond < 0.0
              || (run.profile.objectsPerWorkspace == 0 && run.profile.eventsPerWorkspacePerSecond != 0.0)
    ensures r.Err? && r != Err(InvalidRun) <==>
              r != Err(InvalidRun) && (|run.measurements| < 3 || SameCount(run.measurements))
  {
  }

  ghost predicate FittedModel(run: Run, m: Model) {
    var ms := run.measurements;
    && m.regime.shape == run.MeasuredShape() && m.regime.mode == run.mode && m.regime.service == run.service
    && m.regime.points == |ms|
    && IsRange(ms, m.regime.minWorkspaces, m.regime.maxWorkspaces)
    && IsLeastSquares(PointsOf(ms, Heap), m.heap)
    && IsLeastSquares(PointsOf(ms, Goroutines), m.goroutines)
    && (m.process.Some? <==> HaveProcess(ms)) && (m.stack.Some? <==> HaveProcess(ms))
    && (m.process.Some? ==> IsLeastSquares(PointsOf(ms, Process), m.process.value))
    && (m.stack.Some? ==> IsLeastSquares(PointsOf(ms, Stack), m.stack.value))
  }

  ghost predicate IsRange(ms: seq<Measurement>, low: int, high: int) {
    && (exists m :: m in ms && m.workspaces == low)
    && (exists m :: m in ms && m.workspaces == high)
    && (forall m :: m in ms ==> low <= m.workspaces <= high)
  }

  predicate FewerWorkspaces(a: Measurement, b: Measurement) { a.workspaces < b.workspaces }

  lemma {:induction false} PointsSameX(ms: seq<Measurement>, q: Quantity)
    ensures SameX(PointsOf(ms, q)) <==> SameCount(ms)
  {
    var pts := PointsOf(ms, q);
    if SameX(pts) {
      forall m, n | m in ms && n in ms ensures m.workspaces == n.workspaces {
        var i :| 0 <= i < |ms| && ms[i] == m;
        var j :| 0 <= j < |ms| && ms[j] == n;
        assert pts[i] in pts && pts[j] in pts;
      }
    } else {
      var p, p' :| p in pts && p' in pts && p.x != p'.x;
      var i :| 0 <= i < |ms| && pts[i] == p;
      var j :| 0 <= j < |ms| && pts[j] == p';
      assert ms[i] in ms && ms[j] in ms;
    }
  }

  /** A least-squares fit of one quantity of the sorted measurements fits the measurements
      in the order the run holds them. */
  method FitQuantity(sorted: seq<Measurement>, q: Quantity, ghost ms: seq<Measurement>)
    returns (r: Outcome<Coefficients, NoTrend>)
    requires multiset(sorted) == multiset(ms)
    ensures r.Err? <==> SameCount(ms)
    ensures r.Ok? ==> IsLeastSquares(PointsOf(ms, q), r.value)
  {
    var xs, ys: seq<real> := [], [];
    for i := 0 to |sorted|
      invariant |xs| == |ys| == i
      invariant forall j :: 0 <= j < i ==> xs[j] == sorted[j].workspaces as real && ys[j] == q.Of(sorted[j])
    {
      xs := xs + [sorted[i].workspaces as real];
      ys := ys + [q.Of(sorted[i])];
    }
    assert Points(xs, ys) == PointsOf(sorted, q);
    r := LeastSquares(xs, ys);
    PointsSameX(sorted, q);
    SameMembers(sorted, ms);
    MapPermuted(sorted, ms, q.PointOf);
    if r.Ok? { FitIgnoresOrder(PointsOf(sorted, q), PointsOf(ms, q), r.value); }
  }

  method Fit(run: Run) returns (r: Outcome<Model, FitError>)
    ensures Fitted(run, r)
  {
    if !run.Valid() {
      return Err(InvalidRun);
    }
    // The source tests the load mode again here; an empty one has failed validation already.
    if run.mode == "" {
      return Err(NoLoadMode);
    }
    if |run.measurements| < MIN_FIT_POINTS {
      return Err(TooFewPoints);
    }
    var ms := SortFunc(run.measurements, FewerWorkspaces);
    SameMembers(ms, run.measurements);

    var haveProcess := true;
    for i := 0 to |ms|
      invariant haveProcess <==> forall j :: 0 <= j < i ==> ms[j].processBytes != 0
    {
      if ms[i].processBytes == 0 {
        haveProcess := false;
      }
    }
    assert haveProcess <==> HaveProcess(run.measurements);

    var heapFit := FitQuantity(ms, Heap, run.measurements);
    if heapFit.Err? {
      return Err(NoTrend);
    }
    var goroutineFit := FitQuantity(ms, Goroutines, run.measurements);
    if goroutineFit.Err? {
      return Err(NoTrend);
    }
    var processFit, stackFit: Option<Coefficients> := None, None;
    if haveProcess {
      var p := FitQuantity(ms, Process, run.measurements);
      if p.Err? {
        return Err(NoTrend);
      }
      var s := FitQuantity(ms, Stack, run.measurements);
      if s.Err? {
        return Err(NoTrend);
      }
      processFit, stackFit := Some(p.value), Some(s.value);
    }
    SortedEnds(ms);
    return Ok(Model(Regime(run.MeasuredShape(), run.mode, run.service, ms[0].workspaces, ms[|ms| - 1].workspaces, |ms|),
                    heapFit.value, goroutineFit.value, processFit, stackFit));
  }

  lemma {:induction false} SortedEnds(ms: seq<Measurement>)
    requires |ms| > 0 && Sorted(FewerWorkspaces, ms)
    ensures IsRange(ms, ms[0].workspaces, ms[|ms| - 1].workspaces)
  {
    assert ms[0] in ms && ms[|ms| - 1] in ms;
    forall m | m in ms ensures ms[0].workspaces <= m.workspaces <= ms[|ms| - 1].workspaces {
      var i :| 0 <= i < |ms| && ms[i] == m;
      assert i > 0 ==> !FewerWorkspaces(ms[i], ms[0]);
      assert i < |ms| - 1 ==> !FewerWorkspaces(ms[|ms| - 1], ms[i]);
    }
  }

  /** Whatever order the measurements arrive in, and whatever the unstable sort does with
      equal counts, the outcome of `Fit` is the same. */
  lemma {:induction false} FitDependsOnMeasurementsOnly(run: Run, other: Run, r: Outcome<Model, FitError>,
      s: Outcome<Model, FitError>)
    requires other == run.(measurements := other.measurements)
    requires multiset(run.measurements) == multiset(other.measurements)
    requires Fitted(run, r) && Fitted(other, s)
    ensures r == s
  {
    var a, b := run.measurements, other.measurements;
    SameMembers(a, b);
    assert other.Valid() == run.Valid() && other.MeasuredShape() == run.MeasuredShape();
    assert SameCount(a) <==> SameCount(b);
    if r.Ok? {
      var m, n := r.value, s.value;
      SameFit(a, b, Heap, m.heap, n.heap);
      SameFit(a, b, Goroutines, m.goroutines, n.goroutines);
      if HaveProcess(a) {
        SameFit(a, b, Process, m.process.value, n.process.value);
        SameFit(a, b, Stack, m.stack.value, n.stack.value);
      }
      SameRange(a, b, m.regime, n.regime);
    }
  }

  lemma {:induction false} SameRange(a: seq<Measurement>, b: seq<Measurement>, m: Regime, n: Regime)
    requires forall x :: x in a <==> x in b
    requires IsRange(a, m.minWorkspaces, m.maxWorkspaces) && IsRange(b, n.minWorkspaces, n.maxWorkspaces)
    ensures m.minWorkspaces == n.minWorkspaces && m.maxWorkspaces == n.maxWorkspaces
  {
  }

  lemma {:induction false} SameFit(a: seq<Measurement>, b: seq<Measurement>, q: Quantity, c: Coefficients,
      d: Coefficients)
    requires multiset(a) == multiset(b)
    requires IsLeastSquares(PointsOf(a, q), c) && IsLeastSquares(PointsOf(b, q), d)
    ensures c == d
  {
    MapPermuted(a, b, q.PointOf);
    FitIgnoresOrder(PointsOf(a, q), PointsOf(b, q), c);
    FitIsUnique(PointsOf(b, q), c, d);
  }

  // ----- Predicting -----

  const DEFAULT_GOGC := 100
  const DEFAULT_NON_HEAP_BYTES: nat := 134217728

  function ResidentBytes(liveHeap: real, gogc: int, nonHeap: nat): real {
    var g := if gogc <= 0 then DEFAULT_GOGC else gogc;
    liveHeap * (1.0 + g as real / 100.0) + nonHeap as real
  }

  datatype Prediction = Prediction(
    workspaces: int, mode: string, heapBytes: real, residentBytes: real, residentMeasured: bool,
    stackBytes: real, goroutines: real, extrapolated: bool, extrapolationFactor: real)

  function Predict(m: Model, shape: Shape, workspaces: int): Outcome<Prediction, FitError> {
    if workspaces <= 0 then Err(CannotPredict)
    else if shape != m.regime.shape then Err(ShapeNotMeasured)
    else
      var heap := m.heap.At(workspaces);
      var above := m.regime.maxWorkspaces > 0 && workspaces > m.regime.maxWorkspaces;
      var below := workspaces < m.regime.minWorkspaces;
      var factor :=
        if below then m.regime.minWorkspaces as real / workspaces as real
        else if above then workspaces as real / m.regime.maxWorkspaces as real
        else 1.0;
      Ok(Prediction(workspaces, m.regime.mode, heap,
        if m.process.Some? then m.process.value.At(workspaces)
        else ResidentBytes(heap, DEFAULT_GOGC, DEFAULT_NON_HEAP_BYTES),
        m.process.Some?,
        if m.stack.Some? then m.stack.value.At(workspaces) else 0.0,
        m.goroutines.At(workspaces), above || below, factor))
  }

  lemma {:induction false} RatioAboveOne(a: int, b: int)
    requires 0 < b < a
    ensures a as real / b as real > 1.0
  {
  }

  /** A prediction answers only the measured shape. It calls a fleet extrapolated, with a
      factor above one, exactly when the fleet is outside the measured range - provided the
      range reaches a positive count; otherwise it never does. */
  lemma {:induction false} PredictionStaysInRegime(run: Run, m: Model, shape: Shape, workspaces: int)
    requires FittedModel(run, m)
    ensures Predict(m, shape, workspaces).Ok? <==>
              && workspaces > 0 && shape.profile == run.profile.name
              && shape.listenersPerWorkspace == run.listenersPerWorkspace
              && shape.objectsPerWorkspace == run.profile.objectsPerWorkspace
              && shape.eventsPerWorkspacePerSecond == run.profile.eventsPerWorkspacePerSecond
    ensures Predict(m, shape, workspaces).Ok? ==>
      var p := Predict(m, shape, workspaces).value;
      var outside := forall x, y :: x in run.measurements && y in run.measurements ==>
                       !(x.workspaces <= workspaces <= y.workspaces);
      && p.workspaces == workspaces && p.mode == run.mode
      && (p.extrapolated <==> p.extrapolationFactor > 1.0)
      && (!p.extrapolated ==> p.extrapolationFactor == 1.0)
      && outside == (p.extrapolated || m.regime.maxWorkspaces <= 0)
      && (m.regime.maxWorkspaces <= 0 ==> !p.extrapolated)
  {
    if Predict(m, shape, workspaces).Ok? {
      if workspaces < m.regime.minWorkspaces { RatioAboveOne(m.regime.minWorkspaces, workspaces); }
      if 0 < m.regime.maxWorkspaces < workspaces { RatioAboveOne(workspaces, m.regime.maxWorkspaces); }
    }
  }

  lemma {:induction false} FactorOf(m: Model, workspaces: int)
    requires workspaces > 0 && m.regime.minWorkspaces <= m.regime.maxWorkspaces
    ensures Predict(m, m.regime.shape, workspaces).Ok?
    ensures var factor := Predict(m, m.regime.shape, workspaces).value.extrapolationFactor;
      && (workspaces < m.regime.minWorkspaces ==> factor * workspaces as real == m.regime.minWorkspaces as real)
      && (0 < m.regime.maxWorkspaces < workspaces ==>
            factor * m.regime.maxWorkspaces as real == workspaces as real)
  {
    if workspaces < m.regime.minWorkspaces { RatioTimes(m.regime.minWorkspaces, workspaces); }
    else if 0 < m.regime.maxWorkspaces < workspaces { RatioTimes(workspaces, m.regime.maxWorkspaces); }
  }

  /** How far outside: the lowest count measured over the fleet, or the fleet over the highest. */
  lemma {:induction false} FactorMeaning(run: Run, m: Model, workspaces: int, nearest: Measurement)
    requires FittedModel(run, m) && workspaces > 0 && nearest in run.measurements
    ensures Predict(m, m.regime.shape, workspaces).Ok?
    ensures var factor := Predict(m, m.regime.shape, workspaces).value.extrapolationFactor;
      && (workspaces < nearest.workspaces
          && (forall x :: x in run.measurements ==> nearest.workspaces <= x.workspaces) ==>
            factor * workspaces as real == nearest.workspaces as real)
      && (0 < nearest.workspaces < workspaces
          && (forall x :: x in run.measurements ==> x.workspaces <= nearest.workspaces) ==>
            factor * nearest.workspaces as real == workspaces as real)
  {
    FactorOf(m, workspaces);
    EndsOfRange(run.measurements, m.regime.minWorkspaces, m.regime.maxWorkspaces, nearest);
  }

  lemma {:induction false} EndsOfRange(ms: seq<Measurement>, low: int, high: int, end: Measurement)
    requires IsRange(ms, low, high) && end in ms
    ensures low <= high
    ensures (forall x :: x in ms ==> end.workspaces <= x.workspaces) <==> end.workspaces == low
    ensures (forall x :: x in ms ==> x.workspaces <= end.workspaces) <==> end.workspaces == high
  {
  }

  lemma RatioTimes(a: int, b: int)
    requires b > 0
    ensures a as real / b as real * b as real == a as real
  {}

  lemma {:induction false} ThreeCounts(ms: seq<Measurement>)
    requires ms == [Measurement(-2, 1, 1, 0, 0), Measurement(-1, 2, 2, 0, 0), Measurement(0, 3, 3, 0, 0)]
    ensures !SameCount(ms) && !HaveProcess(ms) && IsRange(ms, -2, 0)
  {
    assert ms[0] in ms && ms[2] in ms;
    assert ms[0].workspaces == -2 && ms[0].processBytes == 0 && ms[2].workspaces == 0;
  }

  /** Counts of -2, -1 and 0 give a model that calls no fleet extrapolated, although it was fitted
      below every fleet there is. */
  lemma {:induction false} NothingIsExtrapolated(run: Run, workspaces: int) returns (m: Model)
    requires run.Valid() && workspaces > 0
    requires run.measurements == [Measurement(-2, 1, 1, 0, 0), Measurement(-1, 2, 2, 0, 0), Measurement(0, 3, 3, 0, 0)]
    ensures Fitted(run, Ok(m)) && m.regime.maxWorkspaces == 0 < workspaces
    ensures !Predict(m, run.MeasuredShape(), workspaces).value.extrapolated
  {
    ThreeCounts(run.measurements);
    m := ModelOfThree(run, run.measurements);
    assert IsRange(run.measurements, m.regime.minWorkspaces, m.regime.maxWorkspaces);
  }

  lemma {:induction false} ModelOfThree(run: Run, ms: seq<Measurement>) returns (m: Model)
    requires ms == run.measurements && |ms| == 3 && !SameCount(ms) && !HaveProcess(ms) && IsRange(ms, -2, 0)
    ensures FittedModel(run, m)
  {
    PointsSameX(ms, Heap);
    PointsSameX(ms, Goroutines);
    var heap := SomeLine(PointsOf(ms, Heap));
    var goroutines := SomeLine(PointsOf(ms, Goroutines));
    m := Model(Regime(run.MeasuredShape(), run.mode, run.service, -2, 0, 3), heap, goroutines, None, None);
  }

  // ----- Holding measurements out -----

  datatype Fraction = Finite(value: real) | Infinite

  function Abs(x: real): real { if x < 0.0 then -x else x }

  function RelativeError(measured: real, predicted: real): (r: Fraction)
    ensures r == Finite(0.0) <==> measured == predicted
    ensures r.Infinite? <==> measured == 0.0 && predicted != 0.0
    ensures r.Finite? ==> r.value * Abs(measured) == Abs(predicted - measured)
  {
    if measured == 0.0 then
      if predicted == 0.0 then Finite(0.0) else Infinite
    else
      FractionOfNonzero(Abs(predicted - measured), Abs(measured));
      Finite(Abs(predicted - measured) / Abs(measured))
  }

  lemma FractionOfNonzero(a: real, b: real)
    requires b > 0.0
    ensures a / b * b == a
    ensures a / b == 0.0 <==> a == 0.0
  {
    assert (a / b) * b == a;
  }

  datatype Validation = Validation(
    workspaces: int,
    measuredHeap: real, predictedHeap: real, heapError: Fraction,
    measuredGoroutines: real, predictedGoroutines: real, goroutineError: Fraction,
    extrapolated: bool)

  function Without<T>(s: seq<T>, i: nat): (r: seq<T>)
    requires i < |s|
  {
    s[..i] + s[i + 1..]
  }

  function HoldingOut(run: Run, ms: seq<Measurement>, i: nat): Run
    requires i < |ms|
  {
    run.(measurements := Without(ms, i))
  }

  function Validated(held: Measurement, m: Model): Validation {
    var heap, goroutines := m.heap.At(held.workspaces), m.goroutines.At(held.workspaces);
    Validation(held.workspaces,
      held.heapBytes as real, heap, RelativeError(held.heapBytes as real, heap),
      held.goroutines as real, goroutines, RelativeError(held.goroutines as real, goroutines),
      held.workspaces < m.regime.minWorkspaces || held.workspaces > m.regime.maxWorkspaces)
  }

  /** v is the verdict on ms[i] of the model fitted to the other measurements. */
  ghost predicate Judges(run: Run, ms: seq<Measurement>, i: nat, v: Validation)
    requires i < |ms|
  {
    exists m :: Fitted(HoldingOut(run, ms, i), Ok(m)) && v == Validated(ms[i], m)
  }

  method HoldOneOut(run: Run, ms: seq<Measurement>, i: nat) returns (r: Outcome<Validation, FitError>)
    requires i < |ms|
    ensures r.Ok? ==> Judges(run, ms, i, r.value)
    ensures r.Err? ==> Fitted(HoldingOut(run, ms, i), Err(r.error))
  {
    var m := Fit(HoldingOut(run, ms, i));
    if m.Err? {
      return Err(m.error);
    }
    return Ok(Validated(ms[i], m.value));
  }

  /** Every verdict in out is the one owed on the measurement in its place. */
  ghost predicate AllJudged(run: Run, ms: seq<Measurement>, out: seq<Validation>)
    requires |out| <= |ms|
  {
    out == [] || (AllJudged(run, ms, out[..|out| - 1]) && Judges(run, ms, |out| - 1, out[|out| - 1]))
  }

  lemma {:induction false} AllJudgedAt(run: Run, ms: seq<Measurement>, out: seq<Validation>, i: nat)
    requires |out| <= |ms| && i < |out| && AllJudged(run, ms, out)
    ensures Judges(run, ms, i, out[i])
  {
    if i < |out| - 1 { AllJudgedAt(run, ms, out[..|out| - 1], i); }
  }

  /** The verdicts on measurements in workspace order, or the error of the first reduced fit
      that fails. */
  ghost predicate HeldOut(run: Run, ms: seq<Measurement>, r: Outcome<seq<Validation>, FitError>) {
    && multiset(ms) == multiset(run.measurements) && Sorted(FewerWorkspaces, ms)
    && (|ms| <= MIN_FIT_POINTS ==> r == Err(TooFewPoints))
    && (r.Ok? ==> |r.value| == |ms| && AllJudged(run, ms, r.value))
    && (r.Err? && |ms| > MIN_FIT_POINTS ==> exists i :: 0 <= i < |ms| && Fitted(HoldingOut(run, ms, i), Err(r.error)))
  }

  method HoldOut(run: Run) returns (r: Outcome<seq<Validation>, FitError>)
    ensures exists ms :: HeldOut(run, ms, r)
  {
    var sorted := SortFunc(run.measurements, FewerWorkspaces);
    if |run.measurements| < MIN_FIT_POINTS + 1 {
      r := Err(TooFewPoints);
    } else {
      r := HoldEachOut(run, sorted);
    }
    assert HeldOut(run, sorted, r);
  }

  /** The model of the others, for each measurement in turn, up to the first that has none. */
  method HoldEachOut(run: Run, ms: seq<Measurement>) returns (r: Outcome<seq<Validation>, FitError>)
    ensures r.Ok? ==> |r.value| == |ms| && AllJudged(run, ms, r.value)
    ensures r.Err? ==> exists i :: 0 <= i < |ms| && Fitted(HoldingOut(run, ms, i), Err(r.error))
  {
    var out: seq<Validation> := [];
    for i := 0 to |ms|
      invariant |out| == i && AllJudged(run, ms, out)
    {
      var v := HoldOneOut(run, ms, i);
      if v.Err? {
        return Err(v.error);
      }
      assert (out + [v.value])[..i] == out;
      out := out + [v.value];
    }
    return Ok(out);
  }

  /** Holding out fails exactly for too few measurements, for a run that is not valid, and when
      without some one measurement all counts agree. */
  lemma {:induction false} HoldOutFailsExactlyWhen(run: Run, ms: seq<Measurement>, r: Outcome<seq<Validation>,
      FitError>)
    requires HeldOut(run, ms, r)
    ensures r.Err? <==>
              || |ms| <= MIN_FIT_POINTS || !run.Valid()
              || exists i :: 0 <= i < |ms| && SameCount(Without(ms, i))
  {
    if |ms| > MIN_FIT_POINTS {
      if r.Ok? {
        forall i | 0 <= i < |ms| ensures run.Valid() && !SameCount(Without(ms, i)) {
          AllJudgedAt(run, ms, r.value, i);
        }
      } else {
        var i :| 0 <= i < |ms| && Fitted(HoldingOut(run, ms, i), Err(r.error));
        assert !run.Valid() || SameCount(Without(ms, i));
      }
    }
  }

  ghost predicate DistinctCounts(ms: seq<Measurement>) {
    forall i, j :: 0 <= i < j < |ms| ==> ms[i].workspaces != ms[j].workspaces
  }

  lemma {:induction false} SortedDistinctly(ms: seq<Measurement>, sorted: seq<Measurement>)
    requires DistinctCounts(ms) && multiset(sorted) == multiset(ms) && Sorted(FewerWorkspaces, sorted)
    ensures StrictlySorted(FewerWorkspaces, sorted)
  {
    SameMembers(sorted, ms);
    forall i, j | 0 <= i < j < |sorted| ensures FewerWorkspaces(sorted[i], sorted[j]) {
      assert sorted[i] in sorted && sorted[j] in sorted;
      DistinctOnce(ms, sorted[i]);
      OccursOnce(sorted, i, j);
      assert !FewerWorkspaces(sorted[j], sorted[i]);
    }
  }

  lemma {:induction false} SameArrangement(ms: seq<Measurement>, a: seq<Measurement>, b: seq<Measurement>)
    requires DistinctCounts(ms) && multiset(a) == multiset(ms) && multiset(b) == multiset(ms)
    requires Sorted(FewerWorkspaces, a) && Sorted(FewerWorkspaces, b)
    ensures a == b && StrictlySorted(FewerWorkspaces, a)
  {
    SortedDistinctly(ms, a);
    SortedDistinctly(ms, b);
    SameMembers(a, b);
    StrictlySortedUnique(FewerWorkspaces, a, b);
  }

  /** On distinct counts the outcome, verdict by verdict, does not depend on the order of the
      measurements. */
  lemma {:induction false} HoldOutIgnoresOrder(run: Run, other: Run, ms: seq<Measurement>, ns: seq<Measurement>,
      r: Outcome<seq<Validation>, FitError>, s: Outcome<seq<Validation>, FitError>)
    requires other == run.(measurements := other.measurements)
    requires multiset(run.measurements) == multiset(other.measurements) && DistinctCounts(run.measurements)
    requires HeldOut(run, ms, r) && HeldOut(other, ns, s)
    ensures r == s
  {
    SameArrangement(run.measurements, ms, ns);
    SameOutcome(run, other, ms, r, s);
  }

  lemma {:induction false} SameOutcome(run: Run, other: Run, ms: seq<Measurement>,
      r: Outcome<seq<Validation>, FitError>, s: Outcome<seq<Validation>, FitError>)
    requires other == run.(measurements := other.measurements)
    requires HeldOut(run, ms, r) && HeldOut(other, ms, s) && StrictlySorted(FewerWorkspaces, ms)
    ensures r == s
  {
    if |ms| > MIN_FIT_POINTS {
      NeverSameCount(ms);
      OnlyInvalidFails(run, ms, r);
      OnlyInvalidFails(other, ms, s);
      if r.Ok? { SameVerdicts(run, other, ms, r.value, s.value); }
    }
  }

  lemma {:induction false} OnlyInvalidFails(run: Run, ms: seq<Measurement>, r: Outcome<seq<Validation>, FitError>)
    requires HeldOut(run, ms, r) && |ms| > MIN_FIT_POINTS && forall i :: 0 <= i < |ms| ==> !SameCount(Without(ms, i))
    ensures r.Err? <==> !run.Valid()
    ensures r.Err? ==> r.error == InvalidRun
  {
    HoldOutFailsExactlyWhen(run, ms, r);
  }

  lemma {:induction false} SameVerdicts(run: Run, other: Run, ms: seq<Measurement>, a: seq<Validation>,
      b: seq<Validation>)
    requires other == run.(measurements := other.measurements) && |a| == |b| <= |ms|
    requires AllJudged(run, ms, a) && AllJudged(other, ms, b)
    ensures a == b
  {
    forall i | 0 <= i < |a| ensures a[i] == b[i] { SameVerdictAt(run, other, ms, a, b, i); }
  }

  lemma {:induction false} SameVerdictAt(run: Run, other: Run, ms: seq<Measurement>, a: seq<Validation>,
      b: seq<Validation>,
      i: nat)
    requires other == run.(measurements := other.measurements) && i < |a| == |b| <= |ms|
    requires AllJudged(run, ms, a) && AllJudged(other, ms, b)
    ensures a[i] == b[i]
  {
    AllJudgedAt(run, ms, a, i);
    AllJudgedAt(other, ms, b, i);
    SameVerdict(run, other, ms, i, a[i], b[i]);
  }

  lemma {:induction false} NeverSameCount(ms: seq<Measurement>)
    requires |ms| > MIN_FIT_POINTS && StrictlySorted(FewerWorkspaces, ms)
    ensures forall i :: 0 <= i < |ms| ==> !SameCount(Without(ms, i))
  {
    forall i | 0 <= i < |ms| ensures !SameCount(Without(ms, i)) {
      var rest := Without(ms, i);
      assert rest[0] in rest && rest[1] in rest;
      assert FewerWorkspaces(rest[0], rest[1]) by {
        assert rest[0] == (if i > 0 then ms[0] else ms[1]) && rest[1] == (if i > 1 then ms[1] else ms[2]);
        assert FewerWorkspaces(ms[0], ms[1]) && FewerWorkspaces(ms[1], ms[2]) && FewerWorkspaces(ms[0], ms[2]);
      }
    }
  }

  lemma {:induction false} SameVerdict(run: Run, other: Run, ms: seq<Measurement>, i: nat, v: Validation, w: Validation)
    requires other == run.(measurements := other.measurements) && i < |ms|
    requires Judges(run, ms, i, v) && Judges(other, ms, i, w)
    ensures v == w
  {
    var m :| Fitted(HoldingOut(run, ms, i), Ok(m)) && v == Validated(ms[i], m);
    var n :| Fitted(HoldingOut(other, ms, i), Ok(n)) && w == Validated(ms[i], n);
    assert HoldingOut(run, ms, i) == HoldingOut(other, ms, i);
    FitDependsOnMeasurementsOnly(HoldingOut(run, ms, i), HoldingOut(other, ms, i), Ok(m), Ok(n));
  }

  /** Every validation is of its own measurement, in workspace order. */
  lemma {:induction false} ValidationsFollowMeasurements(run: Run, ms: seq<Measurement>, out: seq<Validation>, i: nat)
    requires i < |out| <= |ms| && AllJudged(run, ms, out)
    ensures out[i].workspaces == ms[i].workspaces
    ensures out[i].measuredHeap == ms[i].heapBytes as real
    ensures out[i].measuredGoroutines == ms[i].goroutines as real
  {
    AllJudgedAt(run, ms, out, i);
  }

  ghost predicate OnLine(ms: seq<Measurement>, q: Quantity, base: real, slope: real) {
    forall m :: m in ms ==> q.Of(m) == base + slope * (m.workspaces as real)
  }

  lemma {:induction false} PointsOnLine(ms: seq<Measurement>, q: Quantity, base: real, slope: real)
    requires OnLine(ms, q, base, slope)
    ensures forall p :: p in PointsOf(ms, q) ==> p.y == base + slope * p.x
  {
    forall p | p in PointsOf(ms, q) ensures p.y == base + slope * p.x {
      var j :| 0 <= j < |ms| && PointsOf(ms, q)[j] == p;
      assert ms[j] in ms;
    }
  }

  /** The line a model has for a quantity. */
  function LineFor(m: Model, q: Quantity): Option<Coefficients> {
    match q
    case Heap => Some(m.heap)
    case Goroutines => Some(m.goroutines)
    case Process => m.process
    case Stack => m.stack
  }

  lemma {:induction false} FittedLine(run: Run, m: Model, q: Quantity)
    requires FittedModel(run, m)
    ensures q.Heap? || q.Goroutines? ==> LineFor(m, q).Some?
    ensures LineFor(m, q).Some? ==> IsLeastSquares(PointsOf(run.measurements, q), LineFor(m, q).value)
  {}

  /** Where a prediction shows each quantity. */
  function Shown(p: Prediction, q: Quantity): real {
    match q
    case Heap => p.heapBytes
    case Goroutines => p.goroutines
    case Process => p.residentBytes
    case Stack => p.stackBytes
  }

  lemma {:induction false} ShownIsTheLine(m: Model, workspaces: int, q: Quantity)
    requires workspaces > 0
    ensures Predict(m, m.regime.shape, workspaces).Ok?
    ensures LineFor(m, q).Some? ==>
              Shown(Predict(m, m.regime.shape, workspaces).value, q) == LineFor(m, q).value.At(workspaces)
  {}

  lemma {:induction false} LineOfLinearCost(ms: seq<Measurement>, q: Quantity, c: Coefficients, base: real, slope: real)
    requires IsLeastSquares(PointsOf(ms, q), c) && OnLine(ms, q, base, slope)
    ensures c == Coefficients(base, slope, 1.0)
  {
    PointsOnLine(ms, q, base, slope);
    LineIsRecovered(PointsOf(ms, q), c, base, slope);
  }

  lemma {:induction false} LinearQuantityIsProjected(run: Run, m: Model, workspaces: int, q: Quantity,
      base: real, slope: real)
    requires FittedModel(run, m) && workspaces > 0 && OnLine(run.measurements, q, base, slope)
    ensures Predict(m, m.regime.shape, workspaces).Ok?
    ensures LineFor(m, q).Some? ==>
              Shown(Predict(m, m.regime.shape, workspaces).value, q) == Coefficients(base, slope, 1.0).At(workspaces)
  {
    FittedLine(run, m, q);
    ShownIsTheLine(m, workspaces, q);
    if LineFor(m, q).Some? { LineOfLinearCost(run.measurements, q, LineFor(m, q).value, base, slope); }
  }

  // ----- What each line is of -----

  /** A figure of the measurements that lies on a line. */
  ghost predicate Linear(ms: seq<Measurement>, figure: Measurement -> real, base: real, slope: real) {
    forall m :: m in ms ==> figure(m) == base + slope * m.workspaces as real
  }

  lemma {:induction false} LinearFigureIsProjected(run: Run, m: Model, workspaces: int, q: Quantity,
      figure: Measurement -> real, base: real, slope: real)
    requires FittedModel(run, m) && workspaces > 0 && LineFor(m, q).Some?
    requires forall x :: figure(x) == q.Of(x)
    ensures Linear(run.measurements, figure, base, slope) ==>
              Shown(Predict(m, m.regime.shape, workspaces).value, q) == Coefficients(base, slope, 1.0).At(workspaces)
  {
    if Linear(run.measurements, figure, base, slope) {
      assert OnLine(run.measurements, q, base, slope);
      LinearQuantityIsProjected(run, m, workspaces, q, base, slope);
    }
  }

  /** Exactly linear cost is predicted exactly, at every fleet size, measured or not. */
  lemma {:induction false} LinearCostIsProjectedExactly(run: Run, m: Model, workspaces: int, base: real, slope: real,
      height: real)
    requires FittedModel(run, m) && workspaces > 0
    requires height == base + slope * workspaces as real
    ensures Predict(m, m.regime.shape, workspaces).Ok?
    ensures var p := Predict(m, m.regime.shape, workspaces).value;
      var ms := run.measurements;
      && (Linear(ms, (x: Measurement) => x.heapBytes as real, base, slope) ==>
            p.heapBytes == height)
      && (Linear(ms, (x: Measurement) => x.goroutines as real, base, slope) ==>
            p.goroutines == height)
      && (HaveProcess(ms) && Linear(ms, (x: Measurement) => x.processBytes as real, base, slope) ==>
            p.residentMeasured && p.residentBytes == height)
      && (HaveProcess(ms) && Linear(ms, (x: Measurement) => x.stackBytes as real, base, slope) ==>
            p.stackBytes == height)
  {
    assert height == Coefficients(base, slope, 1.0).At(workspaces);
    LinearFigureIsProjected(run, m, workspaces, Heap, (x: Measurement) => x.heapBytes as real, base, slope);
    LinearFigureIsProjected(run, m, workspaces, Goroutines, (x: Measurement) => x.goroutines as real, base, slope);
    if HaveProcess(run.measurements) {
      LinearFigureIsProjected(run, m, workspaces, Process, (x: Measurement) => x.processBytes as real, base, slope);
      LinearFigureIsProjected(run, m, workspaces, Stack, (x: Measurement) => x.stackBytes as real, base, slope);
    }
  }

  /** The squared error, over the measurements, of a line for one of their figures. */
  function Misses(ms: seq<Measurement>, figure: Measurement -> real, base: real, slope: real): real {
    if ms == [] then 0.0
    else
      var m := ms[|ms| - 1];
      var miss := figure(m) - (base + slope * m.workspaces as real);
      Misses(ms[..|ms| - 1], figure, base, slope) + miss * miss
  }

  lemma {:induction false} MissesAreErrors(ms: seq<Measurement>, q: Quantity, figure: Measurement -> real,
      base: real, slope: real)
    requires forall m :: figure(m) == q.Of(m)
    ensures Misses(ms, figure, base, slope) == SquaredError(PointsOf(ms, q), base, slope)
  {
    if ms != [] {
      var n := |ms| - 1;
      MissesAreErrors(ms[..n], q, figure, base, slope);
      assert PointsOf(ms, q)[..n] == PointsOf(ms[..n], q);
      assert Residual(base, slope).At(q.PointOf(ms[n])) == figure(ms[n]) - (base + slope * ms[n].workspaces as real);
    }
  }

  /** No other line misses the figure by as little. */
  ghost predicate BestLine(ms: seq<Measurement>, figure: Measurement -> real, c: Coefficients) {
    forall base, slope :: base != c.base || slope != c.perWorkspace ==>
      Misses(ms, figure, c.base, c.perWorkspace) < Misses(ms, figure, base, slope)
  }

  lemma {:induction false} LineIsBest(ms: seq<Measurement>, q: Quantity, figure: Measurement -> real, c: Coefficients)
    requires IsLeastSquares(PointsOf(ms, q), c) && forall m :: figure(m) == q.Of(m)
    ensures BestLine(ms, figure, c)
  {
    MissesAreErrors(ms, q, figure, c.base, c.perWorkspace);
    forall base, slope | base != c.base || slope != c.perWorkspace
      ensures Misses(ms, figure, c.base, c.perWorkspace) < Misses(ms, figure, base, slope)
    {
      MissesAreErrors(ms, q, figure, base, slope);
    }
  }

  /** Each line of a model is the best one for the figure it is named after. */
  lemma {:induction false} EachLineIsBest(run: Run, m: Model)
    requires FittedModel(run, m)
    ensures BestLine(run.measurements, (x: Measurement) => x.heapBytes as real, m.heap)
    ensures BestLine(run.measurements, (x: Measurement) => x.goroutines as real, m.goroutines)
    ensures HaveProcess(run.measurements) ==>
      && m.process.Some? && BestLine(run.measurements, (x: Measurement) => x.processBytes as real, m.process.value)
      && m.stack.Some? && BestLine(run.measurements, (x: Measurement) => x.stackBytes as real, m.stack.value)
  {
    var ms := run.measurements;
    LineIsBest(ms, Heap, (x: Measurement) => x.heapBytes as real, m.heap);
    LineIsBest(ms, Goroutines, (x: Measurement) => x.goroutines as real, m.goroutines);
    if HaveProcess(ms) {
      LineIsBest(ms, Process, (x: Measurement) => x.processBytes as real, m.process.value);
      LineIsBest(ms, Stack, (x: Measurement) => x.stackBytes as real, m.stack.value);
    }
  }

  lemma {:induction false} BeatenBy(ms: seq<Measurement>, figure: Measurement -> real, c: Coefficients, d: Coefficients)
    requires BestLine(ms, figure, c)
    ensures c.base != d.base || c.perWorkspace != d.perWorkspace ==>
              Misses(ms, figure, c.base, c.perWorkspace) < Misses(ms, figure, d.base, d.perWorkspace)
  {
  }

  lemma {:induction false} OneBestLine(ms: seq<Measurement>, figure: Measurement -> real, c: Coefficients,
      d: Coefficients)
    requires BestLine(ms, figure, c) && BestLine(ms, figure, d)
    ensures c.base == d.base && c.perWorkspace == d.perWorkspace
  {
    BeatenBy(ms, figure, c, d);
    BeatenBy(ms, figure, d, c);
  }

  /** The height of a best line does not depend on which it is, there being one. */
  ghost predicate IsHeight(ms: seq<Measurement>, figure: Measurement -> real, workspaces: int, height: real) {
    forall c :: BestLine(ms, figure, c) ==> height == c.At(workspaces)
  }

  lemma {:induction false} HeightOf(ms: seq<Measurement>, figure: Measurement -> real, c: Coefficients, workspaces: int)
    requires BestLine(ms, figure, c)
    ensures IsHeight(ms, figure, workspaces, c.At(workspaces))
  {
    forall d | BestLine(ms, figure, d) ensures c.At(workspaces) == d.At(workspaces) { OneBestLine(ms, figure, c, d); }
  }

  /** What is predicted: for each figure the height of its best line. Without process figures,
      resident memory is twice the heap and 128 MiB, and no stacks are predicted. */
  lemma {:induction false} PredictionMeaning(run: Run, m: Model, workspaces: int)
    requires FittedModel(run, m) && workspaces > 0
    ensures Predict(m, m.regime.shape, workspaces).Ok?
    ensures var p, ms := Predict(m, m.regime.shape, workspaces).value, run.measurements;
      && IsHeight(ms, (x: Measurement) => x.heapBytes as real, workspaces, p.heapBytes)
      && IsHeight(ms, (x: Measurement) => x.goroutines as real, workspaces, p.goroutines)
      && (p.residentMeasured <==> HaveProcess(ms))
      && (HaveProcess(ms) ==> IsHeight(ms, (x: Measurement) => x.processBytes as real, workspaces, p.residentBytes))
      && (HaveProcess(ms) ==> IsHeight(ms, (x: Measurement) => x.stackBytes as real, workspaces, p.stackBytes))
      && (!HaveProcess(ms) ==> p.residentBytes == 2.0 * p.heapBytes + 134217728.0 && p.stackBytes == 0.0)
  {
    EachLineIsBest(run, m);
    HeightOf(run.measurements, (x: Measurement) => x.heapBytes as real, m.heap, workspaces);
    HeightOf(run.measurements, (x: Measurement) => x.goroutines as real, m.goroutines, workspaces);
    if HaveProcess(run.measurements) {
      HeightOf(run.measurements, (x: Measurement) => x.processBytes as real, m.process.value, workspaces);
      HeightOf(run.measurements, (x: Measurement) => x.stackBytes as real, m.stack.value, workspaces);
    }
  }

  /** The heap may grow by GOGC percent of what is live, a GOGC that is not positive standing for
      the default of 100, and what is not heap comes on top. */
  lemma ResidentMeaning(liveHeap: real, gogc: int, nonHeap: nat)
    ensures 100.0 * (ResidentBytes(liveHeap, gogc, nonHeap) - liveHeap - nonHeap as real)
              == liveHeap * (if gogc > 0 then gogc else 100) as real
  {
  }

  lemma {:induction false} LineSurvivesHoldingOut(ms: seq<Measurement>, i: nat, c: Coefficients, q: Quantity,
      base: real, slope: real)
    requires i < |ms| && OnLine(ms, q, base, slope)
    requires IsLeastSquares(PointsOf(Without(ms, i), q), c)
    ensures c.At(ms[i].workspaces) == q.Of(ms[i])
  {
    assert forall m :: m in Without(ms, i) ==> m in ms;
    PointsOnLine(Without(ms, i), q, base, slope);
    LineIsRecovered(PointsOf(Without(ms, i), q), c, base, slope);
    OnLineAt(ms, i, q, c);
  }

  lemma {:induction false} OnLineAt(ms: seq<Measurement>, i: nat, q: Quantity, c: Coefficients)
    requires i < |ms| && OnLine(ms, q, c.base, c.perWorkspace)
    ensures c.At(ms[i].workspaces) == q.Of(ms[i])
  {
    assert ms[i] in ms;
  }

  /** Each measurement is predicted by the best lines through the others, and each error is the
      distance in terms of the measured figure. */
  lemma {:induction false} ValidationMeaning(run: Run, ms: seq<Measurement>, out: seq<Validation>, i: nat)
    requires i < |out| <= |ms| && AllJudged(run, ms, out)
    ensures var v, rest, w := out[i], Without(ms, i), ms[i].workspaces;
      && IsHeight(rest, (x: Measurement) => x.heapBytes as real, w, v.predictedHeap)
      && IsHeight(rest, (x: Measurement) => x.goroutines as real, w, v.predictedGoroutines)
      && IsError(v.heapError, v.measuredHeap, v.predictedHeap)
      && IsError(v.goroutineError, v.measuredGoroutines, v.predictedGoroutines)
  {
    AllJudgedAt(run, ms, out, i);
    var m :| Fitted(HoldingOut(run, ms, i), Ok(m)) && out[i] == Validated(ms[i], m);
    EachLineIsBest(HoldingOut(run, ms, i), m);
    ErrorsOf(ms[i], m);
    HeightOf(Without(ms, i), (x: Measurement) => x.heapBytes as real, m.heap, ms[i].workspaces);
    HeightOf(Without(ms, i), (x: Measurement) => x.goroutines as real, m.goroutines, ms[i].workspaces);
  }

  lemma {:induction false} ErrorsOf(held: Measurement, m: Model)
    ensures var v := Validated(held, m);
      && IsError(v.heapError, v.measuredHeap, v.predictedHeap)
      && IsError(v.goroutineError, v.measuredGoroutines, v.predictedGoroutines)
      && v.predictedHeap == m.heap.At(held.workspaces) && v.predictedGoroutines == m.goroutines.At(held.workspaces)
  {
    IsErrorOf(held.heapBytes as real, m.heap.At(held.workspaces));
    IsErrorOf(held.goroutines as real, m.goroutines.At(held.workspaces));
  }

  lemma IsErrorOf(measured: real, predicted: real)
    ensures IsError(RelativeError(measured, predicted), measured, predicted)
  {
  }

  /** The fraction of the measured figure by which the prediction is off; infinite when nothing was
      measured and something predicted. */
  ghost predicate IsError(e: Fraction, measured: real, predicted: real) {
    if e.Infinite? then measured == 0.0 && predicted != 0.0
    else e.value * Abs(measured) == Abs(predicted - measured) && (predicted == measured ==> e.value == 0.0)
  }

  lemma {:induction false} LinearFigureIsHeldOut(ms: seq<Measurement>, i: nat, c: Coefficients, q: Quantity,
      figure: Measurement -> real, base: real, slope: real)
    requires i < |ms| && IsLeastSquares(PointsOf(Without(ms, i), q), c)
    requires forall x :: figure(x) == q.Of(x)
    ensures Linear(ms, figure, base, slope) ==> c.At(ms[i].workspaces) == figure(ms[i])
  {
    if Linear(ms, figure, base, slope) {
      assert OnLine(ms, q, base, slope);
      LineSurvivesHoldingOut(ms, i, c, q, base, slope);
    }
  }

  /** Cost that is exactly linear is predicted without error, at the endpoints too. */
  lemma {:induction false} LinearCostIsPredictedExactly(run: Run, ms: seq<Measurement>, out: seq<Validation>, i: nat,
      base: real, slope: real)
    requires i < |out| <= |ms| && AllJudged(run, ms, out)
    ensures Linear(ms, (x: Measurement) => x.heapBytes as real, base, slope) ==> out[i].heapError == Finite(0.0)
    ensures Linear(ms, (x: Measurement) => x.goroutines as real, base, slope) ==> out[i].goroutineError == Finite(0.0)
  {
    AllJudgedAt(run, ms, out, i);
    var m :| Fitted(HoldingOut(run, ms, i), Ok(m)) && out[i] == Validated(ms[i], m);
    LinearFigureIsHeldOut(ms, i, m.heap, Heap, (x: Measurement) => x.heapBytes as real, base, slope);
    LinearFigureIsHeldOut(ms, i, m.goroutines, Goroutines, (x: Measurement) => x.goroutines as real, base, slope);
  }

  /** The i-th count is strictly below every other, or strictly above. */
  ghost predicate StandsOut(ms: seq<Measurement>, i: nat)
    requires i < |ms|
  {
    || (forall j :: 0 <= j < |ms| && j != i ==> ms[i].workspaces < ms[j].workspaces)
    || (forall j :: 0 <= j < |ms| && j != i ==> ms[i].workspaces > ms[j].workspaces)
  }

  lemma {:induction false} OthersAreTheRest(ms: seq<Measurement>, i: nat)
    requires i < |ms|
    ensures forall j :: 0 <= j < |ms| && j != i ==> ms[j] in Without(ms, i)
    ensures forall m :: m in Without(ms, i) ==> exists j :: 0 <= j < |ms| && j != i && ms[j] == m
  {
    var rest := Without(ms, i);
    forall j | 0 <= j < |ms| && j != i ensures ms[j] in rest { assert rest[if j < i then j else j - 1] == ms[j]; }
    forall m | m in rest ensures exists j :: 0 <= j < |ms| && j != i && ms[j] == m {
      var k :| 0 <= k < |rest| && rest[k] == m;
      assert ms[if k < i then k else k + 1] == m;
    }
  }

  lemma {:induction false} OutsideTheRest(ms: seq<Measurement>, i: nat, low: int, high: int)
    requires i < |ms| && IsRange(Without(ms, i), low, high)
    ensures (ms[i].workspaces < low || ms[i].workspaces > high) <==> StandsOut(ms, i)
  {
    OthersAreTheRest(ms, i);
    var least :| least in Without(ms, i) && least.workspaces == low;
    var most :| most in Without(ms, i) && most.workspaces == high;
    var j :| 0 <= j < |ms| && j != i && ms[j] == least;
    var k :| 0 <= k < |ms| && k != i && ms[k] == most;
  }

  /** In any run, exactly a measurement whose count is strictly below every other, or strictly
      above, is judged by a model that has not seen its range. */
  lemma {:induction false} ExtrapolatedExactlyWhen(run: Run, ms: seq<Measurement>, out: seq<Validation>, i: nat)
    requires i < |out| <= |ms| && AllJudged(run, ms, out)
    ensures out[i].extrapolated <==> StandsOut(ms, i)
  {
    AllJudgedAt(run, ms, out, i);
    var m :| Fitted(HoldingOut(run, ms, i), Ok(m)) && out[i] == Validated(ms[i], m);
    OutsideTheRest(ms, i, m.regime.minWorkspaces, m.regime.maxWorkspaces);
  }

  lemma {:induction false} OnlyEndsStandOut(ms: seq<Measurement>, i: nat)
    requires i < |ms| && |ms| >= 2 && Sorted(FewerWorkspaces, ms)
    ensures StandsOut(ms, i) <==>
              || (i == 0 && ms[0].workspaces < ms[1].workspaces)
              || (i == |ms| - 1 && ms[i - 1].workspaces < ms[i].workspaces)
  {
    forall j, k | 0 <= j < k < |ms| ensures ms[j].workspaces <= ms[k].workspaces {
      assert !FewerWorkspaces(ms[k], ms[j]);
    }
    if 0 < i { assert ms[i - 1].workspaces <= ms[i].workspaces; }
    if i < |ms| - 1 { assert ms[i].workspaces <= ms[i + 1].workspaces; }
  }

  /** So of the sorted measurements it is an endpoint, and one whose count is not tied. */
  lemma {:induction false} EndpointsAreExtrapolated(run: Run, ms: seq<Measurement>,
      r: Outcome<seq<Validation>, FitError>, i: nat)
    requires HeldOut(run, ms, r) && r.Ok? && i < |ms| && |ms| >= 2
    ensures r.value[i].extrapolated <==>
              || (i == 0 && ms[0].workspaces < ms[1].workspaces)
              || (i == |ms| - 1 && ms[i - 1].workspaces < ms[i].workspaces)
  {
    ExtrapolatedExactlyWhen(run, ms, r.value, i);
    OnlyEndsStandOut(ms, i);
  }

  /** With 1, 1, 2 and 3 workspaces the lower endpoint is not. */
  lemma {:induction false} TiedEndpointIsWithin(run: Run, ms: seq<Measurement>, r: Outcome<seq<Validation>, FitError>)
    requires HeldOut(run, ms, r) && r.Ok? && |ms| == 4
    requires ms[0].workspaces == ms[1].workspaces == 1 && ms[2].workspaces == 2 && ms[3].workspaces == 3
    ensures !r.value[0].extrapolated && r.value[3].extrapolated
  {
    EndpointsAreExtrapolated(run, ms, r, 0);
    EndpointsAreExtrapolated(run, ms, r, 3);
  }
}
