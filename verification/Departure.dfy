/** Where cost stops being linear, `internal/sweep/departure.go`: the first swept count that
    exceeds the projection from the two smallest. Floats are reals. */
module Departures {
  import opened Options
  import opened Ordering
  import opened Samples

  const DEFAULT_TOLERANCE := 0.25
  const DEFAULT_MIN_POINTS := 4

  datatype Point = Point(workspaces: int, value: real)

  datatype Reason = NoReason | TooFewPoints | SharedCount | NoneExceeded

  datatype Departure = Departure(
    found: bool, workspaces: int, couldNotRun: bool, reason: Reason, tolerance: real, points: nat)

  predicate Fewer(a: Point, b: Point) { a.workspaces < b.workspaces }

  function ToleranceOf(tolerance: real): real { if tolerance <= 0.0 then DEFAULT_TOLERANCE else tolerance }
  function MinPointsOf(minPoints: int): nat { if minPoints <= 0 then DEFAULT_MIN_POINTS else minPoints }

  // ----- The projection -----

  datatype Line = Line(intercept: real, slope: real) {
    function At(workspaces: int): real { intercept + slope * workspaces as real }
  }

  function Through(a: Point, b: Point): Line
    requires a.workspaces != b.workspaces
  {
    var slope := (b.value - a.value) / (b.workspaces - a.workspaces) as real;
    Line(a.value - slope * a.workspaces as real, slope)
  }

  lemma {:induction false} ThroughMeetsBoth(a: Point, b: Point)
    requires a.workspaces != b.workspaces
    ensures Through(a, b).At(a.workspaces) == a.value && Through(a, b).At(b.workspaces) == b.value
  {
    var run, rise := (b.workspaces - a.workspaces) as real, b.value - a.value;
    var slope := rise / run;
    assert run != 0.0;
    assert slope * run == rise;
    assert run == b.workspaces as real - a.workspaces as real;
    assert slope * b.workspaces as real - slope * a.workspaces as real == slope * run;
  }

  /** Two points determine the line. */
  lemma {:induction false} ThroughIsUnique(a: Point, b: Point, line: Line)
    requires a.workspaces != b.workspaces
    requires line.At(a.workspaces) == a.value && line.At(b.workspaces) == b.value
    ensures Through(a, b) == line
  {
    var run := (b.workspaces - a.workspaces) as real;
    assert run != 0.0;
    assert run == b.workspaces as real - a.workspaces as real;
    assert line.slope * b.workspaces as real - line.slope * a.workspaces as real == line.slope * run;
    assert b.value - a.value == line.slope * run;
    QuotientOf(line.slope, run);
  }

  lemma QuotientOf(a: real, b: real)
    requires b != 0.0
    ensures a * b / b == a
  {}

  /** p is above a positive projection by more than the tolerance. */
  predicate Departs(line: Line, tolerance: real, p: Point) {
    0.0 < line.At(p.workspaces) && p.value > line.At(p.workspaces) * (1.0 + tolerance)
  }

  // ----- The scan -----

  /** The points that depart from a line. */
  function Departing(line: Line, tolerance: real): Point -> bool {
    (p: Point) => Departs(line, tolerance, p)
  }

  function FirstWhere(s: seq<Point>, test: Point -> bool): Option<Point> {
    if s == [] then None
    else if test(s[0]) then Some(s[0])
    else FirstWhere(s[1..], test)
  }

  /** The outcome over points already in order of count. */
  function Detected(s: seq<Point>, tolerance: real, minPoints: nat): Departure
    requires 0.0 < tolerance && 0 < minPoints && !(minPoints == 1 && |s| == 1)
  {
    if |s| < minPoints then Departure(false, 0, true, TooFewPoints, tolerance, |s|)
    else if s[1].workspaces == s[0].workspaces then Departure(false, 0, true, SharedCount, tolerance, |s|)
    else
      match FirstWhere(s[2..], Departing(Through(s[0], s[1]), tolerance))
      case Some(p) => Departure(true, p.workspaces, false, NoReason, tolerance, |s|)
      case None => Departure(false, 0, false, NoneExceeded, tolerance, |s|)
  }

  ghost predicate Ascending(s: seq<Point>) {
    forall i, j :: 0 <= i < j < |s| ==> s[i].workspaces <= s[j].workspaces
  }

  ghost predicate Sorting(points: seq<Point>, s: seq<Point>) {
    Ascending(s) && multiset(s) == multiset(points) && |s| == |points|
  }

  lemma {:induction false} SortedIsAscending(s: seq<Point>)
    ensures Sorted(Fewer, s) <==> Ascending(s)
  {
    if Sorted(Fewer, s) {
      forall i, j | 0 <= i < j < |s| ensures s[i].workspaces <= s[j].workspaces { assert !Fewer(s[j], s[i]); }
    }
  }

  /** The library sort is not stable: a result is possible if some sorting gives it. */
  ghost predicate Possible(points: seq<Point>, tolerance: real, minPoints: int, r: Departure)
    requires !(minPoints == 1 && |points| == 1)
  {
    exists s :: Sorting(points, s) && r == Detected(s, ToleranceOf(tolerance), MinPointsOf(minPoints))
  }

  /** A single point must not be asked for with a minimum of one: the source reads the second. */
  method FindDeparture(points: seq<Point>, tolerance: real, minPoints: int) returns (r: Departure)
    requires !(minPoints == 1 && |points| == 1)
    ensures Possible(points, tolerance, minPoints, r)
  {
    var t := if tolerance <= 0.0 then DEFAULT_TOLERANCE else tolerance;
    var least := if minPoints <= 0 then DEFAULT_MIN_POINTS else minPoints;
    var sorted := SortFunc(points, Fewer);
    SortedIsAscending(sorted);
    if |points| < least {
      r := Departure(false, 0, true, TooFewPoints, t, |points|);
    } else {
      r := Detect(sorted, t, least);
    }
    assert Sorting(points, sorted) && r == Detected(sorted, ToleranceOf(tolerance), MinPointsOf(minPoints));
  }

  method Detect(sorted: seq<Point>, tolerance: real, ghost least: nat) returns (r: Departure)
    requires 0.0 < tolerance && 2 <= |sorted| && 0 < least <= |sorted|
    ensures r == Detected(sorted, tolerance, least)
  {
    var first, second := sorted[0], sorted[1];
    if second.workspaces == first.workspaces {
      return Departure(false, 0, true, SharedCount, tolerance, |sorted|);
    }
    var slope := (second.value - first.value) / (second.workspaces - first.workspaces) as real;
    var intercept := first.value - slope * first.workspaces as real;
    assert Line(intercept, slope) == Through(first, second);
    var departing := Scan(sorted[2..], Line(intercept, slope), tolerance);
    match departing
    case Some(p) => r := Departure(true, p.workspaces, false, NoReason, tolerance, |sorted|);
    case None => r := Departure(false, 0, false, NoneExceeded, tolerance, |sorted|);
  }

  method Scan(rest: seq<Point>, line: Line, tolerance: real) returns (r: Option<Point>)
    ensures r == FirstWhere(rest, Departing(line, tolerance))
  {
    for i := 0 to |rest|
      invariant FirstWhere(rest, Departing(line, tolerance)) == FirstWhere(rest[i..], Departing(line, tolerance))
    {
      var p := rest[i];
      assert rest[i..][1..] == rest[i + 1..];
      var projected := line.intercept + line.slope * p.workspaces as real;
      assert projected == line.At(p.workspaces);
      if projected <= 0.0 {
        continue;
      }
      assert Departs(line, tolerance, p) <==> p.value > projected * (1.0 + tolerance);
      if p.value > projected * (1.0 + tolerance) {
        return Some(p);
      }
    }
    return None;
  }

  // ----- What the scan finds -----

  lemma {:induction false} FirstIsLeast(s: seq<Point>, p: Point)
    requires Ascending(s) && p in s
    ensures s[0].workspaces <= p.workspaces
  {}

  /** The smallest count at which some point meets the test. */
  function LeastWhere(points: seq<Point>, test: Point -> bool): Option<int> {
    if points == [] then None
    else
      var before, p := LeastWhere(points[..|points| - 1], test), points[|points| - 1];
      if test(p) && (before.None? || p.workspaces < before.value) then Some(p.workspaces) else before
  }

  lemma {:induction false} LeastWhereMeaning(points: seq<Point>, test: Point -> bool)
    ensures LeastWhere(points, test).None? <==> forall p :: p in points ==> !test(p)
    ensures LeastWhere(points, test).Some? ==>
              exists p :: p in points && test(p) && p.workspaces == LeastWhere(points, test).value
    ensures LeastWhere(points, test).Some? ==>
              forall p :: p in points && test(p) ==> LeastWhere(points, test).value <= p.workspaces
  {
    if points != [] {
      var init, last := points[..|points| - 1], points[|points| - 1];
      LeastWhereMeaning(init, test);
      assert points == init + [last];
      assert last in points;
    }
  }

  lemma {:induction false} FirstWhereMeaning(s: seq<Point>, test: Point -> bool)
    requires Ascending(s)
    ensures FirstWhere(s, test).None? <==> forall p :: p in s ==> !test(p)
    ensures FirstWhere(s, test).Some? ==>
              var p := FirstWhere(s, test).value;
              p in s && test(p) && forall q :: q in s && test(q) ==> p.workspaces <= q.workspaces
    decreases |s|
  {
    if s != [] {
      assert s == [s[0]] + s[1..];
      FirstWhereMeaning(s[1..], test);
      forall q | q in s ensures s[0].workspaces <= q.workspaces { FirstIsLeast(s, q); }
    }
  }

  /** Along any arrangement, the scan finds the smallest count that meets the test. */
  lemma {:induction false} ScanFindsLeast(points: seq<Point>, s: seq<Point>, test: Point -> bool)
    requires Sorting(points, s)
    ensures FirstWhere(s, test).Some? <==> LeastWhere(points, test).Some?
    ensures FirstWhere(s, test).Some? ==> FirstWhere(s, test).value.workspaces == LeastWhere(points, test).value
  {
    SameMembers(points, s);
    FirstWhereMeaning(s, test);
    LeastWhereMeaning(points, test);
  }

  lemma ToleranceAdds(projected: real, tolerance: real)
    requires 0.0 < projected && 0.0 < tolerance
    ensures projected < projected * (1.0 + tolerance)
  {
    assert projected * (1.0 + tolerance) == projected + projected * tolerance;
    assert 0.0 < projected * tolerance;
  }

  /** Neither of the points a line goes through departs from it. */
  lemma {:induction false} EndsNeverDepart(a: Point, b: Point, tolerance: real)
    requires a.workspaces != b.workspaces && 0.0 < tolerance
    ensures !Departs(Through(a, b), tolerance, a) && !Departs(Through(a, b), tolerance, b)
  {
    ThroughMeetsBoth(a, b);
    if 0.0 < a.value { ToleranceAdds(a.value, tolerance); }
    if 0.0 < b.value { ToleranceAdds(b.value, tolerance); }
  }

  lemma {:induction false} SkipsTheFirstTwo(s: seq<Point>, test: Point -> bool)
    requires |s| >= 2 && !test(s[0]) && !test(s[1])
    ensures FirstWhere(s, test) == FirstWhere(s[2..], test)
  {
    assert s[1..][0] == s[1] && s[1..][1..] == s[2..];
  }

  /** The result that reports a departure at this count, or none. */
  function Reported(count: Option<int>, tolerance: real, points: nat): Departure {
    match count
    case Some(k) => Departure(true, k, false, NoReason, tolerance, points)
    case None => Departure(false, 0, false, NoneExceeded, tolerance, points)
  }

  lemma {:induction false} DetectedIsLeast(points: seq<Point>, s: seq<Point>, tolerance: real, minPoints: nat)
    requires Sorting(points, s) && 0.0 < tolerance && 0 < minPoints <= |points| && 2 <= |points|
    requires s[0].workspaces != s[1].workspaces
    ensures Detected(s, tolerance, minPoints)
         == Reported(LeastWhere(points, Departing(Through(s[0], s[1]), tolerance)), tolerance, |points|)
  {
    var test := Departing(Through(s[0], s[1]), tolerance);
    EndsNeverDepart(s[0], s[1], tolerance);
    SkipsTheFirstTwo(s, test);
    ScanFindsLeast(points, s, test);
  }

  // ----- What the projection starts from -----

  /** The smallest count is taken twice. */
  ghost predicate SharesLeast(points: seq<Point>) {
    exists i, j :: 0 <= i < j < |points| && points[i].workspaces == points[j].workspaces && IsLeast(points, points[i])
  }

  ghost predicate IsLeast(points: seq<Point>, p: Point) {
    forall q :: q in points ==> p.workspaces <= q.workspaces
  }

  /** a has the smallest count, and b the smallest of the rest. */
  ghost predicate LeadPair(points: seq<Point>, a: Point, b: Point) {
    && a in points && b in points && a.workspaces < b.workspaces
    && forall p :: p in points && p != a ==> b.workspaces <= p.workspaces
  }

  lemma {:induction false} TwoOf<T>(s: seq<T>, x: T)
    requires multiset(s)[x] >= 2
    ensures exists i, j :: 0 <= i < j < |s| && s[i] == x && s[j] == x
  {
    var i :| 0 <= i < |s| && s[i] == x;
    var before, after := s[..i], s[i + 1..];
    assert s == before + [x] + after;
    assert multiset(before)[x] + multiset(after)[x] >= 1;
    if x in before {
      var j :| 0 <= j < |before| && before[j] == x;
      assert s[j] == x;
    } else {
      var j :| 0 <= j < |after| && after[j] == x;
      assert s[i + 1 + j] == x;
    }
  }

  lemma {:induction false} SharedIsSeen(points: seq<Point>, s: seq<Point>)
    requires Sorting(points, s) && 2 <= |points| && s[0].workspaces == s[1].workspaces
    ensures SharesLeast(points)
  {
    SameMembers(points, s);
    forall q | q in points ensures s[0].workspaces <= q.workspaces { FirstIsLeast(s, q); }
    assert s[0] in s && s[1] in s;
    if s[0] == s[1] {
      assert s == [s[0], s[1]] + s[2..];
      assert multiset(s)[s[0]] >= 2;
      TwoOf(points, s[0]);
    } else {
      var i :| 0 <= i < |points| && points[i] == s[0];
      var j :| 0 <= j < |points| && points[j] == s[1];
      assert IsLeast(points, points[i]) && IsLeast(points, points[j]);
    }
  }

  lemma {:induction false} SeenIsShared(points: seq<Point>, s: seq<Point>, i: nat, j: nat)
    requires Sorting(points, s) && i < j < |points|
    requires points[i].workspaces == points[j].workspaces && IsLeast(points, points[i])
    ensures s[0].workspaces == s[1].workspaces
  {
    SameMembers(points, s);
    assert points[i] in s && points[j] in s && s[0] in points;
    if s[0].workspaces < s[1].workspaces {
      OnlyFirst(s, points[i]);
      OnlyFirst(s, points[j]);
      assert s == [s[0]] + s[1..];
      assert s[0] !in s[1..];
      assert multiset(points)[points[i]] == 1;
      OccursOnce(points, i, j);
    }
  }

  lemma {:induction false} OnlyFirst(s: seq<Point>, p: Point)
    requires 2 <= |s| && Ascending(s) && s[0].workspaces < s[1].workspaces
    requires p in s && p.workspaces <= s[0].workspaces
    ensures p == s[0]
    ensures s[0] !in s[1..]
  {}

  /** The first two of any arrangement are a leading pair. */
  lemma {:induction false} LeadsAreFirst(points: seq<Point>, s: seq<Point>)
    requires Sorting(points, s) && 2 <= |points| && s[0].workspaces != s[1].workspaces
    ensures LeadPair(points, s[0], s[1])
  {
    SameMembers(points, s);
    assert s[0] in s && s[1] in s;
    forall p | p in points && p != s[0] ensures s[1].workspaces <= p.workspaces {
      var k :| 0 <= k < |s| && s[k] == p;
    }
  }

  lemma {:induction false} SomeSorting(points: seq<Point>) returns (s: seq<Point>)
    ensures Sorting(points, s)
    decreases |points|
  {
    if points == [] {
      s := [];
    } else {
      var init, last := points[..|points| - 1], points[|points| - 1];
      var r := SomeSorting(init);
      var k := 0;
      while k < |r| && !Fewer(last, r[k])
        invariant 0 <= k <= |r| && forall j :: 0 <= j < k ==> !Fewer(last, r[j])
      {
        k := k + 1;
      }
      SortedIsAscending(r);
      InsertSorted(Fewer, r, k, last);
      s := r[..k] + [last] + r[k..];
      SortedIsAscending(s);
      assert points == init + [last];
    }
  }

  lemma {:induction false} SwapKeepsSorting(points: seq<Point>, s: seq<Point>, i: nat, j: nat)
    requires Sorting(points, s) && i < |s| && j < |s| && s[i].workspaces == s[j].workspaces
    ensures Sorting(points, s[i := s[j]][j := s[i]])
  {
    var t := s[i := s[j]][j := s[i]];
    SwapMultiset(s, i, j);
    forall a, b | 0 <= a < b < |t| ensures t[a].workspaces <= t[b].workspaces {
      assert t[a].workspaces == s[a].workspaces && t[b].workspaces == s[b].workspaces;
    }
  }

  lemma {:induction false} SwapMultiset<T>(s: seq<T>, i: nat, j: nat)
    requires i < |s| && j < |s|
    ensures multiset(s[i := s[j]][j := s[i]]) == multiset(s)
  {}

  /** And any leading pair comes first in some arrangement. */
  lemma {:induction false} LeadsComeFirst(points: seq<Point>, a: Point, b: Point) returns (s: seq<Point>)
    requires LeadPair(points, a, b) && !SharesLeast(points)
    ensures Sorting(points, s) && 2 <= |s| && s[0] == a && s[1] == b
  {
    var t := SomeSorting(points);
    SameMembers(points, t);
    var i :| 0 <= i < |t| && t[i] == b;
    var k :| 0 <= k < |t| && t[k] == a;
    if t[0].workspaces == t[1].workspaces { SharedIsSeen(points, t); }
    LeadsAreFirst(points, t);
    FirstIsLeast(t, a);
    assert t[0] == a && t[1] in t && i >= 1;
    SwapKeepsSorting(points, t, 1, i);
    s := t[1 := t[i]][i := t[1]];
  }

  /** The smallest count that exceeds a positive projection from a and b by the tolerance. */
  function ReportedFrom(points: seq<Point>, a: Point, b: Point, tolerance: real): Departure
    requires a.workspaces != b.workspaces
  {
    Reported(LeastWhere(points, Departing(Through(a, b), tolerance)), tolerance, |points|)
  }

  /** r is an answer the points allow: that there are too few of them, or that the smallest count
      is taken twice; or what some leading pair's projection reports. */
  ghost predicate Answers(points: seq<Point>, t: real, least: nat, r: Departure) {
    if |points| < least then r == Departure(false, 0, true, TooFewPoints, t, |points|)
    else if SharesLeast(points) then r == Departure(false, 0, true, SharedCount, t, |points|)
    else exists a, b :: LeadPair(points, a, b) && r == ReportedFrom(points, a, b, t)
  }

  /** Every result there can be, for any points. */
  lemma {:induction false} DepartureMeaning(points: seq<Point>, tolerance: real, minPoints: int, r: Departure)
    requires !(minPoints == 1 && |points| == 1)
    ensures Possible(points, tolerance, minPoints, r) <==>
              Answers(points, ToleranceOf(tolerance), MinPointsOf(minPoints), r)
  {
    var t, least := ToleranceOf(tolerance), MinPointsOf(minPoints);
    var some := SomeSorting(points);
    forall s | Sorting(points, s) ensures Answers(points, t, least, Detected(s, t, least)) {
      ArrangedMeaning(points, s, t, least);
    }
    if Answers(points, t, least, r) {
      if |points| >= least && !SharesLeast(points) {
        var a, b :| LeadPair(points, a, b) && r == ReportedFrom(points, a, b, t);
        some := LeadsComeFirst(points, a, b);
        DetectedIsLeast(points, some, t, least);
      } else {
        ArrangedMeaning(points, some, t, least);
      }
      assert Sorting(points, some) && r == Detected(some, t, least);
    }
  }

  lemma {:induction false} ArrangedMeaning(points: seq<Point>, s: seq<Point>, t: real, least: nat)
    requires Sorting(points, s) && 0.0 < t && 0 < least && !(least == 1 && |points| == 1)
    ensures Answers(points, t, least, Detected(s, t, least))
  {
    if |points| >= least {
      if s[0].workspaces == s[1].workspaces {
        SharedIsSeen(points, s);
      } else {
        LeadsAreFirst(points, s);
        DetectedIsLeast(points, s, t, least);
        if i, j :| 0 <= i < j < |points| && points[i].workspaces == points[j].workspaces && IsLeast(points, points[i]) {
          SeenIsShared(points, s, i, j);
        }
      }
    }
  }

  /** The line through a and b has height h at count k. */
  predicate HasHeight(a: Point, b: Point, k: int, h: real) {
    (h - a.value) * (b.workspaces - a.workspaces) as real == (b.value - a.value) * (k - a.workspaces) as real
  }

  /** p is above the line through a and b, where that is positive, by more than the fraction t. */
  ghost predicate Exceeds(a: Point, b: Point, t: real, p: Point) {
    exists h: real :: HasHeight(a, b, p.workspaces, h) && h > 0.0 && p.value - h > t * h
  }

  lemma {:induction false} HeightIs(a: Point, b: Point, k: int, h: real)
    requires a.workspaces != b.workspaces
    ensures HasHeight(a, b, k, h) <==> h == Through(a, b).At(k)
  {
    var run, rise, line := (b.workspaces - a.workspaces) as real, b.value - a.value, Through(a, b);
    var at := line.At(k);
    assert line.slope * run == rise;
    RiseTo(line.slope, run, rise, (k - a.workspaces) as real);
    assert at - a.value == line.slope * (k - a.workspaces) as real by {
      Distributed(line.slope, k as real, a.workspaces as real);
    }
    if h != at { NonzeroProduct(h - at, run); }
    assert (h - a.value) * run - (at - a.value) * run == (h - at) * run;
  }

  lemma RiseTo(slope: real, run: real, rise: real, x: real)
    requires slope * run == rise
    ensures slope * x * run == rise * x
  {
    assert slope * x * run == slope * run * x;
  }

  lemma Distributed(a: real, x: real, y: real)
    ensures a * x - a * y == a * (x - y)
  {}

  lemma NonzeroProduct(a: real, b: real)
    requires a != 0.0 && b != 0.0
    ensures a * b != 0.0
  {
    assert a * b / b == a;
  }

  lemma {:induction false} ExceedsMeaning(a: Point, b: Point, t: real, p: Point)
    requires a.workspaces != b.workspaces
    ensures Exceeds(a, b, t, p) <==> Departs(Through(a, b), t, p)
  {
    var at := Through(a, b).At(p.workspaces);
    HeightIs(a, b, p.workspaces, at);
    assert at * (1.0 + t) == at + t * at;
    if h: real :| HasHeight(a, b, p.workspaces, h) && h > 0.0 && p.value - h > t * h {
      HeightIs(a, b, p.workspaces, h);
    }
  }

  /** What is reported, in terms of the points and the options alone: that there were too few
      points or no trend to project; or else, for a point at the smallest count and one at the next,
      the smallest count at which some point exceeds the line through them, if any does. */
  lemma {:induction false} ReportedMeaning(points: seq<Point>, tolerance: real, minPoints: int, r: Departure)
    requires !(minPoints == 1 && |points| == 1) && Possible(points, tolerance, minPoints, r)
    ensures r.tolerance == (if tolerance > 0.0 then tolerance else 0.25) && r.points == |points|
    ensures r.reason == TooFewPoints <==> |points| < if minPoints > 0 then minPoints else 4
    ensures r.reason == SharedCount <==> r.reason != TooFewPoints && SharesLeast(points)
    ensures r.couldNotRun <==> r.reason == TooFewPoints || r.reason == SharedCount
    ensures r.couldNotRun ==> !r.found
    ensures !r.couldNotRun ==>
              exists a, b :: LeadPair(points, a, b)
                && (r.found <==> exists p :: p in points && Exceeds(a, b, r.tolerance, p))
                && (r.found ==>
                      exists p :: p in points && Exceeds(a, b, r.tolerance, p) && p.workspaces == r.workspaces)
                && (forall p :: p in points && Exceeds(a, b, r.tolerance, p) ==> r.workspaces <= p.workspaces)
  {
    DepartureMeaning(points, tolerance, minPoints, r);
    if !r.couldNotRun {
      var t := ToleranceOf(tolerance);
      var a, b :| LeadPair(points, a, b) && r == ReportedFrom(points, a, b, t);
      LeastWhereMeaning(points, Departing(Through(a, b), t));
      forall p ensures Exceeds(a, b, t, p) <==> Departing(Through(a, b), t)(p) { ExceedsMeaning(a, b, t, p); }
    }
  }

  // ----- Whether the order of the points matters -----

  /** All runs over these points agree, whatever order they arrived in. */
  ghost predicate Agrees(points: seq<Point>, tolerance: real, minPoints: int)
    requires !(minPoints == 1 && |points| == 1)
  {
    forall r, q :: Possible(points, tolerance, minPoints, r) && Possible(points, tolerance, minPoints, q) ==> r == q
  }

  /** Only what the points are decides what is possible. */
  lemma {:induction false} OnlyTheOrderIsOpen(a: seq<Point>, b: seq<Point>, tolerance: real, minPoints: int,
      r: Departure)
    requires multiset(a) == multiset(b) && !(minPoints == 1 && |a| == 1)
    ensures |a| == |b|
    ensures Possible(a, tolerance, minPoints, r) <==> Possible(b, tolerance, minPoints, r)
  {
    SameMembers(a, b);
    assert forall s :: Sorting(a, s) <==> Sorting(b, s);
  }

  /** Every choice of second point gives the same answer. */
  ghost predicate SecondsAgree(points: seq<Point>, tolerance: real) {
    forall a, b, c :: LeadPair(points, a, b) && LeadPair(points, a, c) ==>
      LeastWhere(points, Departing(Through(a, b), tolerance)) == LeastWhere(points, Departing(Through(a, c), tolerance))
  }

  /** The answer is determined by the points exactly when there are too few of them, or the
      smallest count is taken twice, or every point at the second-smallest count gives the
      same answer. Ties past the second point never matter. */
  lemma {:induction false} AnswerIsDetermined(points: seq<Point>, tolerance: real, minPoints: int)
    requires !(minPoints == 1 && |points| == 1)
    ensures Agrees(points, tolerance, minPoints) <==>
              || |points| < MinPointsOf(minPoints) || SharesLeast(points)
              || SecondsAgree(points, ToleranceOf(tolerance))
  {
    forall r ensures Possible(points, tolerance, minPoints, r) <==>
                       Answers(points, ToleranceOf(tolerance), MinPointsOf(minPoints), r)
    {
      DepartureMeaning(points, tolerance, minPoints, r);
    }
    if |points| >= MinPointsOf(minPoints) && !SharesLeast(points) {
      LeadsDecide(points, tolerance, minPoints);
    }
  }

  lemma {:induction false} LeadsDecide(points: seq<Point>, tolerance: real, minPoints: int)
    requires !(minPoints == 1 && |points| == 1) && |points| >= MinPointsOf(minPoints) && !SharesLeast(points)
    requires forall r :: Possible(points, tolerance, minPoints, r) <==>
                           Answers(points, ToleranceOf(tolerance), MinPointsOf(minPoints), r)
    ensures Agrees(points, tolerance, minPoints) <==> SecondsAgree(points, ToleranceOf(tolerance))
  {
    var t := ToleranceOf(tolerance);
    if Agrees(points, tolerance, minPoints) {
      forall a, b, c | LeadPair(points, a, b) && LeadPair(points, a, c)
        ensures LeastWhere(points, Departing(Through(a, b), t)) == LeastWhere(points, Departing(Through(a, c), t))
      {
        assert Possible(points, tolerance, minPoints, ReportedFrom(points, a, b, t));
        assert Possible(points, tolerance, minPoints, ReportedFrom(points, a, c, t));
        assert ReportedFrom(points, a, b, t) == ReportedFrom(points, a, c, t);
      }
    }
    if SecondsAgree(points, t) {
      forall r, q | Possible(points, tolerance, minPoints, r) && Possible(points, tolerance, minPoints, q)
        ensures r == q
      {
        var a, b :| LeadPair(points, a, b) && r == ReportedFrom(points, a, b, t);
        var a', c :| LeadPair(points, a', c) && q == ReportedFrom(points, a', c, t);
        assert a == a';
      }
    }
  }

  /** No two different points share the second-smallest count. */
  ghost predicate SecondIsOne(points: seq<Point>) {
    forall a, b, c :: LeadPair(points, a, b) && LeadPair(points, a, c) ==> b == c
  }

  /** What a caller can look at: of enough points with positive values, the answer depends on
      nothing but the points, at every tolerance, exactly when the smallest count is taken
      twice or no two different points share the second-smallest. */
  lemma {:induction false} AgreesAtEveryTolerance(points: seq<Point>, minPoints: int)
    requires !(minPoints == 1 && |points| == 1) && |points| >= MinPointsOf(minPoints)
    requires forall p :: p in points ==> 0.0 < p.value
    ensures (forall t :: Agrees(points, t, minPoints)) <==> SharesLeast(points) || SecondIsOne(points)
  {
    if SharesLeast(points) || SecondIsOne(points) {
      forall t ensures Agrees(points, t, minPoints) { AnswerIsDetermined(points, t, minPoints); }
    } else {
      var a, b, c :| LeadPair(points, a, b) && LeadPair(points, a, c) && b != c;
      var t := SecondsDisagree(points, a, b, c);
      AnswerIsDetermined(points, t, minPoints);
      assert !Agrees(points, t, minPoints);
    }
  }

  /** Without a condition on values, that much still suffices. */
  lemma {:induction false} LateTiesNeverMatter(points: seq<Point>, tolerance: real, minPoints: int)
    requires !(minPoints == 1 && |points| == 1)
    requires |points| < MinPointsOf(minPoints) || SharesLeast(points) || SecondIsOne(points)
    ensures Agrees(points, tolerance, minPoints)
  {
    AnswerIsDetermined(points, tolerance, minPoints);
  }

  /** Two runs over one set of points, read in any two orders. */
  lemma {:induction false} DepartureIgnoresOrder(
      a: seq<Point>, b: seq<Point>, tolerance: real, minPoints: int, r: Departure, q: Departure)
    requires multiset(a) == multiset(b) && |a| == |b| && !(minPoints == 1 && |a| == 1)
    requires |a| < MinPointsOf(minPoints) || SharesLeast(a) || SecondsAgree(a, ToleranceOf(tolerance))
    requires Possible(a, tolerance, minPoints, r) && Possible(b, tolerance, minPoints, q)
    ensures r == q
  {
    OnlyTheOrderIsOpen(a, b, tolerance, minPoints, q);
    AnswerIsDetermined(a, tolerance, minPoints);
  }

  lemma {:induction false} Highest(points: seq<Point>, k: int) returns (m: Point)
    requires exists p :: p in points && p.workspaces == k
    ensures m in points && m.workspaces == k
    ensures forall p :: p in points && p.workspaces == k ==> p.value <= m.value
  {
    var init, last := points[..|points| - 1], points[|points| - 1];
    assert points == init + [last];
    assert last in points;
    if exists p :: p in init && p.workspaces == k {
      m := Highest(init, k);
      if last.workspaces == k && last.value > m.value { m := last; }
    } else {
      m := last;
    }
  }

  /** Two different second points disagree at some tolerance: from the lower of them another
      departs at once, and from the highest none does. */
  lemma {:induction false} SecondsDisagree(points: seq<Point>, a: Point, b: Point, c: Point) returns (t: real)
    requires LeadPair(points, a, b) && LeadPair(points, a, c) && b != c
    requires forall p :: p in points ==> 0.0 < p.value
    ensures 0.0 < t && !SecondsAgree(points, t)
  {
    var k := b.workspaces;
    assert c.workspaces == k;
    var high := Highest(points, k);
    var low := if b == high then c else b;
    assert low.value < high.value;
    t := HalfTheGap(low.value, high.value);
    DepartsAtOnce(points, a, low, high, t);
    NoneDepartsAtOnce(points, a, high, t);
    assert LeadPair(points, a, low) && LeadPair(points, a, high);
  }

  lemma HalfTheGap(low: real, high: real) returns (t: real)
    requires 0.0 < low < high
    ensures 0.0 < t && high > low * (1.0 + t)
  {
    t := (high - low) / (2.0 * low);
    assert t * (2.0 * low) == high - low;
    assert low * (1.0 + t) == low + low * t;
  }

  lemma {:induction false} DepartsAtOnce(points: seq<Point>, a: Point, low: Point, high: Point, t: real)
    requires LeadPair(points, a, low) && high in points && high.workspaces == low.workspaces
    requires 0.0 < low.value && 0.0 < t && high.value > low.value * (1.0 + t)
    ensures LeastWhere(points, Departing(Through(a, low), t)) == Some(low.workspaces)
  {
    var test := Departing(Through(a, low), t);
    ThroughMeetsBoth(a, low);
    EndsNeverDepart(a, low, t);
    assert test(high);
    LeastWhereMeaning(points, test);
  }

  lemma {:induction false} NoneDepartsAtOnce(points: seq<Point>, a: Point, high: Point, t: real)
    requires LeadPair(points, a, high) && 0.0 < high.value && 0.0 < t
    requires forall p :: p in points && p.workspaces == high.workspaces ==> p.value <= high.value
    ensures LeastWhere(points, Departing(Through(a, high), t)) != Some(high.workspaces)
  {
    var test := Departing(Through(a, high), t);
    ThroughMeetsBoth(a, high);
    ToleranceAdds(high.value, t);
    LeastWhereMeaning(points, test);
    forall p | p in points && p.workspaces == high.workspaces ensures !test(p) {}
  }

  /** Otherwise it can: four points, read in two orders, with and without a departure. */
  lemma {:induction false} TiesAreAmbiguous(one: Point, low: Point, high: Point, last: Point)
    requires one == Point(1, 1.0) && low == Point(2, 2.0) && high == Point(2, 9.0) && last == Point(3, 5.0)
    ensures Possible([one, low, high, last], 0.0, 0, Departure(true, 2, false, NoReason, 0.25, 4))
    ensures Possible([one, low, high, last], 0.0, 0, Departure(false, 0, false, NoneExceeded, 0.25, 4))
  {
    var s, t := [one, low, high, last], [one, high, low, last];
    TieSortings(one, low, high, last);
    TieOneWay(one, low, high, last);
    TieOtherWay(one, low, high, last);
    assert Sorting(s, s) && Sorting(s, t);
  }

  lemma {:induction false} TieSortings(one: Point, low: Point, high: Point, last: Point)
    requires one.workspaces < low.workspaces == high.workspaces < last.workspaces
    ensures Sorting([one, low, high, last], [one, low, high, last])
    ensures Sorting([one, low, high, last], [one, high, low, last])
  {
    FourAscend(one, low, high, last);
    FourAscend(one, high, low, last);
    SwapMultiset([one, low, high, last], 1, 2);
    assert [one, high, low, last] == [one, low, high, last][1 := high][2 := low];
  }

  lemma {:induction false} FourAscend(a: Point, b: Point, c: Point, d: Point)
    requires a.workspaces <= b.workspaces <= c.workspaces <= d.workspaces
    ensures Ascending([a, b, c, d])
  {}

  lemma {:induction false} TieOneWay(one: Point, low: Point, high: Point, last: Point)
    requires one == Point(1, 1.0) && low == Point(2, 2.0) && high == Point(2, 9.0)
    ensures Detected([one, low, high, last], 0.25, 4) == Departure(true, 2, false, NoReason, 0.25, 4)
  {
    ThroughIsUnique(one, low, Line(0.0, 1.0));
    assert [one, low, high, last][2..] == [high, last];
    assert Line(0.0, 1.0).At(2) == 2.0;
    assert Departs(Line(0.0, 1.0), 0.25, high);
  }

  lemma {:induction false} TieOtherWay(one: Point, low: Point, high: Point, last: Point)
    requires one == Point(1, 1.0) && low == Point(2, 2.0) && high == Point(2, 9.0) && last == Point(3, 5.0)
    ensures Detected([one, high, low, last], 0.25, 4) == Departure(false, 0, false, NoneExceeded, 0.25, 4)
  {
    var line := Line(-7.0, 8.0);
    ThroughIsUnique(one, high, line);
    assert [one, high, low, last][2..] == [low, last] && [low, last][1..] == [last] && [last][1..] == [];
    assert line.At(2) == 9.0 && line.At(3) == 17.0;
    assert !Departs(line, 0.25, low) && !Departs(line, 0.25, last);
    assert FirstWhere([last], Departing(line, 0.25)) == None;
  }

  ghost predicate DistinctCounts(points: seq<Point>) {
    forall i, j :: 0 <= i < j < |points| ==> points[i].workspaces != points[j].workspaces
  }

  lemma {:induction false} DistinctCountsAgree(points: seq<Point>)
    requires DistinctCounts(points)
    ensures !SharesLeast(points) && SecondIsOne(points)
  {
    forall a, b, c | LeadPair(points, a, b) && LeadPair(points, a, c) ensures b == c {
      var i :| 0 <= i < |points| && points[i] == b;
      var j :| 0 <= j < |points| && points[j] == c;
    }
  }

  // ----- Tolerance -----

  lemma {:induction false} LooserDepartsLess(line: Line, low: real, high: real, p: Point)
    requires 0.0 < low <= high && Departs(line, high, p)
    ensures Departs(line, low, p)
  {
    var projected := line.At(p.workspaces);
    assert projected * (1.0 + high) == projected * (1.0 + low) + projected * (high - low);
    assert 0.0 <= projected * (high - low);
  }

  lemma {:induction false} LooserScan(s: seq<Point>, low: Point -> bool, high: Point -> bool)
    requires Ascending(s) && FirstWhere(s, high).Some?
    requires forall p :: p in s && high(p) ==> low(p)
    ensures FirstWhere(s, low).Some?
    ensures FirstWhere(s, low).value.workspaces <= FirstWhere(s, high).value.workspaces
  {
    FirstWhereMeaning(s, high);
    FirstWhereMeaning(s, low);
  }

  lemma {:induction false} LooserDetects(s: seq<Point>, low: real, high: real, minPoints: nat)
    requires 0.0 < low <= high && Ascending(s) && 0 < minPoints && !(minPoints == 1 && |s| == 1)
    requires Detected(s, high, minPoints).found
    ensures Detected(s, low, minPoints).found
    ensures Detected(s, low, minPoints).workspaces <= Detected(s, high, minPoints).workspaces
  {
    var line := Through(s[0], s[1]);
    forall p | Departing(line, high)(p) ensures Departing(line, low)(p) { LooserDepartsLess(line, low, high, p); }
    LooserScan(s[2..], Departing(line, low), Departing(line, high));
  }

  /** No result at the higher tolerance reports what none at the lower does, or reports it at a
      lower count. */
  ghost predicate OnlyDelays(points: seq<Point>, low: real, high: real, minPoints: int)
    requires !(minPoints == 1 && |points| == 1)
  {
    forall r, q :: Possible(points, low, minPoints, r) && Possible(points, high, minPoints, q) && q.found ==>
      r.found && r.workspaces <= q.workspaces
  }

  /** Raising a positive tolerance never creates a departure, nor moves one to a lower count, as
      soon as the answer at the lower tolerance does not depend on the order of the points. */
  lemma {:induction false} RaisingToleranceOnlyDelays(points: seq<Point>, low: real, high: real, minPoints: int)
    requires 0.0 < low <= high && !(minPoints == 1 && |points| == 1) && Agrees(points, low, minPoints)
    ensures OnlyDelays(points, low, high, minPoints)
  {
    forall r, q | Possible(points, low, minPoints, r) && Possible(points, high, minPoints, q) && q.found
      ensures r.found && r.workspaces <= q.workspaces
    {
      var t :| Sorting(points, t) && q == Detected(t, ToleranceOf(high), MinPointsOf(minPoints));
      LooserDetects(t, low, high, MinPointsOf(minPoints));
      assert Possible(points, low, minPoints, Detected(t, ToleranceOf(low), MinPointsOf(minPoints)));
    }
  }

  /** Results over the same points that find the same are the same. */
  lemma {:induction false} SameFindings(points: seq<Point>, t: real, minPoints: int, r: Departure, q: Departure)
    requires !(minPoints == 1 && |points| == 1)
    requires Possible(points, t, minPoints, r) && Possible(points, t, minPoints, q)
    requires r.found <==> q.found
    requires r.found ==> r.workspaces == q.workspaces
    ensures r == q
  {
    DepartureMeaning(points, t, minPoints, r);
    DepartureMeaning(points, t, minPoints, q);
  }

  /** And at all tolerances exactly then: raising it only delays exactly when the answer never
      depends on the order of the points. */
  lemma {:induction false} DelaysExactlyWhenAgreed(points: seq<Point>, minPoints: int)
    requires !(minPoints == 1 && |points| == 1)
    ensures (forall low, high | 0.0 < low <= high :: OnlyDelays(points, low, high, minPoints)) <==>
              forall t | 0.0 < t :: Agrees(points, t, minPoints)
  {
    if forall t | 0.0 < t :: Agrees(points, t, minPoints) {
      forall low, high | 0.0 < low <= high ensures OnlyDelays(points, low, high, minPoints) {
        RaisingToleranceOnlyDelays(points, low, high, minPoints);
      }
    }
    if forall low, high | 0.0 < low <= high :: OnlyDelays(points, low, high, minPoints) {
      forall t | 0.0 < t ensures Agrees(points, t, minPoints) {
        assert OnlyDelays(points, t, t, minPoints);
        forall r, q | Possible(points, t, minPoints, r) && Possible(points, t, minPoints, q) ensures r == q {
          SameFindings(points, t, minPoints, r, q);
        }
      }
    }
  }

  /** Exactly linear cost never departs, whatever the tolerance. */
  lemma {:induction false} LinearNeverDeparts(points: seq<Point>, line: Line, tolerance: real, minPoints: int,
      r: Departure)
    requires forall p :: p in points ==> p.value == line.At(p.workspaces)
    requires !(minPoints == 1 && |points| == 1) && Possible(points, tolerance, minPoints, r)
    ensures !r.found
  {
    var s: seq<Point> :| Sorting(points, s) && r == Detected(s, ToleranceOf(tolerance), MinPointsOf(minPoints));
    SameMembers(points, s);
    if |s| >= MinPointsOf(minPoints) && s[1].workspaces != s[0].workspaces {
      assert s[0] in points && s[1] in points;
      ThroughIsUnique(s[0], s[1], line);
      assert forall p :: p in s[2..] ==> p in s;
      LinearScan(s[2..], line, ToleranceOf(tolerance));
    }
  }

  lemma {:induction false} LinearScan(s: seq<Point>, line: Line, tolerance: real)
    requires 0.0 < tolerance && forall p :: p in s ==> p.value == line.At(p.workspaces)
    ensures FirstWhere(s, Departing(line, tolerance)).None?
  {
    if s != [] {
      if 0.0 < line.At(s[0].workspaces) { ToleranceAdds(line.At(s[0].workspaces), tolerance); }
      assert s[0] in s;
      LinearScan(s[1..], line, tolerance);
    }
  }

  // ----- The report -----

  function PointsOf(samples: seq<Sample>, measure: Sample -> real): (points: seq<Point>)
    ensures |points| == |samples|
    ensures forall i :: 0 <= i < |points| ==> points[i] == Point(samples[i].workspaces, measure(samples[i]))
  {
    seq(|samples|, i requires 0 <= i < |samples| => Point(samples[i].workspaces, measure(samples[i])))
  }

  /** A sample past the baseline was taken at this count. */
  predicate Reached(samples: seq<Sample>, k: int) {
    samples != [] &&
    (Reached(samples[..|samples| - 1], k)
     || (samples[|samples| - 1].phase != Baseline && samples[|samples| - 1].workspaces == k))
  }

  /** The samples a report projects from: the first past the baseline at each count. */
  function Scaling(samples: seq<Sample>): seq<Sample> {
    if samples == [] then []
    else
      var init, s := samples[..|samples| - 1], samples[|samples| - 1];
      Scaling(init) + if s.phase == Baseline || Reached(init, s.workspaces) then [] else [s]
  }

  method ReportDeparture(samples: seq<Sample>, measure: Sample -> real, tolerance: real, minPoints: int)
    returns (r: Departure)
    requires !(minPoints == 1 && |Scaling(samples)| == 1)
    ensures Possible(PointsOf(Scaling(samples), measure), tolerance, minPoints, r)
  {
    var scaling: seq<Sample> := [];
    var seen: set<int> := {};
    for i := 0 to |samples|
      invariant scaling == Scaling(samples[..i])
      invariant forall k :: k in seen <==> Reached(samples[..i], k)
    {
      var s := samples[i];
      assert samples[..i + 1][..i] == samples[..i];
      if s.phase == Baseline || s.workspaces in seen {
        continue;
      }
      seen := seen + {s.workspaces};
      scaling := scaling + [s];
    }
    assert samples[..|samples|] == samples;
    r := FindDeparture(PointsOf(scaling, measure), tolerance, minPoints);
  }

  lemma {:induction false} ReachedMeaning(samples: seq<Sample>, k: int)
    ensures Reached(samples, k) <==> exists s :: s in samples && s.phase != Baseline && s.workspaces == k
  {
    if samples != [] {
      var init, last := samples[..|samples| - 1], samples[|samples| - 1];
      ReachedMeaning(init, k);
      assert samples == init + [last];
      assert last in samples;
    }
  }

  /** The first sample past the baseline at its count is projected from. */
  lemma {:induction false} FirstIsScaling(samples: seq<Sample>, i: nat)
    requires i < |samples| && samples[i].phase != Baseline && !Reached(samples[..i], samples[i].workspaces)
    ensures samples[i] in Scaling(samples)
    decreases |samples|
  {
    var init := samples[..|samples| - 1];
    if i < |init| {
      assert init[..i] == samples[..i];
      FirstIsScaling(init, i);
    }
  }

  /** And only such samples are. */
  lemma {:induction false} ScalingIsFirst(samples: seq<Sample>, s: Sample) returns (i: nat)
    requires s in Scaling(samples)
    ensures i < |samples| && samples[i] == s && s.phase != Baseline && !Reached(samples[..i], s.workspaces)
    ensures Reached(samples, s.workspaces)
    decreases |samples|
  {
    var n := |samples| - 1;
    if s in Scaling(samples[..n]) {
      i := ScalingIsFirst(samples[..n], s);
      assert samples[..n][..i] == samples[..i];
    } else {
      i := n;
    }
  }

  lemma {:induction false} ScalingIsDistinct(samples: seq<Sample>)
    ensures forall i, j :: 0 <= i < j < |Scaling(samples)| ==>
              Scaling(samples)[i].workspaces != Scaling(samples)[j].workspaces
    decreases |samples|
  {
    if samples != [] {
      var init := samples[..|samples| - 1];
      ScalingIsDistinct(init);
      forall i | 0 <= i < |Scaling(init)| ensures Reached(init, Scaling(init)[i].workspaces) {
        var k := ScalingIsFirst(init, Scaling(init)[i]);
      }
    }
  }

  /** So a report never meets the shared-count branch, and its answer is determined. */
  lemma {:induction false} ReportNeverSharesCounts(samples: seq<Sample>, measure: Sample -> real, tolerance: real,
                                                   minPoints: int, r: Departure)
    requires !(minPoints == 1 && |Scaling(samples)| == 1)
    requires Possible(PointsOf(Scaling(samples), measure), tolerance, minPoints, r)
    ensures DistinctCounts(PointsOf(Scaling(samples), measure))
    ensures r.reason != SharedCount
    ensures Agrees(PointsOf(Scaling(samples), measure), tolerance, minPoints)
  {
    ScalingIsDistinct(samples);
    var points := PointsOf(Scaling(samples), measure);
    DistinctCountsAgree(points);
    DepartureMeaning(points, tolerance, minPoints, r);
    LateTiesNeverMatter(points, tolerance, minPoints);
  }

  /** The i-th sample is not a teardown to a count first seen on the way down. */
  predicate Earned(samples: seq<Sample>, i: nat)
    requires i < |samples|
  {
    samples[i].phase == Disengaged ==> Reached(samples[..i], samples[i].workspaces)
  }

  /** Only samples of workspaces being added are projected from exactly when every teardown is
      to a count reached before; a teardown to a new count, zero above all, is projected from. */
  lemma {:induction false} TeardownIsScanned(samples: seq<Sample>)
    ensures (forall s :: s in Scaling(samples) ==> s.phase != Disengaged) <==>
              forall i :: 0 <= i < |samples| ==> Earned(samples, i)
  {
    if i :| 0 <= i < |samples| && !Earned(samples, i) {
      FirstIsScaling(samples, i);
    }
    if s :| s in Scaling(samples) && s.phase == Disengaged {
      var i := ScalingIsFirst(samples, s);
      assert !Earned(samples, i);
    }
  }

  lemma {:induction false} ScalingSnoc(samples: seq<Sample>, s: Sample)
    ensures Scaling(samples + [s]) ==
              Scaling(samples) + if s.phase == Baseline || Reached(samples, s.workspaces) then [] else [s]
    ensures forall k :: Reached(samples + [s], k) <==> Reached(samples, k) || (s.phase != Baseline && s.workspaces == k)
  {
    assert (samples + [s])[..|samples|] == samples;
  }

  function At(phase: Phase, workspaces: int, goroutines: int): Sample { Sample(phase, "", workspaces, goroutines, 0) }

  function Count(): Sample -> real { (s: Sample) => s.goroutines as real }

  lemma {:induction false} SweepOfFour(up: seq<Sample>)
    requires up == [At(Baseline, 0, 5), At(Engaged, 1, 10), At(Engaged, 2, 20), At(Engaged, 3, 30), At(Engaged, 4, 40)]
    ensures Scaling(up) == up[1..] && !Reached(up, 0)
  {
    assert up[..0] == [] && up[..1] == up[..0] + [up[0]] && up[..2] == up[..1] + [up[1]];
    assert up[..3] == up[..2] + [up[2]] && up[..4] == up[..3] + [up[3]] && up == up[..4] + [up[4]];
    ScalingSnoc(up[..0], up[0]);
    ScalingSnoc(up[..1], up[1]);
    ScalingSnoc(up[..2], up[2]);
    ScalingSnoc(up[..3], up[3]);
    ScalingSnoc(up[..4], up[4]);
  }

  lemma {:induction false} PointsOfSweep(up: seq<Sample>, down: Sample)
    requires up == [At(Baseline, 0, 5), At(Engaged, 1, 10), At(Engaged, 2, 20), At(Engaged, 3, 30), At(Engaged, 4, 40)]
    requires down == At(Disengaged, 0, 8)
    ensures PointsOf(Scaling(up), Count()) == [Point(1, 10.0), Point(2, 20.0), Point(3, 30.0), Point(4, 40.0)]
    ensures PointsOf(Scaling(up + [down]), Count()) == PointsOf(Scaling(up), Count()) + [Point(0, 8.0)]
  {
    SweepOfFour(up);
    ScalingSnoc(up, down);
  }

  /** A sweep of four workspaces at ten goroutines each is linear, until the teardown sample at
      zero is projected from as well: then it departs at two. */
  lemma {:induction false} TeardownChangesTheVerdict(up: seq<Sample>, down: Sample, r: Departure, q: Departure)
    requires up == [At(Baseline, 0, 5), At(Engaged, 1, 10), At(Engaged, 2, 20), At(Engaged, 3, 30), At(Engaged, 4, 40)]
    requires down == At(Disengaged, 0, 8)
    requires Possible(PointsOf(Scaling(up), Count()), 0.0, 0, r)
    requires Possible(PointsOf(Scaling(up + [down]), Count()), 0.0, 0, q)
    ensures !r.found
    ensures q.found && q.workspaces == 2
  {
    PointsOfSweep(up, down);
    WithoutTheTeardown(PointsOf(Scaling(up), Count()), r);
    FromTheTeardown(PointsOf(Scaling(up + [down]), Count()), q);
  }

  lemma {:induction false} WithoutTheTeardown(points: seq<Point>, r: Departure)
    requires points == [Point(1, 10.0), Point(2, 20.0), Point(3, 30.0), Point(4, 40.0)]
    requires Possible(points, 0.0, 0, r)
    ensures !r.found
  {
    LinearNeverDeparts(points, Line(0.0, 10.0), 0.0, 0, r);
  }

  lemma {:induction false} DepartsAtTwo(points: seq<Point>, a: Point, b: Point)
    requires points == [b, Point(2, 20.0), Point(3, 30.0), Point(4, 40.0), a]
      && a == Point(0, 8.0) && b == Point(1, 10.0)
    ensures LeastWhere(points, Departing(Through(a, b), 0.25)) == Some(2)
  {
    var line := Line(8.0, 2.0);
    ThroughIsUnique(a, b, line);
    EndsNeverDepart(a, b, 0.25);
    assert line.At(2) == 12.0 && points[1] == Point(2, 20.0);
    assert Departing(line, 0.25)(points[1]);
    LeastWhereMeaning(points, Departing(line, 0.25));
    assert forall p :: p in points && p != a && p != b ==> 2 <= p.workspaces;
  }

  lemma {:induction false} FromTheTeardown(points: seq<Point>, q: Departure)
    requires points == [Point(1, 10.0), Point(2, 20.0), Point(3, 30.0), Point(4, 40.0), Point(0, 8.0)]
    requires Possible(points, 0.0, 0, q)
    ensures q.found && q.workspaces == 2
  {
    var a, b := points[4], points[0];
    DepartsAtTwo(points, a, b);
    LeadsWhenDistinct(points, a, b);
    DepartureMeaning(points, 0.0, 0, q);
  }

  lemma {:induction false} LeadsWhenDistinct(points: seq<Point>, a: Point, b: Point)
    requires DistinctCounts(points) && LeadPair(points, a, b)
    ensures !SharesLeast(points)
    ensures forall c, d :: LeadPair(points, c, d) ==> c == a && d == b
  {
    DistinctCountsAgree(points);
  }
}
