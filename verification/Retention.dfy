/** What departed workspaces still cost, `internal/sweep/retained.go`: each teardown sample
    against the sample at the same count on the way up. */
module Retained {
  import opened Options
  import opened Ordering
  import opened Samples

  datatype Retention = Retention(perDeparture: real, departed: int, up: Sample, down: Sample)

  // ----- What can be compared -----

  /** The last sample a phase took at a count. */
  function Latest(samples: seq<Sample>, phase: Phase, k: int): Option<Sample> {
    if samples == [] then None
    else
      var s := samples[|samples| - 1];
      if s.phase == phase && s.workspaces == k then Some(s) else Latest(samples[..|samples| - 1], phase, k)
  }

  /** The highest count reached while workspaces were active. */
  function Peak(samples: seq<Sample>): (peak: nat) {
    if samples == [] then 0
    else
      var before, s := Peak(samples[..|samples| - 1]), samples[|samples| - 1];
      if s.phase == Active && s.workspaces > before then s.workspaces else before
  }

  /** Both ends of a comparison exist at k, and k is neither the peak nor empty. */
  predicate Comparable(samples: seq<Sample>, k: int) {
    1 <= k < Peak(samples) && Latest(samples, Active, k).Some? && Latest(samples, Disengaged, k).Some?
  }

  function Excess(samples: seq<Sample>, measure: Sample -> real, k: int): real
    requires Comparable(samples, k)
  {
    measure(Latest(samples, Disengaged, k).value) - measure(Latest(samples, Active, k).value)
  }

  function RetentionAt(samples: seq<Sample>, measure: Sample -> real, k: int): Retention
    requires Comparable(samples, k)
  {
    Retention(Excess(samples, measure, k) / (Peak(samples) - k) as real, Peak(samples) - k,
      Latest(samples, Active, k).value, Latest(samples, Disengaged, k).value)
  }

  /** u and d can be compared: the last samples of their phases at one count, the highest count of
      the way up being higher by departed. */
  ghost predicate Pair(samples: seq<Sample>, u: Sample, d: Sample, departed: int) {
    && 1 <= u.workspaces == d.workspaces && departed >= 1
    && (exists i :: LastAt(samples, Active, u.workspaces, i) && samples[i] == u)
    && (exists j :: LastAt(samples, Disengaged, u.workspaces, j) && samples[j] == d)
    && (exists s :: s in samples && s.phase == Active && s.workspaces == u.workspaces + departed)
    && (forall s :: s in samples && s.phase == Active ==> s.workspaces <= u.workspaces + departed)
  }

  /** a is the better pair: cheaper, or as cheap and averaged over more departures. */
  predicate NoWorse(a: Retention, b: Retention) {
    a.perDeparture < b.perDeparture || (a.perDeparture == b.perDeparture && a.departed >= b.departed)
  }

  /** The answer: the best of every comparable pair, or none when there is no pair. */
  ghost predicate IsAnswer(samples: seq<Sample>, measure: Sample -> real, r: Option<Retention>) {
    && (r.Some? <==> exists k :: Comparable(samples, k))
    && (r.Some? ==> exists k :: Comparable(samples, k) && r.value == RetentionAt(samples, measure, k))
    && (r.Some? ==> forall k :: Comparable(samples, k) ==> NoWorse(r.value, RetentionAt(samples, measure, k)))
  }

  /** The i-th sample is the last that the phase took at the count. */
  predicate LastAt(samples: seq<Sample>, phase: Phase, k: int, i: int) {
    && 0 <= i < |samples| && samples[i].phase == phase && samples[i].workspaces == k
    && forall j :: i < j < |samples| ==> samples[j].phase != phase || samples[j].workspaces != k
  }

  lemma {:induction false} LatestMeaning(samples: seq<Sample>, phase: Phase, k: int)
    ensures Latest(samples, phase, k).Some? <==> exists s :: s in samples && s.phase == phase && s.workspaces == k
    ensures forall s :: Latest(samples, phase, k) == Some(s) <==>
              exists i :: LastAt(samples, phase, k, i) && samples[i] == s
  {
    if samples != [] {
      var n := |samples| - 1;
      var init, last := samples[..n], samples[n];
      LatestMeaning(init, phase, k);
      assert samples == init + [last];
      assert last in samples;
      if last.phase == phase && last.workspaces == k {
        assert LastAt(samples, phase, k, n);
        assert forall i :: LastAt(samples, phase, k, i) ==> i == n;
      } else {
        assert forall i :: LastAt(samples, phase, k, i) <==> LastAt(init, phase, k, i);
      }
    }
  }

  /** A pair is comparable exactly when both phases sampled the count, below some active count. */
  lemma {:induction false} ComparableMeaning(samples: seq<Sample>, k: int)
    ensures Comparable(samples, k) <==>
              && 1 <= k
              && (exists u :: u in samples && u.phase == Active && u.workspaces == k)
              && (exists d :: d in samples && d.phase == Disengaged && d.workspaces == k)
              && (exists p :: p in samples && p.phase == Active && p.workspaces > k)
  {
    LatestMeaning(samples, Active, k);
    LatestMeaning(samples, Disengaged, k);
    PeakMeaning(samples);
  }

  lemma {:induction false} PeakMeaning(samples: seq<Sample>)
    ensures forall s :: s in samples && s.phase == Active ==> s.workspaces <= Peak(samples)
    ensures Peak(samples) > 0 ==> exists s :: s in samples && s.phase == Active && s.workspaces == Peak(samples)
  {
    if samples != [] {
      var init, last := samples[..|samples| - 1], samples[|samples| - 1];
      PeakMeaning(init);
      assert samples == init + [last];
      assert last in samples;
    }
  }

  // ----- The code -----

  type ByCount = map<int, Sample>

  ghost predicate Holds(m: ByCount, samples: seq<Sample>, phase: Phase) {
    forall k :: (k in m <==> Latest(samples, phase, k).Some?) && (k in m ==> m[k] == Latest(samples, phase, k).value)
  }

  method Collect(samples: seq<Sample>) returns (up: ByCount, down: ByCount, peak: int)
    ensures Holds(up, samples, Active) && Holds(down, samples, Disengaged) && peak == Peak(samples)
  {
    up, down, peak := map[], map[], 0;
    for i := 0 to |samples|
      invariant Holds(up, samples[..i], Active) && Holds(down, samples[..i], Disengaged)
      invariant peak == Peak(samples[..i])
    {
      var s := samples[i];
      assert samples[..i + 1][..i] == samples[..i];
      match s.phase {
        case Active =>
          if s.workspaces > peak {
            peak := s.workspaces;
          }
          up := up[s.workspaces := s];
        case Disengaged =>
          down := down[s.workspaces := s];
        case _ =>
      }
    }
    assert samples[..|samples|] == samples;
  }

  function Below(): (int, int) -> bool { (a: int, b: int) => a < b }

  method RetainedDetail(samples: seq<Sample>, measure: Sample -> real) returns (r: Option<Retention>)
    ensures IsAnswer(samples, measure, r) && Answers(samples, measure, r)
  {
    var up, down, peak := Collect(samples);
    if peak < 2 {
      AnswerMeaning(samples, measure, None);
      return None;
    }
    var counts := SortedKeys(down.Keys, Below());
    r := Best(samples, measure, up, down, peak, counts);
    assert forall k :: Comparable(samples, k) ==> k in down.Keys;
    AnswerMeaning(samples, measure, r);
  }

  ghost predicate BestOf(samples: seq<Sample>, measure: Sample -> real, counts: seq<int>, r: Option<Retention>) {
    && (r.None? ==> forall k :: k in counts ==> !Comparable(samples, k))
    && (r.Some? ==> exists k :: k in counts && Comparable(samples, k) && r.value == RetentionAt(samples, measure, k))
    && (r.Some? ==> forall k :: k in counts && Comparable(samples, k) ==>
            NoWorse(r.value, RetentionAt(samples, measure, k)))
  }

  method Best(samples: seq<Sample>, measure: Sample -> real, up: ByCount, down: ByCount, peak: int, counts: seq<int>)
    returns (best: Option<Retention>)
    requires Holds(up, samples, Active) && Holds(down, samples, Disengaged) && peak == Peak(samples)
    requires forall k :: k in counts ==> k in down
    ensures BestOf(samples, measure, counts, best)
  {
    best := None;
    for i := 0 to |counts|
      invariant BestOf(samples, measure, counts[..i], best)
    {
      var k := counts[i];
      assert counts[..i + 1] == counts[..i] + [k];
      var d := down[k];
      if k < 1 || k >= peak {
        continue;
      }
      if k !in up {
        continue;
      }
      var u := up[k];
      var departed := peak - k;
      var candidate := Retention((measure(d) - measure(u)) / departed as real, departed, u, d);
      assert candidate == RetentionAt(samples, measure, k);
      if best.None? || candidate.perDeparture < best.value.perDeparture
         || (candidate.perDeparture == best.value.perDeparture && candidate.departed > best.value.departed)
      {
        best := Some(candidate);
      }
    }
    assert counts[..|counts|] == counts;
  }

  // ----- What the answer is worth -----

  lemma {:induction false} PairsAreComparable(samples: seq<Sample>, u: Sample, d: Sample, departed: int)
    ensures Pair(samples, u, d, departed) <==>
              var k := u.workspaces;
              && Comparable(samples, k) && departed == Peak(samples) - k
              && Latest(samples, Active, k) == Some(u) && Latest(samples, Disengaged, k) == Some(d)
  {
    LatestMeaning(samples, Active, u.workspaces);
    LatestMeaning(samples, Disengaged, u.workspaces);
    PeakMeaning(samples);
  }

  /** The cost of a comparable count, in readings alone. */
  lemma {:induction false} RetentionIsOfAPair(samples: seq<Sample>, measure: Sample -> real, k: int)
    requires Comparable(samples, k)
    ensures var r := RetentionAt(samples, measure, k);
      && r.up.workspaces == k && Pair(samples, r.up, r.down, r.departed)
      && r.perDeparture * r.departed as real == measure(r.down) - measure(r.up)
  {
    var r := RetentionAt(samples, measure, k);
    LatestIsAt(samples, Active, k);
    PairsAreComparable(samples, r.up, r.down, r.departed);
    Spread(Excess(samples, measure, k), r.departed as real);
  }

  lemma {:induction false} LatestIsAt(samples: seq<Sample>, phase: Phase, k: int)
    ensures Latest(samples, phase, k).Some? ==> Latest(samples, phase, k).value.workspaces == k
  {
    LatestMeaning(samples, phase, k);
  }

  lemma Spread(a: real, n: real)
    requires n != 0.0
    ensures a / n * n == a
  {}

  lemma {:induction false} PairIsComparable(samples: seq<Sample>, measure: Sample -> real, u: Sample, d: Sample,
      departed: int)
    requires Pair(samples, u, d, departed)
    ensures Comparable(samples, u.workspaces)
    ensures var r := RetentionAt(samples, measure, u.workspaces);
      r.up == u && r.down == d && r.departed == departed
  {
    PairsAreComparable(samples, u, d, departed);
  }

  /** r is no more per departure than the reading over n departures, and if equal, over as many. */
  ghost predicate BestAgainst(r: Retention, reading: real, n: int) {
    && r.perDeparture * n as real <= reading
    && (r.perDeparture * n as real == reading ==> r.departed >= n)
  }

  lemma PerDepartureAgainst(r: Retention, other: Retention, reading: real)
    requires other.departed >= 1 && other.perDeparture * other.departed as real == reading
    ensures NoWorse(r, other) <==> BestAgainst(r, reading, other.departed)
  {
    var n := other.departed as real;
    assert reading - r.perDeparture * n == (other.perDeparture - r.perDeparture) * n;
    if r.perDeparture < other.perDeparture { Positive(other.perDeparture - r.perDeparture, n); }
    if r.perDeparture > other.perDeparture { Positive(r.perDeparture - other.perDeparture, n); }
  }

  lemma Positive(a: real, b: real)
    requires a > 0.0 && b > 0.0
    ensures a * b > 0.0
  {}

  /** The answer in terms of the samples: none when no two can be compared, and otherwise a pair,
      with what its teardown reading is above its active one spread over the departures, such
      that no pair's is lower and none as low has more departures. */
  ghost predicate Answers(samples: seq<Sample>, measure: Sample -> real, r: Option<Retention>) {
    match r
    case None => forall u, d, n :: !Pair(samples, u, d, n)
    case Some(best) =>
      && Pair(samples, best.up, best.down, best.departed)
      && best.perDeparture * best.departed as real == measure(best.down) - measure(best.up)
      && forall u, d, n :: Pair(samples, u, d, n) ==> BestAgainst(best, measure(d) - measure(u), n)
  }

  lemma {:induction false} AnswerBeats(samples: seq<Sample>, measure: Sample -> real, r: Option<Retention>,
      u: Sample, d: Sample, n: int)
    requires IsAnswer(samples, measure, r) && Pair(samples, u, d, n)
    ensures r.Some? && BestAgainst(r.value, measure(d) - measure(u), n)
  {
    var other := OfPair(samples, measure, u, d, n);
    PerDepartureAgainst(r.value, other, measure(d) - measure(u));
  }

  lemma {:induction false} OfPair(samples: seq<Sample>, measure: Sample -> real, u: Sample, d: Sample, n: int)
    returns (r: Retention)
    requires Pair(samples, u, d, n)
    ensures Comparable(samples, u.workspaces) && r == RetentionAt(samples, measure, u.workspaces)
    ensures r.departed == n && r.perDeparture * n as real == measure(d) - measure(u)
  {
    PairIsComparable(samples, measure, u, d, n);
    RetentionIsOfAPair(samples, measure, u.workspaces);
    r := RetentionAt(samples, measure, u.workspaces);
  }

  lemma {:induction false} AnswerMeaning(samples: seq<Sample>, measure: Sample -> real, r: Option<Retention>)
    requires IsAnswer(samples, measure, r)
    ensures Answers(samples, measure, r)
  {
    forall u, d, n | Pair(samples, u, d, n)
      ensures r.Some? && BestAgainst(r.value, measure(d) - measure(u), n)
    {
      AnswerBeats(samples, measure, r, u, d, n);
    }
    if r.Some? {
      var k :| Comparable(samples, k) && r.value == RetentionAt(samples, measure, k);
      RetentionIsOfAPair(samples, measure, k);
    }
  }

  lemma SameQuotient(a: real, b: real, n: real)
    requires n > 0.0
    ensures a * n == b * n <==> a == b
    ensures a * n <= b * n <==> a <= b
  {
    if a < b { Positive(b - a, n); }
    if a > b { Positive(a - b, n); }
    assert a * n - b * n == (a - b) * n;
  }

  /** The answer is one pair, and only one can be it. */
  lemma {:induction false} AnswerIsUnique(samples: seq<Sample>, measure: Sample -> real, r: Option<Retention>,
      q: Option<Retention>)
    requires Answers(samples, measure, r) && Answers(samples, measure, q)
    ensures r == q
  {
    if r.Some? && q.Some? {
      var a, b := r.value, q.value;
      PerDepartureAgainst(a, b, measure(b.down) - measure(b.up));
      PerDepartureAgainst(b, a, measure(a.down) - measure(a.up));
      OnePairEach(samples, a.up, a.down, b.up, b.down, a.departed);
    }
  }

  lemma {:induction false} OnePairEach(samples: seq<Sample>, u: Sample, d: Sample, u': Sample, d': Sample, n: int)
    requires Pair(samples, u, d, n) && Pair(samples, u', d', n)
    ensures u == u' && d == d'
  {
    PairsAreComparable(samples, u, d, n);
    PairsAreComparable(samples, u', d', n);
  }

  /** The pair reads exactly what rho retained for each departure would give. */
  ghost predicate ReadsAs(samples: seq<Sample>, measure: Sample -> real, rho: real, u: Sample, d: Sample, n: int) {
    Pair(samples, u, d, n) && measure(d) - measure(u) == rho * n as real
  }

  lemma AnswerAgainst(r: Retention, rho: real, rise: real)
    requires r.departed >= 1 && r.perDeparture * r.departed as real == rise >= rho * r.departed as real
    ensures r.perDeparture >= rho
    ensures r.perDeparture == rho <==> rise == rho * r.departed as real
  {
    SameQuotient(rho, r.perDeparture, r.departed as real);
  }

  lemma {:induction false} NothingReadsLess(samples: seq<Sample>, measure: Sample -> real, rho: real, r: Retention)
    requires Answers(samples, measure, Some(r)) && r.perDeparture > rho
    ensures forall u, d, n :: !ReadsAs(samples, measure, rho, u, d, n)
  {
    forall u, d, n | Pair(samples, u, d, n) ensures measure(d) - measure(u) != rho * n as real {
      PairAbove(r, rho, measure(d) - measure(u), n);
    }
  }

  /** When a teardown reading is never below what rho retained for each departure would give, the
      answer never understates rho, and is exactly rho when and only when some pair reads so. */
  lemma {:induction false} NoiseOnlyInflates(samples: seq<Sample>, measure: Sample -> real, rho: real, r: Retention)
    requires IsAnswer(samples, measure, Some(r))
    requires forall u, d, n :: Pair(samples, u, d, n) ==> measure(d) - measure(u) >= rho * n as real
    ensures r.perDeparture >= rho
    ensures r.perDeparture == rho <==> exists u, d, n :: ReadsAs(samples, measure, rho, u, d, n)
  {
    AnswerMeaning(samples, measure, Some(r));
    AnswerAgainst(r, rho, measure(r.down) - measure(r.up));
    if r.perDeparture == rho {
      assert ReadsAs(samples, measure, rho, r.up, r.down, r.departed);
    } else {
      NothingReadsLess(samples, measure, rho, r);
    }
  }

  lemma PairAbove(r: Retention, rho: real, reading: real, n: int)
    requires n >= 1 && r.perDeparture > rho && BestAgainst(r, reading, n)
    ensures reading > rho * n as real
  {
    SameQuotient(r.perDeparture, rho, n as real);
  }

  /** The branch that prefers more departures at equal cost is never taken: the scan goes by
      increasing count, so whatever is best so far had more departures already. */
  lemma {:induction false} LaterCandidatesDepartLess(samples: seq<Sample>, measure: Sample -> real, counts: seq<int>,
      i: nat, best: Retention)
    requires StrictlySorted(Below(), counts) && i < |counts| && Comparable(samples, counts[i])
    requires exists k :: k in counts[..i] && Comparable(samples, k) && best == RetentionAt(samples, measure, k)
    ensures RetentionAt(samples, measure, counts[i]).departed < best.departed
  {
    var k :| k in counts[..i] && Comparable(samples, k) && best == RetentionAt(samples, measure, k);
    var j :| 0 <= j < i && counts[j] == k;
    assert Below()(counts[j], counts[i]);
  }
}
