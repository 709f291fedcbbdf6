/** Counting requests, `internal/sweep/counter.go` and the `Counts` of `classify.go`: what a
    tally of classified requests says about the requests that were made. */
module Counting {
  import opened Classification
  import opened MapSums

  type Counts = map<Request, int>
  type Selector = Request -> bool

  // ----- What history says -----

  function Matching(history: seq<Request>, p: Selector): nat {
    if history == [] then 0
    else Matching(history[..|history| - 1], p) + if p(history[|history| - 1]) then 1 else 0
  }

  /** How often each request was made. */
  function Tally(history: seq<Request>): Counts {
    if history == [] then map[]
    else
      var before, r := Tally(history[..|history| - 1]), history[|history| - 1];
      before[r := At(before, r) + 1]
  }

  datatype Stream = Stream(cluster: string, resource: string)

  function StreamOf(r: Request): Stream { Stream(r.cluster, r.resource) }

  ghost function Selected(keys: set<Request>, p: Selector): set<Request> { set r | r in keys && p(r) }

  ghost function StreamsOf(keys: set<Request>): set<Stream> { set r | r in keys :: StreamOf(r) }

  /** The distinct cluster and resource pairs of the requests made that match. */
  ghost function Seen(history: seq<Request>, p: Selector): set<Stream> {
    set r | r in history && p(r) :: StreamOf(r)
  }

  // ----- Totals -----

  /** Every call matching p, repeats included. */
  method Total(c: Counts, p: Selector) returns (n: int)
    ensures n == SumAt(c, Selected(c.Keys, p))
  {
    n := 0;
    var rest := c.Keys;
    assert Selected(rest, p) == Selected(c.Keys, p);
    while rest != {}
      invariant rest <= c.Keys && n + SumAt(c, Selected(rest, p)) == SumAt(c, Selected(c.Keys, p))
      decreases rest
    {
      var r :| r in rest;
      if p(r) {
        SumWithout(c, Selected(rest, p), r);
        n := n + c[r];
      }
      assert Selected(rest - {r}, p) == Selected(rest, p) - {r};
      assert !p(r) ==> Selected(rest, p) - {r} == Selected(rest, p);
      rest := rest - {r};
    }
    assert Selected({}, p) == {};
  }

  /** The distinct requests matching p. */
  method Streams(c: Counts, p: Selector) returns (n: int)
    ensures n == |Selected(c.Keys, p)|
  {
    n := 0;
    var rest := c.Keys;
    while rest != {}
      invariant n + |Selected(rest, p)| == |Selected(c.Keys, p)|
      decreases rest
    {
      var r :| r in rest;
      assert Selected(rest - {r}, p) == Selected(rest, p) - {r};
      if p(r) {
        n := n + 1;
      } else {
        assert Selected(rest - {r}, p) == Selected(rest, p);
      }
      rest := rest - {r};
    }
    assert Selected({}, p) == {};
  }

  /** What is watched, rather than how it was asked for. */
  method DistinctStreams(c: Counts, p: Selector) returns (n: int)
    ensures n == |StreamsOf(Selected(c.Keys, p))|
  {
    var seen: set<Stream> := {};
    var rest := c.Keys;
    while rest != {}
      invariant rest <= c.Keys
      invariant forall s :: s in seen <==> exists r :: r in c.Keys - rest && p(r) && StreamOf(r) == s
      decreases rest
    {
      var r :| r in rest;
      ghost var before := rest;
      rest := rest - {r};
      assert c.Keys - rest == (c.Keys - before) + {r};
      if p(r) {
        seen := seen + {StreamOf(r)};
      }
    }
    assert seen == StreamsOf(Selected(c.Keys, p));
    n := |seen|;
  }

  /** What happened between other and c, unchanged keys dropped. */
  method Sub(c: Counts, other: Counts) returns (delta: Counts)
    ensures delta == Difference(c, other)
  {
    delta := map[];
    var rest := c.Keys;
    while rest != {}
      invariant rest <= c.Keys
      invariant forall r :: r in delta <==> r in c.Keys - rest && c[r] != At(other, r)
      invariant forall r :: r in delta ==> delta[r] == c[r] - At(other, r)
      decreases rest
    {
      var r :| r in rest;
      rest := rest - {r};
      var diff := c[r] - At(other, r);
      if diff != 0 {
        delta := delta[r := diff];
      }
    }
  }

  function Difference(c: Counts, other: Counts): Counts {
    map r | r in c && c[r] != At(other, r) :: c[r] - At(other, r)
  }

  // ----- The counter -----

  class Counter {
    var counts: Counts
    /** Every request observed, in order. */
    ghost var history: seq<Request>

    ghost predicate Valid()
      reads this
    {
      counts == Tally(history)
    }

    constructor ()
      ensures Valid() && history == []
    {
      counts, history := map[], [];
    }

    method Observe(req: Request)
      requires Valid()
      modifies this
      ensures Valid() && history == old(history) + [req]
    {
      assert (history + [req])[..|history|] == history;
      counts := counts[req := (if req in counts then counts[req] else 0) + 1];
      history := history + [req];
    }

    /** The counts so far, which what comes later does not change. */
    method Snapshot() returns (c: Counts)
      requires Valid()
      ensures c == Tally(history)
    {
      c := counts;
    }

    /** A request is counted as it is sent. */
    method RoundTrip(httpMethod: string, path: string, query: Query)
      requires Valid()
      modifies this
      ensures Valid() && history == old(history) + [Classified(httpMethod, Segments(path), query)]
    {
      var req := Classify(httpMethod, path, query);
      Observe(req);
    }
  }

  // ----- The counts agree with the history -----

  lemma {:induction false} TallyAt(history: seq<Request>, r: Request)
    ensures r in Tally(history) <==> r in history
    ensures At(Tally(history), r) == Matching(history, (q: Request) => q == r)
    ensures r in Tally(history) ==> Tally(history)[r] > 0
  {
    if history != [] {
      var init, last := history[..|history| - 1], history[|history| - 1];
      TallyAt(init, r);
      TallyAt(init, last);
      assert history == init + [last];
    }
  }

  lemma {:induction false} SelectedUpdate(c: Counts, r: Request, v: int, p: Selector)
    ensures SumAt(c[r := v], Selected(c[r := v].Keys, p)) + (if p(r) then At(c, r) else 0)
         == SumAt(c, Selected(c.Keys, p)) + if p(r) then v else 0
  {
    var n := c[r := v];
    var others := Selected(c.Keys, p) - {r};
    assert Selected(n.Keys, p) - {r} == others;
    SumAgrees(c, n, others);
    if p(r) {
      assert r in Selected(n.Keys, p);
      SumWithout(n, Selected(n.Keys, p), r);
      if r in c { SumWithout(c, Selected(c.Keys, p), r); } else { assert others == Selected(c.Keys, p); }
    } else {
      assert Selected(n.Keys, p) == others == Selected(c.Keys, p);
    }
  }

  /** Total is the number of requests made that match. */
  lemma {:induction false} TotalIsMatching(history: seq<Request>, p: Selector)
    ensures SumAt(Tally(history), Selected(Tally(history).Keys, p)) == Matching(history, p)
  {
    if history == [] {
      assert Selected(Tally(history).Keys, p) == {};
    } else {
      var init, last := history[..|history| - 1], history[|history| - 1];
      TotalIsMatching(init, p);
      SelectedUpdate(Tally(init), last, At(Tally(init), last) + 1, p);
    }
  }

  /** Where in the history the matching requests are. */
  ghost function Positions(history: seq<Request>, p: Selector): set<int> {
    set i | 0 <= i < |history| && p(history[i])
  }

  lemma {:induction false} PositionsNext(history: seq<Request>, p: Selector, last: Request)
    ensures Positions(history + [last], p) == Positions(history, p) + if p(last) then {|history|} else {}
  {
    var all := history + [last];
    assert forall i :: 0 <= i < |history| ==> all[i] == history[i];
    assert all[|history|] == last;
  }

  /** And in terms of positions in the history. */
  lemma {:induction false} MatchingIsCount(history: seq<Request>, p: Selector)
    ensures Matching(history, p) == |Positions(history, p)|
  {
    if history == [] {
      assert Positions(history, p) == {};
    } else {
      var init, last := history[..|history| - 1], history[|history| - 1];
      MatchingIsCount(init, p);
      PositionsNext(init, p, last);
      assert history == init + [last];
    }
  }

  /** Streams counts the distinct requests that match, DistinctStreams the distinct
      cluster and resource pairs among them. */
  lemma {:induction false} StreamsAreDistinct(history: seq<Request>, p: Selector)
    ensures Selected(Tally(history).Keys, p) == set r | r in history && p(r)
    ensures StreamsOf(Selected(Tally(history).Keys, p)) == Seen(history, p)
  {
    forall r ensures r in Tally(history).Keys <==> r in history { TallyAt(history, r); }
  }

  lemma {:induction false} ImageIsNoLarger(keys: set<Request>)
    ensures |StreamsOf(keys)| <= |keys|
    decreases keys
  {
    if keys == {} {
      assert StreamsOf(keys) == {};
    } else {
      var r :| r in keys;
      ImageIsNoLarger(keys - {r});
      assert StreamsOf(keys) <= StreamsOf(keys - {r}) + {StreamOf(r)};
      SubsetIsNoLarger(StreamsOf(keys), StreamsOf(keys - {r}) + {StreamOf(r)});
    }
  }

  lemma {:induction false} SubsetIsNoLarger<T>(a: set<T>, b: set<T>)
    requires a <= b
    ensures |a| <= |b|
  {
    assert b == a + (b - a);
  }

  lemma {:induction false} DistinctAtMostMatching(history: seq<Request>, p: Selector)
    ensures |Selected(Tally(history).Keys, p)| <= Matching(history, p)
  {
    if history == [] {
      assert Selected(Tally(history).Keys, p) == {};
    } else {
      var init, last := history[..|history| - 1], history[|history| - 1];
      DistinctAtMostMatching(init, p);
      var before, after := Selected(Tally(init).Keys, p), Selected(Tally(history).Keys, p);
      assert after == if p(last) then before + {last} else before;
    }
  }

  /** Distinct streams are at most streams, and streams at most calls. */
  lemma {:induction false} CountsAreOrdered(history: seq<Request>, p: Selector)
    ensures |StreamsOf(Selected(Tally(history).Keys, p))| <= |Selected(Tally(history).Keys, p)| <= Matching(history, p)
  {
    ImageIsNoLarger(Selected(Tally(history).Keys, p));
    DistinctAtMostMatching(history, p);
  }

  lemma {:induction false} TallyOfBoth(earlier: seq<Request>, later: seq<Request>, r: Request)
    ensures At(Tally(earlier + later), r) == At(Tally(earlier), r) + At(Tally(later), r)
    decreases |later|
  {
    if later == [] {
      assert earlier + later == earlier;
    } else {
      var init, last := later[..|later| - 1], later[|later| - 1];
      TallyOfBoth(earlier, init, r);
      TallyOfBoth(earlier, init, last);
      assert (earlier + later)[..|earlier + later| - 1] == earlier + init;
    }
  }

  /** A later snapshot less an earlier one is the tally of exactly the requests in between. */
  lemma {:induction false} SubIsWhatHappenedBetween(earlier: seq<Request>, later: seq<Request>)
    ensures Difference(Tally(earlier + later), Tally(earlier)) == Tally(later)
  {
    var c := Tally(earlier + later);
    forall r ensures (r in Difference(c, Tally(earlier)) <==> r in Tally(later))
                     && At(Difference(c, Tally(earlier)), r) == At(Tally(later), r)
    {
      TallyOfBoth(earlier, later, r);
      TallyAt(earlier + later, r);
      TallyAt(earlier, r);
      TallyAt(later, r);
    }
    forall r | r in Tally(later) ensures Difference(c, Tally(earlier))[r] == Tally(later)[r] {
      assert At(Difference(c, Tally(earlier)), r) == At(Tally(later), r);
    }
  }

  // ----- Traffic -----

  predicate IsWatch(r: Request) { r.verb == Watch || r.verb == WatchList }
  predicate IsList(r: Request) { r.verb == List }
  predicate IsDiscovery(r: Request) { r.verb == Discovery }
  predicate IsWildcard(r: Request) { r.cluster == WILDCARD_CLUSTER }
  predicate IsWorkspaceScoped(r: Request) { r.cluster != "" && r.cluster != WILDCARD_CLUSTER }
  predicate IsUnaddressed(r: Request) { r.cluster == "" }
  predicate Any(r: Request) { true }

  function And(p: Selector, q: Selector): Selector { (r: Request) => p(r) && q(r) }

  datatype Traffic = Traffic(
    watchStreams: int, wildcardWatchStreams: int, scopedWatchStreams: int, lists: int, discovery: int, total: int)

  ghost predicate TrafficIs(history: seq<Request>, t: Traffic) {
    && t.watchStreams == |Seen(history, IsWatch)|
    && t.wildcardWatchStreams == |Seen(history, And(IsWatch, IsWildcard))|
    && t.scopedWatchStreams == |Seen(history, And(IsWatch, IsWorkspaceScoped))|
    && t.lists == Matching(history, IsList) && t.discovery == Matching(history, IsDiscovery)
    && t.total == |history|
  }

  /** The cluster and resource pairs watched, by either kind of watch. */
  ghost function Watched(history: seq<Request>): set<Stream> {
    set r | r in history && r.verb in {Watch, WatchList} :: Stream(r.cluster, r.resource)
  }

  /** How many requests had the verb. */
  ghost function Made(history: seq<Request>, verb: Verb): set<int> {
    set i | 0 <= i < |history| && history[i].verb == verb
  }

  lemma {:induction false} MadeMatch(history: seq<Request>, verb: Verb, p: Selector)
    requires forall r :: p(r) <==> r.verb == verb
    ensures Matching(history, p) == |Made(history, verb)|
  {
    MatchingIsCount(history, p);
    assert Positions(history, p) == Made(history, verb);
  }

  /** The report in terms of the requests made: distinct cluster and resource pairs watched in all,
      across every cluster, and in one workspace; and numbers of requests. */
  lemma {:induction false} TrafficMeaning(history: seq<Request>, t: Traffic)
    requires TrafficIs(history, t)
    ensures t.watchStreams == |Watched(history)|
    ensures t.wildcardWatchStreams == |set s | s in Watched(history) && s.cluster == "*"|
    ensures t.scopedWatchStreams == |set s | s in Watched(history) && s.cluster != "*" && s.cluster != ""|
    ensures t.lists == |Made(history, List)| && t.discovery == |Made(history, Discovery)|
    ensures t.total == |history|
  {
    assert Seen(history, IsWatch) == Watched(history);
    assert Seen(history, And(IsWatch, IsWildcard)) == set s | s in Watched(history) && s.cluster == "*";
    assert Seen(history, And(IsWatch, IsWorkspaceScoped)) ==
        set s | s in Watched(history) && s.cluster != "*" && s.cluster != "";
    MadeMatch(history, List, IsList);
    MadeMatch(history, Discovery, IsDiscovery);
  }

  method TrafficOf(c: Counts, ghost history: seq<Request>) returns (t: Traffic)
    requires c == Tally(history)
    ensures TrafficIs(history, t)
  {
    var watches := DistinctStreams(c, IsWatch);
    var wildcard := DistinctStreams(c, And(IsWatch, IsWildcard));
    var scoped := DistinctStreams(c, And(IsWatch, IsWorkspaceScoped));
    var lists := Total(c, IsList);
    var discovery := Total(c, IsDiscovery);
    var total := Total(c, Any);
    StreamsAreDistinct(history, IsWatch);
    StreamsAreDistinct(history, And(IsWatch, IsWildcard));
    StreamsAreDistinct(history, And(IsWatch, IsWorkspaceScoped));
    TotalIsMatching(history, IsList);
    TotalIsMatching(history, IsDiscovery);
    TotalIsMatching(history, Any);
    AnyMatchesAll(history);
    t := Traffic(watches, wildcard, scoped, lists, discovery, total);
  }

  lemma {:induction false} AnyMatchesAll(history: seq<Request>)
    ensures Matching(history, Any) == |history|
  {
    if history != [] { AnyMatchesAll(history[..|history| - 1]); }
  }

  lemma {:induction false} DividedByCluster(history: seq<Request>, p: Selector, q: Selector)
    ensures Seen(history, And(p, q)) <= Seen(history, p)
    ensures forall s :: s in Seen(history, And(p, q)) ==> exists r :: r in history && p(r) && q(r) && StreamOf(r) == s
  {}

  /** Every watched stream is wildcard, scoped to one workspace, or addressed to no cluster, and
      no stream is two of these. */
  lemma {:induction false} WatchesDivide(history: seq<Request>)
    ensures |Seen(history, IsWatch)|
         == |Seen(history, And(IsWatch, IsWildcard))| + |Seen(history, And(IsWatch, IsWorkspaceScoped))|
            + |Seen(history, And(IsWatch, IsUnaddressed))|
  {
    var all := Seen(history, IsWatch);
    var wildcard, scoped := Seen(history, And(IsWatch, IsWildcard)), Seen(history, And(IsWatch, IsWorkspaceScoped));
    var neither := Seen(history, And(IsWatch, IsUnaddressed));
    DividedByCluster(history, IsWatch, IsWildcard);
    DividedByCluster(history, IsWatch, IsWorkspaceScoped);
    DividedByCluster(history, IsWatch, IsUnaddressed);
    forall s | s in all ensures s in wildcard + scoped + neither {
      var r :| r in history && IsWatch(r) && StreamOf(r) == s;
      assert And(IsWatch, IsWildcard)(r) || And(IsWatch, IsWorkspaceScoped)(r) || And(IsWatch, IsUnaddressed)(r);
    }
    assert all == wildcard + scoped + neither;
    assert wildcard !! scoped && (wildcard + scoped) !! neither;
  }
}
