/** What a request costs the shard, `internal/sweep/classify.go`: its path and query reduced to
    a verb, a logical cluster and a resource. */
module Classification {
  import opened Options

  // ----- Paths -----

  /** The position of the first slash, or the length when there is none. */
  function Slash(s: string): (i: nat)
    ensures i <= |s| && '/' !in s[..i] && (i < |s| ==> s[i] == '/')
  {
    if s == "" || s[0] == '/' then 0
    else
      var i := Slash(s[1..]);
      assert s[..1 + i] == [s[0]] + s[1..][..i];
      1 + i
  }

  /** The maximal runs without a slash. */
  function Segments(s: string): seq<string>
    decreases |s|
  {
    if s == "" then []
    else
      var i := Slash(s);
      (if i == 0 then [] else [s[..i]]) + (if i < |s| then Segments(s[i + 1..]) else [])
  }

  predicate IsSegment(x: string) { x != "" && '/' !in x }

  lemma {:induction false} SegmentsAreSegments(s: string, x: string)
    requires x in Segments(s)
    ensures IsSegment(x)
    decreases |s|
  {
    var i := Slash(s);
    if i < |s| && x in Segments(s[i + 1..]) { SegmentsAreSegments(s[i + 1..], x); }
  }

  lemma {:induction false} SegmentsAfter(x: string, rest: string)
    requires '/' !in x
    ensures Segments(x + "/" + rest) == (if x == "" then [] else [x]) + Segments(rest)
  {
    var s := x + "/" + rest;
    SlashAfter(x, rest);
    assert s[..|x|] == x && s[|x| + 1..] == rest;
  }

  lemma {:induction false} SlashAfter(x: string, rest: string)
    requires '/' !in x
    ensures Slash(x + "/" + rest) == |x|
  {
    if x != "" {
      SlashAfter(x[1..], rest);
      assert (x + "/" + rest)[1..] == x[1..] + "/" + rest;
    }
  }

  lemma {:induction false} SegmentAlone(x: string)
    requires IsSegment(x)
    ensures Segments(x) == [x]
  {
    assert Slash(x) == |x| && x[..|x|] == x;
  }

  lemma {:induction false} SegmentsStep(s: string)
    requires s != ""
    ensures var i := Slash(s);
            Segments(s) == (if i == 0 then [] else [s[..i]]) + Segments(if i < |s| then s[i + 1..] else "")
  {}

  lemma {:induction false} TrailingSlash(s: string)
    ensures Segments(s + "/") == Segments(s)
    decreases |s|
  {
    var i := Slash(s);
    assert s == s[..i] + s[i..];
    if i < |s| {
      assert s == s[..i] + "/" + s[i + 1..];
      assert s + "/" == s[..i] + "/" + (s[i + 1..] + "/");
      SegmentsAfter(s[..i], s[i + 1..]);
      SegmentsAfter(s[..i], s[i + 1..] + "/");
      TrailingSlash(s[i + 1..]);
    } else {
      assert s[..i] == s && s + "/" == s + "/" + "";
      SegmentsAfter(s, "");
      if s != "" { SegmentAlone(s); }
    }
  }

  lemma {:induction false} LastCharacter(s: string)
    requires s != "" && s[|s| - 1] == '/'
    ensures s == s[..|s| - 1] + "/"
  {}

  lemma {:induction false} DropTrailing(s: string, t: string)
    requires s == t + "/"
    ensures Segments(s) == Segments(t)
  {
    TrailingSlash(t);
  }

  lemma {:induction false} LeadingSlash(s: string)
    requires s != "" && s[0] == '/'
    ensures Segments(s) == Segments(s[1..])
  {}

  method TrimLeft(path: string) returns (s: string)
    ensures Segments(s) == Segments(path)
    ensures s == "" || s[0] != '/'
  {
    s := path;
    while s != "" && s[0] == '/'
      invariant Segments(s) == Segments(path)
      decreases |s|
    {
      LeadingSlash(s);
      s := s[1..];
    }
  }

  method TrimRight(path: string) returns (s: string)
    ensures Segments(s) == Segments(path)
    ensures s <= path && (s == "" || s[|s| - 1] != '/')
  {
    s := path;
    while s != "" && s[|s| - 1] == '/'
      invariant Segments(s) == Segments(path)
      invariant s <= path
      decreases |s|
    {
      LastCharacter(s);
      DropTrailing(s, s[..|s| - 1]);
      s := s[..|s| - 1];
    }
  }

  /** `strings.Trim(path, "/")`. */
  method Trim(path: string) returns (s: string)
    ensures Segments(s) == Segments(path)
    ensures s == "" || (s[0] != '/' && s[|s| - 1] != '/')
  {
    s := TrimLeft(path);
    s := TrimRight(s);
  }

  /** The next of the substrings that `strings.SplitSeq` yields, kept unless it is empty, and
      what is left after it. */
  method Next(s: string, kept: seq<string>) returns (r: seq<string>, rest: string)
    requires s != ""
    ensures r + Segments(rest) == kept + Segments(s)
    ensures |rest| < |s|
  {
    var i := Slash(s);
    var segment := s[..i];
    rest := if i < |s| then s[i + 1..] else "";
    r := if segment != "" then kept + [segment] else kept;
    ghost var left := Segments(rest);
    SegmentsStep(s);
    Associate(kept, [segment], left);
  }

  lemma {:induction false} Associate<T>(a: seq<T>, b: seq<T>, c: seq<T>)
    ensures (a + b) + c == a + (b + c)
    ensures a + ([] + c) == a + c
  {}

  method SplitPath(path: string) returns (r: seq<string>)
    ensures r == Segments(path)
  {
    var rest := Trim(path);
    r := [];
    while rest != ""
      invariant r + Segments(rest) == Segments(path)
      decreases |rest|
    {
      r, rest := Next(rest, r);
    }
  }

  /** Segments written out behind runs of slashes: gaps[i] slashes before segment i, the last
      run behind them all. */
  function Spelled(segments: seq<string>, gaps: seq<nat>): string
    requires |gaps| == |segments| + 1
  {
    Slashes(gaps[0]) + if segments == [] then "" else segments[0] + Spelled(segments[1..], gaps[1..])
  }

  function Slashes(n: nat): string { if n == 0 then "" else "/" + Slashes(n - 1) }

  lemma {:induction false} LeadingSlashes(n: nat, s: string)
    ensures Segments(Slashes(n) + s) == Segments(s)
    ensures n > 0 ==> (Slashes(n) + s)[0] == '/'
  {
    if n == 0 {
      assert Slashes(n) + s == s;
    } else {
      LeadingSlashes(n - 1, s);
      SlashesStep(n, s);
      LeadingSlash(Slashes(n) + s);
    }
  }

  lemma {:induction false} SlashesStep(n: nat, s: string)
    requires n > 0
    ensures (Slashes(n) + s)[0] == '/' && (Slashes(n) + s)[1..] == Slashes(n - 1) + s
  {}

  lemma {:induction false} SegmentThen(x: string, rest: string)
    requires IsSegment(x) && (rest == "" || rest[0] == '/')
    ensures Segments(x + rest) == [x] + Segments(rest)
  {
    if rest == "" {
      assert x + rest == x;
      SegmentAlone(x);
    } else {
      LeadingSlash(rest);
      SegmentsAfter(x, rest[1..]);
      Associate(x, "/", rest[1..]);
      assert "/" + rest[1..] == rest;
    }
  }

  /** A path is read back segment by segment however many slashes it was written with. */
  lemma {:induction false} SegmentsOfSpelled(segments: seq<string>, gaps: seq<nat>)
    requires |gaps| == |segments| + 1
    requires forall i :: 0 <= i < |segments| ==> IsSegment(segments[i])
    requires forall i :: 0 < i < |segments| ==> gaps[i] > 0
    ensures Segments(Spelled(segments, gaps)) == segments
    ensures gaps[0] > 0 ==> Spelled(segments, gaps)[0] == '/'
    ensures segments == [] && gaps[0] == 0 ==> Spelled(segments, gaps) == ""
    decreases |segments|
  {
    if segments == [] {
      LeadingSlashes(gaps[0], "");
    } else {
      var x, rest := segments[0], Spelled(segments[1..], gaps[1..]);
      LeadingSlashes(gaps[0], x + rest);
      SegmentsOfSpelled(segments[1..], gaps[1..]);
      SegmentThen(x, rest);
    }
  }

  // ----- Classification -----

  const WILDCARD_CLUSTER := "*"

  datatype Verb = Watch | WatchList | List | Get | Create | Update | Patch | Delete | Discovery | Other

  datatype Request = Request(verb: Verb, cluster: string, resource: string)

  /** The two query parameters that decide a read. */
  datatype Query = Query(watch: string, sendInitialEvents: string)

  function VerbOf(httpMethod: string, query: Query, named: bool): Verb {
    if httpMethod == "POST" then Create
    else if httpMethod == "PUT" then Update
    else if httpMethod == "PATCH" then Patch
    else if httpMethod == "DELETE" then Delete
    else if query.watch == "true" then (if query.sendInitialEvents == "true" then WatchList else Watch)
    else if named then Get
    else List
  }

  /** What follows the cluster is an ordinary Kubernetes API path. */
  function ClassifiedRest(httpMethod: string, query: Query, cluster: string, rest: seq<string>): Request {
    if rest == [] then Request(Discovery, cluster, "")
    else if rest[0] == "api" then
      if |rest| == 1 then Request(Discovery, cluster, "")
      else ClassifiedTail(httpMethod, query, cluster, "", rest[2..])
    else if rest[0] == "apis" then
      if |rest| < 3 then Request(Discovery, cluster, if |rest| == 2 then rest[1] + "/" else "")
      else ClassifiedTail(httpMethod, query, cluster, rest[1], rest[3..])
    else Request(if rest[0] != "openapi" && rest[0] != "version" then Other else Discovery, cluster, "")
  }

  function ClassifiedTail(httpMethod: string, query: Query, cluster: string, group: string, all: seq<string>): Request {
    var tail := if |all| > 2 && all[0] == "namespaces" then all[2..] else all;
    if tail == [] then Request(Discovery, cluster, group + "/")
    else Request(VerbOf(httpMethod, query, |tail| > 1), cluster, group + "/" + tail[0])
  }

  function IndexOfSpec(segments: seq<string>, want: string): (i: int)
    ensures -1 <= i < |segments|
    ensures i >= 0 ==> segments[i] == want && want !in segments[..i]
    ensures i == -1 <==> want !in segments
  {
    if segments == [] then -1
    else if segments[0] == want then 0
    else
      var i := IndexOfSpec(segments[1..], want);
      assert segments == [segments[0]] + segments[1..];
      assert i >= 0 ==> segments[..1 + i] == [segments[0]] + segments[1..][..i];
      if i < 0 then -1 else 1 + i
  }

  function Classified(httpMethod: string, segments: seq<string>, query: Query): Request {
    var i := IndexOfSpec(segments, "clusters");
    if 0 <= i < |segments| - 1 then ClassifiedRest(httpMethod, query, segments[i + 1], segments[i + 2..])
    else ClassifiedRest(httpMethod, query, "", segments)
  }

  method IndexOf(segments: seq<string>, want: string) returns (i: int)
    ensures i == IndexOfSpec(segments, want)
  {
    for j := 0 to |segments|
      invariant want !in segments[..j]
    {
      assert segments[..j + 1] == segments[..j] + [segments[j]];
      if segments[j] == want {
        FirstIndex(segments, want, j);
        return j;
      }
    }
    assert segments[..|segments|] == segments;
    return -1;
  }

  lemma {:induction false} FirstIndex(segments: seq<string>, want: string, j: nat)
    requires j < |segments| && segments[j] == want && want !in segments[..j]
    ensures IndexOfSpec(segments, want) == j
  {
    var i := IndexOfSpec(segments, want);
    assert segments[j] in segments;
  }

  method Classify(httpMethod: string, path: string, query: Query) returns (req: Request)
    ensures req == Classified(httpMethod, Segments(path), query)
  {
    var segments := SplitPath(path);
    var cluster, rest := "", segments;
    var i := IndexOf(segments, "clusters");
    if i >= 0 && i + 1 < |segments| {
      cluster, rest := segments[i + 1], segments[i + 2..];
    }
    if |rest| == 0 {
      return Request(Discovery, cluster, "");
    }
    var group, tail := "", rest;
    if rest[0] == "api" {
      if |rest| == 1 {
        return Request(Discovery, cluster, "");
      }
      tail := rest[2..];
    } else if rest[0] == "apis" {
      if |rest| < 3 {
        return Request(Discovery, cluster, if |rest| == 2 then rest[1] + "/" else "");
      }
      group, tail := rest[1], rest[3..];
    } else {
      return Request(if rest[0] != "openapi" && rest[0] != "version" then Other else Discovery, cluster, "");
    }
    if |tail| >= 2 && tail[0] == "namespaces" && |tail| > 2 {
      tail := tail[2..];
    }
    if |tail| == 0 {
      return Request(Discovery, cluster, group + "/");
    }
    return Request(VerbOf(httpMethod, query, |tail| > 1), cluster, group + "/" + tail[0]);
  }

  // ----- The printer -----

  /** What an object request addresses; the core group is the empty one. */
  datatype Target = Target(group: string, version: string,
    namespace: Option<string>, resource: string, path: ObjectPath)

  datatype ObjectPath = Collection | Named(name: string) | Sub(name: string, subresource: string)

  function ApiSegments(t: Target): seq<string> {
    if t.group == "" then ["api", t.version] else ["apis", t.group, t.version]
  }

  function ObjectSegments(t: Target): seq<string> {
    (if t.namespace.Some? then ["namespaces", t.namespace.value] else []) + [t.resource] +
    match t.path
    case Collection => []
    case Named(name) => [name]
    case Sub(name, subresource) => [name, subresource]
  }

  /** The path under a virtual workspace's prefix, addressed to a cluster. */
  function Printed(prefix: seq<string>, cluster: string, t: Target): seq<string> {
    prefix + ["clusters", cluster] + (ApiSegments(t) + ObjectSegments(t))
  }

  function Expected(httpMethod: string, query: Query, cluster: string, t: Target): Request {
    Request(VerbOf(httpMethod, query, !t.path.Collection?), cluster, t.group + "/" + t.resource)
  }

  /** A subresource of a namespace itself, which reads like a collection inside that namespace. */
  predicate NamespaceSubresource(t: Target) {
    t.namespace.None? && t.resource == "namespaces" && t.path.Sub?
  }

  lemma {:induction false} ObjectReadBack(httpMethod: string, query: Query, cluster: string, t: Target)
    ensures ClassifiedTail(httpMethod, query, cluster, t.group, ObjectSegments(t)) ==
              if NamespaceSubresource(t)
              then Request(VerbOf(httpMethod, query, false), cluster, t.group + "/" + t.path.subresource)
              else Expected(httpMethod, query, cluster, t)
  {
    var all := ObjectSegments(t);
    if t.namespace.Some? {
      assert all[2..] == ObjectSegments(t.(namespace := None));
    } else if NamespaceSubresource(t) {
      assert all[2..] == [t.path.subresource];
    }
  }

  lemma {:induction false} RestReadBack(httpMethod: string, query: Query, cluster: string, t: Target)
    ensures ClassifiedRest(httpMethod, query, cluster, ApiSegments(t) + ObjectSegments(t)) ==
              ClassifiedTail(httpMethod, query, cluster, t.group, ObjectSegments(t))
  {
    var rest := ApiSegments(t) + ObjectSegments(t);
    assert rest[|ApiSegments(t)|..] == ObjectSegments(t);
  }

  /** Classify inverts the printer, for every target but a namespace's own subresource; for
      that one it reports the subresource, read as a collection. */
  lemma {:induction false} ClassifyReadsBack(httpMethod: string, query: Query, prefix: seq<string>,
      cluster: string, t: Target)
    requires "clusters" !in prefix
    ensures Classified(httpMethod, Printed(prefix, cluster, t), query) ==
              if NamespaceSubresource(t)
              then Request(VerbOf(httpMethod, query, false), cluster, t.group + "/" + t.path.subresource)
              else Expected(httpMethod, query, cluster, t)
  {
    var segments, i := Printed(prefix, cluster, t), |prefix|;
    assert segments[..i] == prefix;
    FirstIndex(segments, "clusters", i);
    assert segments[i + 2..] == ApiSegments(t) + ObjectSegments(t);
    RestReadBack(httpMethod, query, cluster, t);
    ObjectReadBack(httpMethod, query, cluster, t);
  }

  /** The verb of a request, from its HTTP method, the two parameters of a watch, and whether it
      names an object. */
  lemma {:induction false} VerbReadsBack(httpMethod: string, query: Query, prefix: seq<string>, cluster: string,
      t: Target)
    requires "clusters" !in prefix && !NamespaceSubresource(t)
    ensures var verb := Classified(httpMethod, Printed(prefix, cluster, t), query).verb;
      var read := httpMethod !in ["POST", "PUT", "PATCH", "DELETE"];
      && (verb.Create? <==> httpMethod == "POST") && (verb.Update? <==> httpMethod == "PUT")
      && (verb.Patch? <==> httpMethod == "PATCH") && (verb.Delete? <==> httpMethod == "DELETE")
      && (verb.Watch? || verb.WatchList? <==> read && query.watch == "true")
      && (verb.WatchList? <==> read && query.watch == "true" && query.sendInitialEvents == "true")
      && (verb.Get? <==> read && query.watch != "true" && (t.path.Named? || t.path.Sub?))
      && (verb.List? <==> read && query.watch != "true" && t.path.Collection?)
  {
    ClassifyReadsBack(httpMethod, query, prefix, cluster, t);
  }

  lemma {:induction false} BelowCluster(httpMethod: string, query: Query, prefix: seq<string>, cluster: string,
      rest: seq<string>)
    requires "clusters" !in prefix
    ensures Classified(httpMethod, prefix + ["clusters", cluster] + rest, query)
              == ClassifiedRest(httpMethod, query, cluster, rest)
  {
    var segments, i := prefix + ["clusters", cluster] + rest, |prefix|;
    assert segments[..i] == prefix;
    FirstIndex(segments, "clusters", i);
    assert segments[i + 2..] == rest;
  }

  /** What is recorded for a path below the cluster that names no resource: the group, when it
      names one, and nothing otherwise. */
  lemma {:induction false} DiscoveryReadsBack(httpMethod: string, query: Query, prefix: seq<string>, cluster: string,
      group: string, version: string, rest: seq<string>)
    requires "clusters" !in prefix
    ensures rest in [[], ["api"], ["apis"], ["openapi"], ["version"]] ==>
              Classified(httpMethod, prefix + ["clusters", cluster] + rest, query) == Request(Discovery, cluster, "")
    ensures rest == ["api", version] ==>
              Classified(httpMethod, prefix + ["clusters", cluster] + rest, query) == Request(Discovery, cluster, "/")
    ensures rest in [["apis", group], ["apis", group, version]] ==>
              Classified(httpMethod, prefix + ["clusters", cluster] + rest, query)
                == Request(Discovery, cluster, group + "/")
  {
    BelowCluster(httpMethod, query, prefix, cluster, rest);
  }

  /** A namespace's subresource that is mistaken for another resource, or its read for a listing. */
  predicate Misread(httpMethod: string, query: Query, t: Target) {
    NamespaceSubresource(t)
    && !(t.path.subresource == "namespaces"
         && (httpMethod in WRITES || query.watch == "true"))
  }

  lemma {:induction false} ReadBackIsExpected(httpMethod: string, query: Query, cluster: string, t: Target)
    ensures ClassifiedTail(httpMethod, query, cluster, t.group, ObjectSegments(t)) ==
              Expected(httpMethod, query, cluster, t)
            <==> !Misread(httpMethod, query, t)
  {
    ObjectReadBack(httpMethod, query, cluster, t);
    if NamespaceSubresource(t) {
      SuffixesDiffer(t.group + "/", t.path.subresource, "namespaces");
      NamingDecidesReads(httpMethod, query);
    }
  }

  const WRITES := ["POST", "PUT", "PATCH", "DELETE"]

  /** Where a prefix has a `clusters` segment, what follows the first is taken for the cluster, and
      what follows that for the path. That reads as the request only if the cluster is repeated
      there, and the rest of the prefix goes on as an API path whose resource happens to be the
      request's; and then always as a named object. */
  predicate GoesOnAs(httpMethod: string, query: Query, after: seq<string>, cluster: string, t: Target) {
    && |after| >= 2 && after[0] == cluster && after[1] in ["api", "apis"]
    && (var rest := after[1..] + ["clusters", cluster] + (ApiSegments(t) + ObjectSegments(t));
        var group := if after[1] == "api" then "" else rest[1];
        var all := rest[if after[1] == "api" then 2 else 3..];
        group + "/" + (if all[0] == "namespaces" then all[2] else all[0]) == t.group + "/" + t.resource)
    && (!t.path.Collection? || httpMethod in WRITES || query.watch == "true")
  }

  /** Whether a request is classified as what it addresses, for a caller to see from the prefix. */
  predicate IsRight(httpMethod: string, query: Query, prefix: seq<string>, cluster: string, t: Target) {
    var i := IndexOfSpec(prefix, "clusters");
    if i < 0 then !Misread(httpMethod, query, t) else GoesOnAs(httpMethod, query, prefix[i + 1..], cluster, t)
  }

  /** Under every prefix, whichever virtual workspace the request goes through. */
  lemma {:induction false} ClassifyIsRightExactlyWhen(
      httpMethod: string, query: Query, prefix: seq<string>, cluster: string, t: Target)
    ensures Classified(httpMethod, Printed(prefix, cluster, t), query) == Expected(httpMethod, query, cluster, t) <==>
              IsRight(httpMethod, query, prefix, cluster, t)
  {
    var i := IndexOfSpec(prefix, "clusters");
    if i < 0 {
      ClassifyReadsBack(httpMethod, query, prefix, cluster, t);
      ObjectReadBack(httpMethod, query, cluster, t);
      ReadBackIsExpected(httpMethod, query, cluster, t);
    } else {
      assert prefix == prefix[..i] + ["clusters"] + prefix[i + 1..];
      RightUnderClusters(httpMethod, query, prefix[..i], prefix[i + 1..], cluster, t);
    }
  }

  lemma {:induction false} AfterFirstClusters(httpMethod: string, query: Query, before: seq<string>, rest: seq<string>)
    requires "clusters" !in before && rest != []
    ensures Classified(httpMethod, before + ["clusters"] + rest, query)
              == ClassifiedRest(httpMethod, query, rest[0], rest[1..])
  {
    var segments, i := before + ["clusters"] + rest, |before|;
    assert segments[..i] == before;
    FirstIndex(segments, "clusters", i);
    assert segments[i + 1] == rest[0] && segments[i + 2..] == rest[1..];
  }

  /** What such a prefix makes of the request. */
  lemma {:induction false} TakenFromPrefix(
      httpMethod: string, query: Query, before: seq<string>, after: seq<string>, cluster: string, t: Target)
    requires "clusters" !in before
    ensures var rest := after + ["clusters", cluster] + (ApiSegments(t) + ObjectSegments(t));
            Classified(httpMethod, Printed(before + ["clusters"] + after, cluster, t), query)
              == ClassifiedRest(httpMethod, query, rest[0], rest[1..])
  {
    var rest := after + ["clusters", cluster] + (ApiSegments(t) + ObjectSegments(t));
    assert Printed(before + ["clusters"] + after, cluster, t) == before + ["clusters"] + rest;
    AfterFirstClusters(httpMethod, query, before, rest);
  }

  /** An API path this long is always read as a named object. */
  lemma {:induction false} LongApiPath(httpMethod: string, query: Query, cluster: string, rest: seq<string>)
    requires |rest| >= 6 && rest[0] in ["api", "apis"]
    requires |rest| == 6 ==> rest[3] != "namespaces"
    ensures var group := if rest[0] == "api" then "" else rest[1];
            var all := rest[if rest[0] == "api" then 2 else 3..];
            ClassifiedRest(httpMethod, query, cluster, rest) ==
              Request(VerbOf(httpMethod, query, true), cluster,
                group + "/" + (if all[0] == "namespaces" then all[2] else all[0]))
  {
    assert "api" != "apis";
  }

  /** What does not go on as an API path is no object request. */
  lemma {:induction false} WrongOffTheApi(
      httpMethod: string, query: Query, after: seq<string>, cluster: string, t: Target)
    requires |after| < 2 || after[1] !in ["api", "apis"]
    ensures var rest := after + ["clusters", cluster] + (ApiSegments(t) + ObjectSegments(t));
            ClassifiedRest(httpMethod, query, rest[0], rest[1..]) != Expected(httpMethod, query, cluster, t)
  {
    var rest := after + ["clusters", cluster] + (ApiSegments(t) + ObjectSegments(t));
    assert rest[1..][0] == if after == [] then cluster else if |after| == 1 then "clusters" else after[1];
    ClusterIsKept(httpMethod, query, rest[0], rest[1..]);
    SurfaceMeaning(httpMethod, query, rest[0], rest[1..]);
  }

  lemma {:induction false} RightOnTheApi(
      httpMethod: string, query: Query, after: seq<string>, cluster: string, t: Target)
    requires |after| >= 2 && after[1] in ["api", "apis"]
    ensures var rest := after + ["clusters", cluster] + (ApiSegments(t) + ObjectSegments(t));
            ClassifiedRest(httpMethod, query, rest[0], rest[1..]) == Expected(httpMethod, query, cluster, t) <==>
              GoesOnAs(httpMethod, query, after, cluster, t)
  {
    var rest := after + ["clusters", cluster] + (ApiSegments(t) + ObjectSegments(t));
    NamingDecidesReads(httpMethod, query);
    assert rest[1..] == after[1..] + ["clusters", cluster] + (ApiSegments(t) + ObjectSegments(t));
    assert rest[1..][0] == after[1];
    assert |rest[1..]| == 6 ==> rest[1..][3] == ApiSegments(t)[0];
    LongApiPath(httpMethod, query, rest[0], rest[1..]);
  }

  lemma {:induction false} RightUnderClusters(
      httpMethod: string, query: Query, before: seq<string>, after: seq<string>, cluster: string, t: Target)
    requires "clusters" !in before
    ensures (Classified(httpMethod, Printed(before + ["clusters"] + after, cluster, t), query)
             == Expected(httpMethod, query, cluster, t)) <==> GoesOnAs(httpMethod, query, after, cluster, t)
  {
    TakenFromPrefix(httpMethod, query, before, after, cluster, t);
    if |after| >= 2 && after[1] in ["api", "apis"] {
      RightOnTheApi(httpMethod, query, after, cluster, t);
    } else {
      WrongOffTheApi(httpMethod, query, after, cluster, t);
    }
  }

  /** Under a prefix whose first `clusters` segment is its last or the one before it, no request is
      classified as what it addresses. */
  lemma {:induction false} NeverRightNearTheEnd(
      httpMethod: string, query: Query, prefix: seq<string>, cluster: string, t: Target)
    requires "clusters" in prefix && IndexOfSpec(prefix, "clusters") >= |prefix| - 2
    ensures Classified(httpMethod, Printed(prefix, cluster, t), query) != Expected(httpMethod, query, cluster, t)
  {
    ClassifyIsRightExactlyWhen(httpMethod, query, prefix, cluster, t);
  }

  /** kcp's prefixes have four segments: two fixed ones, then the workspace and the name of the
      export. Neither of these may be `clusters`. */
  lemma {:induction false} UnderAnExport(httpMethod: string, query: Query, a: string, b: string, workspace: string,
      exportName: string, cluster: string, t: Target)
    requires a != "clusters" && b != "clusters"
    ensures (Classified(httpMethod, Printed([a, b, workspace, exportName], cluster, t), query)
             == Expected(httpMethod, query, cluster, t)) <==>
              workspace != "clusters" && exportName != "clusters" && !Misread(httpMethod, query, t)
  {
    var prefix := [a, b, workspace, exportName];
    ClassifyIsRightExactlyWhen(httpMethod, query, prefix, cluster, t);
    var i := IndexOfSpec(prefix, "clusters");
    assert i >= 0 ==> i >= 2;
    if workspace == "clusters" || exportName == "clusters" {
      assert "clusters" in prefix;
      NeverRightNearTheEnd(httpMethod, query, prefix, cluster, t);
    }
  }

  lemma {:induction false} PlainReads(query: Query)
    requires query.watch != "true"
    ensures VerbOf("GET", query, false) == List && VerbOf("GET", query, true) == Get
  {}

  /** Reading the status of a namespace is reported as a listing of statuses. */
  lemma {:induction false} StatusIsMisread(query: Query, prefix: seq<string>, cluster: string, t: Target)
    requires "clusters" !in prefix && query.watch != "true"
    requires t.group == "" && t.namespace == None && t.resource == "namespaces"
    requires t.path.Sub? && t.path.subresource == "status"
    ensures Classified("GET", Printed(prefix, cluster, t), query) == Request(List, cluster, "" + "/" + "status")
    ensures Expected("GET", query, cluster, t) == Request(Get, cluster, "" + "/" + "namespaces")
  {
    ClassifyReadsBack("GET", query, prefix, cluster, t);
    PlainReads(query);
  }

  /** What is reported under a prefix with a `clusters` segment: in what follows the first, the
      first segment is the cluster, and the verb is other exactly when the second starts no path of
      the API surface. */
  lemma {:induction false} PrefixedByClusters(
      httpMethod: string, query: Query, before: seq<string>, after: seq<string>, cluster: string, t: Target)
    requires "clusters" !in before
    ensures var r := Classified(httpMethod, Printed(before + ["clusters"] + after, cluster, t), query);
      && r.cluster == (if after == [] then "clusters" else after[0])
      && (r.verb.Other? <==> (if after == [] then cluster else if |after| == 1 then "clusters" else after[1])
                             !in ["api", "apis", "openapi", "version"])
  {
    var rest := after + ["clusters", cluster] + (ApiSegments(t) + ObjectSegments(t));
    TakenFromPrefix(httpMethod, query, before, after, cluster, t);
    ClusterIsKept(httpMethod, query, rest[0], rest[1..]);
    SurfaceMeaning(httpMethod, query, rest[0], rest[1..]);
  }

  /** Whether an object is named matters to a read that is not a watch, and to nothing else. */
  lemma {:induction false} NamingDecidesReads(httpMethod: string, query: Query)
    ensures VerbOf(httpMethod, query, false) == VerbOf(httpMethod, query, true) <==>
              httpMethod in WRITES || query.watch == "true"
  {}

  lemma {:induction false} SuffixesDiffer(prefix: string, a: string, b: string)
    ensures prefix + a == prefix + b <==> a == b
  {
    assert (prefix + a)[|prefix|..] == a && (prefix + b)[|prefix|..] == b;
  }

  /** The whole way: from a path as written, with whatever runs of slashes. */
  lemma {:induction false} WrittenPathReadsBack(
      httpMethod: string, query: Query, prefix: seq<string>, cluster: string, t: Target, gaps: seq<nat>)
    requires forall i :: 0 <= i < |Printed(prefix, cluster, t)| ==> IsSegment(Printed(prefix, cluster, t)[i])
    requires |gaps| == |Printed(prefix, cluster, t)| + 1
    requires forall i :: 0 < i < |Printed(prefix, cluster, t)| ==> gaps[i] > 0
    ensures (Classified(httpMethod, Segments(Spelled(Printed(prefix, cluster, t), gaps)), query)
             == Expected(httpMethod, query, cluster, t)) <==> IsRight(httpMethod, query, prefix, cluster, t)
  {
    SegmentsOfSpelled(Printed(prefix, cluster, t), gaps);
    ClassifyIsRightExactlyWhen(httpMethod, query, prefix, cluster, t);
  }

  /** A path addressed to no cluster is taken for one that is, exactly when a segment before its
      last is `clusters`: the cluster resource itself, with a name. Otherwise it is classified as
      it should be, but for the same exception. */
  lemma {:induction false} UnaddressedPath(httpMethod: string, query: Query, t: Target)
    requires forall x :: x in ApiSegments(t) + ObjectSegments(t) ==> IsSegment(x)
    ensures var segments := ApiSegments(t) + ObjectSegments(t);
      && (Classified(httpMethod, segments, query).cluster == "" <==> "clusters" !in segments[..|segments| - 1])
      && (Classified(httpMethod, segments, query) == Expected(httpMethod, query, "", t) <==>
            "clusters" !in segments[..|segments| - 1] && !Misread(httpMethod, query, t))
  {
    var segments := ApiSegments(t) + ObjectSegments(t);
    var n := |segments| - 1;
    var i := IndexOfSpec(segments, "clusters");
    assert segments == segments[..n] + [segments[n]];
    if 0 <= i < n {
      assert segments[..n][i] == "clusters";
      assert segments[i + 1] in segments;
      ClusterIsKept(httpMethod, query, segments[i + 1], segments[i + 2..]);
    } else {
      ClusterIsKept(httpMethod, query, "", segments);
      RestReadBack(httpMethod, query, "", t);
      ReadBackIsExpected(httpMethod, query, "", t);
    }
  }

  /** Reading one cluster of an unaddressed server is reported as discovery in a logical cluster
      of that name. */
  lemma {:induction false} UnaddressedClusterIsMisread(httpMethod: string, query: Query, group: string, version: string,
      namespace: string, name: string)
    requires "clusters" !in [group, version, namespace] && group != ""
    ensures var t := Target(group, version, Some(namespace), "clusters", Named(name));
      Classified(httpMethod, ApiSegments(t) + ObjectSegments(t), query) == Request(Discovery, name, "")
  {
    var segments := ["apis", group, version, "namespaces", namespace, "clusters", name];
    var t := Target(group, version, Some(namespace), "clusters", Named(name));
    assert ApiSegments(t) + ObjectSegments(t) == segments;
    assert segments[..5] == ["apis", group, version, "namespaces", namespace];
    FirstIndex(segments, "clusters", 5);
    assert segments[7..] == [];
  }

  /** Exactly the paths of the API surface are discovery, and exactly those outside it and its
      objects are other; whatever is asked of them. */
  lemma {:induction false} SurfaceMeaning(httpMethod: string, query: Query, cluster: string, rest: seq<string>)
    ensures ClassifiedRest(httpMethod, query, cluster, rest).verb.Discovery? <==>
              || rest == []
              || (rest[0] == "api" && |rest| <= 2)
              || (rest[0] == "apis" && |rest| <= 3)
              || rest[0] == "openapi" || rest[0] == "version"
    ensures ClassifiedRest(httpMethod, query, cluster, rest).verb.Other? <==>
              rest != [] && rest[0] !in ["api", "apis", "openapi", "version"]
  {
    assert "api" != "apis" && "openapi" != "version";
  }

  lemma {:induction false} ClusterIsKept(httpMethod: string, query: Query, cluster: string, rest: seq<string>)
    ensures ClassifiedRest(httpMethod, query, cluster, rest).cluster == cluster
  {}

  /** Group and resource can be told apart again: different ones are different streams. */
  lemma {:induction false} ResourcesAreDistinct(group: string, resource: string, group': string, resource': string)
    requires '/' !in group && '/' !in group'
    ensures group + "/" + resource == group' + "/" + resource' <==> group == group' && resource == resource'
  {
    if group + "/" + resource == group' + "/" + resource' {
      SlashAfter(group, resource);
      SlashAfter(group', resource');
      var s := group + "/" + resource;
      assert group == s[..|group|] && group' == s[..|group'|];
      assert resource == s[|group| + 1..] && resource' == s[|group'| + 1..];
    }
  }
}
