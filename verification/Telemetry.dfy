/** The telemetry recorder of `internal/workspacetelemetry`: load attributed to workspaces,
    with a bounded set of them exported by name. Counters are unbounded naturals. */
module Telemetry {
  import opened MapSums
  import opened Ordering

  type Counts = map<string, nat>

  // ----- Ranking -----

  /** a is exported before b: busier, or as busy and first by name. */
  predicate Ahead(load: Counts, a: string, b: string) {
    At(load, a) > At(load, b) || (At(load, a) == At(load, b) && Less(a, b))
  }

  function Ranking(load: Counts): (string, string) -> bool {
    (a: string, b: string) => Ahead(load, a, b)
  }

  lemma {:induction false} RankingIsOrder(load: Counts)
    ensures StrictTotalOrder(Ranking(load))
  {
    LessIsOrder();
  }

  method Ranked(load: Counts) returns (ranked: seq<string>)
    ensures |ranked| == |load| && forall w :: w in ranked <==> w in load
    ensures forall i, j :: 0 <= i < j < |ranked| ==> Ahead(load, ranked[i], ranked[j])
  {
    RankingIsOrder(load);
    ranked := SortedKeys(load.Keys, Ranking(load));
    assert StrictlySorted(Ranking(load), ranked);
    assert |load.Keys| == |load|;
    assert forall w :: w in load.Keys <==> w in load;
  }

  function Min(a: nat, b: nat): nat { if a < b then a else b }

  /** The topN busiest tracked workspaces. */
  ghost predicate IsTop(load: Counts, topN: nat, top: set<string>) {
    && top <= load.Keys
    && |top| == Min(topN, |load|)
    && forall a, b :: a in top && b in load.Keys - top ==> Ahead(load, a, b)
  }

  /** In terms of the loads: as many as there is room for, and none that is left out is busier than
      one that is in, nor as busy and first by name. */
  lemma {:induction false} TopMeaning(load: Counts, topN: nat, top: set<string>)
    requires IsTop(load, topN, top)
    ensures top <= load.Keys && (|top| == topN || top == load.Keys) && |top| <= topN
    ensures forall a, b :: a in top && b in load && b !in top ==>
              load[a] > load[b] || (load[a] == load[b] && Less(a, b))
  {
    assert |load| == |load.Keys|;
    if |top| != topN { AllOfThem(top, load.Keys); }
    forall a, b | a in top && b in load && b !in top ensures Ahead(load, a, b) {
      assert b in load.Keys - top;
    }
  }

  lemma {:induction false} AllOfThem(top: set<string>, all: set<string>)
    requires top <= all && |top| == |all|
    ensures top == all
  {
    assert all == top + (all - top);
    assert |all| == |top| + |all - top|;
  }

  /** The exported set is determined by the loads: it cannot flap. */
  lemma {:induction false} TopIsUnique(load: Counts, topN: nat, s: set<string>, t: set<string>)
    requires IsTop(load, topN, s) && IsTop(load, topN, t)
    ensures s == t
  {
    EqualSizes(s, t);
    if a :| a in s - t {
      var b :| b in t - s;
      assert Ahead(load, a, b) && Ahead(load, b, a);
      LessAsymmetric(a, b);
    }
  }

  lemma {:induction false} EqualSizes(s: set<string>, t: set<string>)
    requires |s| == |t|
    ensures s - t == {} <==> t - s == {}
  {
    assert s == (s - t) + (s * t) && t == (t - s) + (s * t);
    assert |s| == |s - t| + |s * t| && |t| == |t - s| + |s * t|;
  }

  lemma {:induction false} PrefixIsTop(load: Counts, ranked: seq<string>, n: nat, first: set<string>)
    requires |ranked| == |load| && n <= |ranked| && forall w :: w in ranked <==> w in load
    requires forall i, j :: 0 <= i < j < |ranked| ==> Ahead(load, ranked[i], ranked[j])
    requires forall w :: w in first <==> w in ranked[..n]
    requires |first| == n
    ensures IsTop(load, n, first)
  {
    forall i | 0 <= i < n ensures ranked[i] in first { assert ranked[..n][i] == ranked[i]; }
    forall a, b | a in first && b in load.Keys - first ensures Ahead(load, a, b) {
      var i :| 0 <= i < n && ranked[i] == a;
      var j :| 0 <= j < |ranked| && ranked[j] == b;
      assert j >= n;
    }
  }

  lemma {:induction false} RankedAreDistinct(load: Counts, ranked: seq<string>, n: nat)
    requires n < |ranked|
    requires forall i, j :: 0 <= i < j < |ranked| ==> Ahead(load, ranked[i], ranked[j])
    ensures ranked[n] !in ranked[..n]
  {
    LessIrreflexive(ranked[n]);
  }

  /** The first i of the ranking. */
  ghost predicate IsHead(ranked: seq<string>, i: nat, top: set<string>)
    requires i <= |ranked|
  {
    |top| == i && forall w :: w in top <==> w in ranked[..i]
  }

  lemma {:induction false} HeadNext(ranked: seq<string>, i: nat, top: set<string>)
    requires i < |ranked| && IsHead(ranked, i, top) && ranked[i] !in ranked[..i]
    ensures IsHead(ranked, i + 1, top + {ranked[i]})
  {
    assert ranked[..i + 1] == ranked[..i] + [ranked[i]];
  }

  /** The workspaces at the head of the ranking. */
  method TopOf(load: Counts, topN: nat) returns (top: set<string>)
    ensures IsTop(load, topN, top)
  {
    var ranked := Ranked(load);
    var n := Min(topN, |ranked|);
    top := {};
    for i := 0 to n
      invariant IsHead(ranked, i, top)
    {
      RankedAreDistinct(load, ranked, i);
      HeadNext(ranked, i, top);
      top := top + {ranked[i]};
    }
    PrefixIsTop(load, ranked, n, top);
  }

  lemma {:induction false} UpdateSize(m: Counts, k: string, v: nat)
    ensures |m[k := v]| == |m| + if k in m then 0 else 1
  {
    assert m[k := v].Keys == m.Keys + {k};
    assert |m[k := v]| == |m[k := v].Keys| && |m| == |m.Keys|;
  }

  lemma {:induction false} RemoveSize(s: set<string>, k: string)
    ensures |s - {k}| + (if k in s then 1 else 0) == |s|
  {
    if k !in s { assert s - {k} == s; }
  }

  // ----- What is kept, call by call -----

  /** The calls that engage, disengage and count. */
  datatype Call = Joined(workspace: string) | Left(workspace: string) | Reconciled(workspace: string)

  function NextEngaged(engaged: set<string>, c: Call): set<string> {
    match c
    case Joined(w) => engaged + {w}
    case Left(w) => engaged - {w}
    case Reconciled(_) => engaged
  }

  function NextLoad(load: Counts, c: Call): Counts {
    match c
    case Joined(w) => load[w := At(load, w)]
    case Left(w) => load - {w}
    case Reconciled(w) => load[w := At(load, w) + 1]
  }

  /** What a new recorder has engaged, and what it tracks, after these calls. */
  function EngagedAfter(calls: seq<Call>): set<string> {
    if calls == [] then {} else NextEngaged(EngagedAfter(calls[..|calls| - 1]), calls[|calls| - 1])
  }

  function LoadAfter(calls: seq<Call>): Counts {
    if calls == [] then map[] else NextLoad(LoadAfter(calls[..|calls| - 1]), calls[|calls| - 1])
  }

  /** The i-th call is c, and its workspace has not been disengaged since. */
  predicate Stands(calls: seq<Call>, c: Call, i: int) {
    0 <= i < |calls| && calls[i] == c && forall j :: i < j < |calls| ==> calls[j] != Left(c.workspace)
  }

  lemma {:induction false} StandsBefore(calls: seq<Call>, c: Call, i: int)
    requires calls != []
    ensures Stands(calls, c, i) <==>
              if i == |calls| - 1 then calls[i] == c
              else calls[|calls| - 1] != Left(c.workspace) && Stands(calls[..|calls| - 1], c, i)
  {
    var init := calls[..|calls| - 1];
    assert forall j :: 0 <= j < |init| ==> init[j] == calls[j];
  }

  ghost predicate Standing(calls: seq<Call>, c: Call) { exists i :: Stands(calls, c, i) }

  lemma {:induction false} StandingStep(calls: seq<Call>, c: Call)
    requires calls != []
    ensures var last := calls[|calls| - 1];
      Standing(calls, c) <==> last == c || (last != Left(c.workspace) && Standing(calls[..|calls| - 1], c))
  {
    var n := |calls| - 1;
    StandsBefore(calls, c, n);
    forall i | i < n ensures Stands(calls, c, i) <==> calls[n] != Left(c.workspace) && Stands(calls[..n], c, i) {
      StandsBefore(calls, c, i);
    }
    assert forall i :: Stands(calls, c, i) ==> i <= n;
    assert forall i :: Stands(calls[..n], c, i) ==> i < n;
  }

  /** A workspace is engaged exactly when it was engaged and not disengaged since; it is tracked
      exactly when it was engaged, or counted a reconcile, and was not disengaged since. */
  lemma {:induction false} KeptMeaning(calls: seq<Call>, w: string)
    ensures w in EngagedAfter(calls) <==> Standing(calls, Joined(w))
    ensures w in LoadAfter(calls) <==> Standing(calls, Joined(w)) || Standing(calls, Reconciled(w))
  {
    if calls != [] {
      KeptMeaning(calls[..|calls| - 1], w);
      StandingStep(calls, Joined(w));
      StandingStep(calls, Reconciled(w));
    }
  }

  ghost function Counted(calls: seq<Call>, w: string): set<int> {
    set i | 0 <= i < |calls| && Stands(calls, Reconciled(w), i)
  }

  /** What is counted for a workspace is its reconciles since it was last disengaged. */
  lemma {:induction false} LoadMeaning(calls: seq<Call>, w: string)
    ensures At(LoadAfter(calls), w) == |Counted(calls, w)|
  {
    if calls != [] {
      var n := |calls| - 1;
      var init, last := calls[..n], calls[n];
      LoadMeaning(init, w);
      forall i ensures Stands(calls, Reconciled(w), i) <==>
          if i == n then last == Reconciled(w) else last != Left(w) && Stands(init, Reconciled(w), i) {
        StandsBefore(calls, Reconciled(w), i);
      }
      if last == Left(w) {
        assert Counted(calls, w) == {};
      } else if last == Reconciled(w) {
        assert Counted(calls, w) == Counted(init, w) + {n};
      } else {
        assert Counted(calls, w) == Counted(init, w);
      }
    }
  }

  /** Counters are kept for exactly the engaged workspaces when, and only when, every reconcile
      counted for a workspace not disengaged since is one of a workspace engaged and not
      disengaged since. */
  lemma {:induction false} TrackedAreEngagedExactlyWhen(calls: seq<Call>)
    ensures LoadAfter(calls).Keys == EngagedAfter(calls) <==>
              forall w :: Standing(calls, Reconciled(w)) ==> Standing(calls, Joined(w))
  {
    forall w
      ensures w in EngagedAfter(calls) <==> Standing(calls, Joined(w))
      ensures w in LoadAfter(calls).Keys <==> Standing(calls, Joined(w)) || Standing(calls, Reconciled(w))
    {
      KeptMeaning(calls, w);
    }
    if forall w :: Standing(calls, Reconciled(w)) ==> Standing(calls, Joined(w)) {
      assert forall w :: w in LoadAfter(calls).Keys <==> w in EngagedAfter(calls);
    }
  }

  ghost predicate TrackedAreEngaged(calls: seq<Call>) { LoadAfter(calls).Keys == EngagedAfter(calls) }

  /** Over a whole history they are so throughout exactly when no reconcile is counted for a
      workspace that is not engaged at the time. */
  lemma {:induction false} AlwaysEngagedExactlyWhen(calls: seq<Call>)
    ensures (forall n :: 0 <= n <= |calls| ==> TrackedAreEngaged(calls[..n])) <==>
              forall i :: 0 <= i < |calls| && calls[i].Reconciled? ==> calls[i].workspace in EngagedAfter(calls[..i])
  {
    forall i | 0 <= i < |calls| && TrackedAreEngaged(calls[..i])
      ensures TrackedAreEngaged(calls[..i + 1]) <==>
                (calls[i].Reconciled? ==> calls[i].workspace in EngagedAfter(calls[..i]))
    {
      NextTrackedAreEngaged(calls[..i], calls[i]);
      assert calls[..i + 1] == calls[..i] + [calls[i]];
    }
    if forall i :: 0 <= i < |calls| && calls[i].Reconciled? ==> calls[i].workspace in EngagedAfter(calls[..i]) {
      for n := 0 to |calls|
        invariant forall k :: 0 <= k <= n ==> TrackedAreEngaged(calls[..k])
      {
        assert TrackedAreEngaged(calls[..n]);
      }
    } else {
      var i :| 0 <= i < |calls| && calls[i].Reconciled? && calls[i].workspace !in EngagedAfter(calls[..i]);
      assert !TrackedAreEngaged(calls[..i]) || !TrackedAreEngaged(calls[..i + 1]);
    }
  }

  lemma {:induction false} NextTrackedAreEngaged(calls: seq<Call>, c: Call)
    requires TrackedAreEngaged(calls)
    ensures TrackedAreEngaged(calls + [c]) <==> (c.Reconciled? ==> c.workspace in EngagedAfter(calls))
  {
    assert (calls + [c])[..|calls|] == calls;
  }

  /** A reconcile counted once its workspace was disengaged is kept until the workspace is
      disengaged again, though nothing has engaged it: as when a runnable that is being stopped
      reconciles a last time. */
  lemma {:induction false} LateReconcileIsKept(calls: seq<Call>, w: string, more: seq<Call>)
    requires Left(w) !in more
    ensures var all := calls + [Left(w), Reconciled(w)] + more;
      w in LoadAfter(all) && (w in EngagedAfter(all) <==> Joined(w) in more)
  {
    var all, n := calls + [Left(w), Reconciled(w)] + more, |calls|;
    KeptMeaning(all, w);
    assert forall j :: n + 2 <= j < |all| ==> all[j] == more[j - n - 2];
    assert Stands(all, Reconciled(w), n + 1);
    if Joined(w) in more {
      var k :| 0 <= k < |more| && more[k] == Joined(w);
      assert Stands(all, Joined(w), n + 2 + k);
    }
    if Standing(all, Joined(w)) {
      var i :| Stands(all, Joined(w), i);
      assert all[n] == Left(w) && all[n + 1] == Reconciled(w);
      assert i >= n + 2;
    }
  }

  /** Such a history: the workspace is gone, and its counter is not. */
  lemma {:induction false} CounterOutlivesItsWorkspace(w: string)
    ensures var calls := [Joined(w), Left(w), Reconciled(w)];
      w in LoadAfter(calls) && w !in EngagedAfter(calls)
  {
    var calls := [Joined(w), Left(w), Reconciled(w)];
    assert calls == [Joined(w)] + [Left(w), Reconciled(w)] + [];
    LateReconcileIsKept([Joined(w)], w, []);
    KeptMeaning(calls, w);
  }

  // ----- The recorder -----

  /** Only tracked workspaces are exported or engaged, and at most topN are exported. */
  ghost predicate Exported(load: Counts, engaged: set<string>, labelled: set<string>, topN: nat) {
    labelled <= load.Keys && engaged <= load.Keys && |labelled| <= topN
  }

  lemma {:induction false} Leaving(load: Counts, engaged: set<string>, labelled: set<string>, topN: nat, w: string)
    requires Exported(load, engaged, labelled, topN)
    ensures Exported(load - {w}, engaged - {w}, labelled - {w}, topN)
    ensures Sum(load - {w}) + At(load, w) == Sum(load)
  {
    RemoveSize(labelled, w);
    SumRemove(load, w);
  }

  lemma {:induction false} ReconcileMoves(load: Counts, engaged: set<string>, labelled: set<string>, topN: nat,
      w: string)
    requires Exported(load, engaged, labelled, topN)
    ensures Exported(load[w := At(load, w) + 1], engaged, labelled, topN)
    ensures Sum(load[w := At(load, w) + 1]) == Sum(load) + 1
  {
    SumUpdate(load, w, At(load, w) + 1);
  }

  /** Few enough reasons, together no more than the failures there were. */
  ghost predicate Attributed(reasons: Counts, cap: nat, failures: nat) {
    |reasons| <= cap && Sum(reasons) <= failures
  }

  lemma {:induction false} FailureKeepsAttributed(reasons: Counts, cap: nat, failures: nat, reason: string)
    requires Attributed(reasons, cap, failures)
    ensures Attributed(reasons, cap, failures + 1)
    ensures reason in reasons || |reasons| < cap ==>
              Attributed(reasons[reason := At(reasons, reason) + 1], cap, failures + 1)
  {
    UpdateSize(reasons, reason, At(reasons, reason) + 1);
    SumUpdate(reasons, reason, At(reasons, reason) + 1);
  }

  datatype Snapshot = Snapshot(
    engagedWorkspaces: nat, totalReconciles: nat, engagementFailures: nat, failuresByReason: Counts,
    remainderReconciles: nat, remainderWorkspaces: nat,
    loads: Counts, labelled: seq<string>, released: nat)

  const DEFAULT_TOP_N := 20
  const DEFAULT_MAX_FAILURE_REASONS := 20

  class Recorder {
    const topN: nat
    const maxFailureReasons: nat
    var load: Counts
    var engaged: set<string>
    var released: nat
    var totalReconciles: nat
    var engagementFailures: nat
    var failuresByReason: Counts
    var labelled: set<string>

    /** Reconciles attributed to workspaces that have since left. */
    ghost var departed: nat
    /** Workspace series opened so far: times a workspace joined the exported set. */
    ghost var seriesOpened: nat

    ghost predicate Valid()
      reads this
    {
      && 0 < topN && 0 < maxFailureReasons
      && Exported(load, engaged, labelled, topN)
      && seriesOpened == released + |labelled|
      && totalReconciles == Sum(load) + departed
      && Attributed(failuresByReason, maxFailureReasons, engagementFailures)
    }

    constructor (topN: int, maxFailureReasons: int)
      ensures Valid()
      ensures this.topN == (if topN <= 0 then 20 else topN)
      ensures this.maxFailureReasons ==
        (if maxFailureReasons <= 0 then 20 else maxFailureReasons)
      ensures load == LoadAfter([]) && engaged == EngagedAfter([])
        && labelled == {} && totalReconciles == 0 && engagementFailures == 0
      ensures released == 0 && departed == 0 && seriesOpened == 0
    {
      this.topN := if topN <= 0 then DEFAULT_TOP_N else topN;
      this.maxFailureReasons := if maxFailureReasons <= 0 then DEFAULT_MAX_FAILURE_REASONS else maxFailureReasons;
      load, engaged, labelled, failuresByReason := map[], {}, {}, map[];
      released, totalReconciles, engagementFailures, departed, seriesOpened := 0, 0, 0, 0, 0;
    }

    method EnsureLoad(workspace: string)
      requires Valid()
      modifies this`load
      ensures Valid() && load == old(load)[workspace := At(old(load), workspace)]
    {
      if workspace !in load {
        SumUpdate(load, workspace, 0);
        load := load[workspace := 0];
      }
    }

    method Engaged(workspace: string)
      requires Valid()
      modifies this`load, this`engaged
      ensures Valid() && engaged == NextEngaged(old(engaged), Joined(workspace))
      ensures load == NextLoad(old(load), Joined(workspace))
    {
      EnsureLoad(workspace);
      engaged := engaged + {workspace};
    }

    /** Nothing of a workspace that has left is kept. */
    method Disengaged(workspace: string)
      requires Valid()
      modifies this`load, this`engaged, this`labelled, this`released, this`departed
      ensures Valid()
      ensures engaged == NextEngaged(old(engaged), Left(workspace)) && load == NextLoad(old(load), Left(workspace))
      ensures labelled == old(labelled) - {workspace}
      ensures released == old(released) + if workspace in old(labelled) then 1 else 0
      ensures departed == old(departed) + At(old(load), workspace)
    {
      Leaving(load, engaged, labelled, topN, workspace);
      departed := departed + At(load, workspace);
      engaged := engaged - {workspace};
      load := load - {workspace};
      Unlabel(workspace);
    }

    /** Releases the series of a workspace that has one. */
    method Unlabel(workspace: string)
      modifies this`labelled, this`released
      ensures labelled == old(labelled) - {workspace}
      ensures released == old(released) + if workspace in old(labelled) then 1 else 0
      ensures released + |labelled| == old(released) + old(|labelled|)
    {
      RemoveSize(labelled, workspace);
      if workspace in labelled {
        labelled := labelled - {workspace};
        released := released + 1;
      }
      assert labelled == old(labelled) - {workspace};
    }

    /** The total is always counted; a reason is attributed while there is room for it. */
    method EngagementFailed(workspace: string, reason: string)
      requires Valid()
      modifies this`engagementFailures, this`failuresByReason
      ensures Valid() && engagementFailures == old(engagementFailures) + 1
      ensures failuresByReason ==
        if reason in old(failuresByReason) || |old(failuresByReason)| < maxFailureReasons
        then old(failuresByReason)[reason := At(old(failuresByReason), reason) + 1]
        else old(failuresByReason)
    {
      engagementFailures := engagementFailures + 1;
      FailureKeepsAttributed(failuresByReason, maxFailureReasons, engagementFailures - 1, reason);
      if reason in failuresByReason || |failuresByReason| < maxFailureReasons {
        failuresByReason := failuresByReason[reason := At(failuresByReason, reason) + 1];
      }
    }

    method RecordReconcile(workspace: string)
      requires Valid()
      modifies this`load, this`totalReconciles
      ensures Valid() && totalReconciles == old(totalReconciles) + 1
      ensures load == NextLoad(old(load), Reconciled(workspace))
    {
      ReconcileMoves(load, engaged, labelled, topN, workspace);
      var l := if workspace in load then load[workspace] else 0;
      load := load[workspace := l + 1];
      totalReconciles := totalReconciles + 1;
    }

    /** Exports exactly the topN busiest by name, releases the series of every workspace that
        dropped out, and accounts for the rest, tracked or departed, in the remainder. */
    method TakeSnapshot() returns (s: Snapshot)
      requires Valid()
      modifies this`labelled, this`released, this`seriesOpened
      ensures Valid() && IsTop(load, topN, labelled)
      ensures released == old(released) + |old(labelled) - labelled|
      ensures seriesOpened == old(seriesOpened) + |labelled - old(labelled)|
      ensures s.labelled == InStringOrder(labelled) && s.loads == load && s.released == released
      ensures s.engagedWorkspaces == |engaged| && s.totalReconciles == totalReconciles
      ensures s.engagementFailures == engagementFailures && s.failuresByReason == failuresByReason
      ensures s.remainderWorkspaces == |load.Keys - labelled|
      ensures s.remainderReconciles == SumAt(load, load.Keys - labelled) + departed
    {
      var nowLabelled := TopOf(load, topN);
      Relabel(nowLabelled);
      var labelledReconciles := SumLabelled(nowLabelled);
      Remainder(load, labelled);
      SumIsNatural(load, load.Keys - labelled);
      var names := SortedStrings(nowLabelled);
      s := Snapshot(|engaged|, totalReconciles, engagementFailures, failuresByReason,
                    totalReconciles - labelledReconciles, |load| - |nowLabelled|, load, names, released);
    }

    /** Replaces the exported set, counting the series this releases and opens. */
    method Relabel(now: set<string>)
      modifies this`labelled, this`released, this`seriesOpened
      ensures labelled == now
      ensures released == old(released) + |old(labelled) - now|
      ensures seriesOpened == old(seriesOpened) + |now - old(labelled)|
      ensures seriesOpened - released - |labelled| == old(seriesOpened) - old(released) - old(|labelled|)
    {
      var dropped := CountDropped(labelled, now);
      LedgerStep(labelled, now);
      released := released + dropped;
      seriesOpened := seriesOpened + |now - labelled|;
      labelled := now;
    }

    method SumLabelled(names: set<string>) returns (total: int)
      requires names <= load.Keys
      ensures total == SumAt(load, names)
    {
      total := 0;
      var rest := names;
      while rest != {}
        invariant rest <= names && total + SumAt(load, rest) == SumAt(load, names)
        decreases rest
      {
        var w :| w in rest;
        SumWithout(load, rest, w);
        total := total + load[w];
        rest := rest - {w};
      }
    }
  }

  /** The loads outside the exported set are what the total leaves over. */
  lemma {:induction false} Remainder(load: Counts, labelled: set<string>)
    requires labelled <= load.Keys
    ensures Sum(load) == SumAt(load, labelled) + SumAt(load, load.Keys - labelled)
    ensures |load| == |labelled| + |load.Keys - labelled|
  {
    var rest := load.Keys - labelled;
    SumSplit(load, labelled, rest);
    assert labelled + rest == load.Keys;
    assert |load| == |load.Keys| == |labelled| + |rest|;
  }

  /** How many of the old set are not in the new one. */
  method CountDropped(labelled: set<string>, now: set<string>) returns (n: nat)
    ensures n == |labelled - now|
  {
    n := 0;
    var rest := labelled;
    while rest != {}
      invariant n + |rest - now| == |labelled - now|
      decreases rest
    {
      var w :| w in rest;
      RemoveSize(rest - now, w);
      assert (rest - {w}) - now == (rest - now) - {w};
      rest := rest - {w};
      if w !in now { n := n + 1; }
    }
    assert rest - now == {};
  }

  lemma {:induction false} LedgerStep(before: set<string>, after: set<string>)
    ensures |before| + |after - before| == |before - after| + |after|
  {
    assert before == (before - after) + (before * after);
    assert after == (after - before) + (before * after);
  }
}
