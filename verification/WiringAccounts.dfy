/** What a group's counter and flags stand for, over every run of the wiring protocol: the steps
    that were taken. */
module WiringAccounts {
  import opened Options
  import opened WiringState
  import opened WiringProtocol

  // ----- Runnables -----

  /** The step has the group start a runnable: it is added before the group refuses. */
  predicate Accepts(s: State, step: Step, g: GroupId) {
    step == AddRunnable(g) && g < |s.shared.groups| && !s.shared.groups[g].refusing
  }

  /** The steps, of the first n, that had the group start a runnable. */
  ghost function Accepted(states: seq<State>, steps: seq<Step>, n: nat, g: GroupId): set<int>
    requires n <= |steps| < |states|
  {
    set k | 0 <= k < n && Accepts(states[k], steps[k], g)
  }

  /** And those by which one of its runnables returned. */
  ghost function Returned(steps: seq<Step>, n: nat, g: GroupId): set<int>
    requires n <= |steps|
  {
    set k | 0 <= k < n && steps[k] == RunnableReturns(g)
  }

  function RunningIn(s: State, g: GroupId): nat {
    if g < |s.shared.groups| then s.shared.groups[g].running else 0
  }

  lemma {:induction false} RunningStep(s: State, step: Step, g: GroupId)
    requires Enabled(s, step)
    ensures RunningIn(Apply(s, step), g) ==
              RunningIn(s, g) + (if Accepts(s, step, g) then 1 else 0) - (if step == RunnableReturns(g) then 1 else 0)
  {
  }

  lemma {:induction false} AcceptedStep(states: seq<State>, steps: seq<Step>, n: nat, g: GroupId)
    requires n < |steps| < |states|
    ensures |Accepted(states, steps, n + 1, g)| ==
              |Accepted(states, steps, n, g)| + if Accepts(states[n], steps[n], g) then 1 else 0
  {
    assert Accepted(states, steps, n + 1, g) ==
      Accepted(states, steps, n, g) + if Accepts(states[n], steps[n], g) then {n} else {};
  }

  lemma {:induction false} ReturnedStep(steps: seq<Step>, n: nat, g: GroupId)
    requires n < |steps|
    ensures |Returned(steps, n + 1, g)| == |Returned(steps, n, g)| + if steps[n] == RunnableReturns(g) then 1 else 0
  {
    assert Returned(steps, n + 1, g) == Returned(steps, n, g) + if steps[n] == RunnableReturns(g) then {n} else {};
  }

  /** The k-th step changes what the group has running by the runnable it starts or sees return. */
  predicate RunningFollows(states: seq<State>, steps: seq<Step>, k: nat, g: GroupId)
    requires k < |steps| < |states|
  {
    RunningIn(states[k + 1], g) == RunningIn(states[k], g)
      + (if Accepts(states[k], steps[k], g) then 1 else 0) - (if steps[k] == RunnableReturns(g) then 1 else 0)
  }

  lemma {:induction false} NothingYet(states: seq<State>, steps: seq<Step>, g: GroupId)
    requires |steps| < |states|
    ensures Accepted(states, steps, 0, g) == {} && Returned(steps, 0, g) == {}
  {
  }

  lemma {:induction false} RunningAddsUp(states: seq<State>, steps: seq<Step>, n: nat, g: GroupId)
    requires n <= |steps| < |states| && RunningIn(states[0], g) == 0
    requires forall k :: 0 <= k < n ==> RunningFollows(states, steps, k, g)
    ensures RunningIn(states[n], g) == |Accepted(states, steps, n, g)| - |Returned(steps, n, g)|
  {
    if n == 0 {
      NothingYet(states, steps, g);
    } else {
      RunningAddsUp(states, steps, n - 1, g);
      assert RunningFollows(states, steps, n - 1, g);
      AcceptedStep(states, steps, n - 1, g);
      ReturnedStep(steps, n - 1, g);
    }
  }

  /** In every run what a group has running is what it started less what returned. */
  lemma {:induction false} RunningMeaning(states: seq<State>, steps: seq<Step>, n: nat, g: GroupId)
    requires Run(states, steps) && n < |states|
    ensures RunningIn(states[n], g) == |Accepted(states, steps, n, g)| - |Returned(steps, n, g)|
  {
    forall k | 0 <= k < n ensures RunningFollows(states, steps, k, g) {
      RunningStep(states[k], steps[k], g);
    }
    RunningAddsUp(states, steps, n, g);
  }

  /** Once a stop of the group has returned, every runnable the group started has returned, and
      none is ever started again. */
  lemma {:induction false} StoppedMeansReturned(states: seq<State>, steps: seq<Step>, i: nat, j: nat, g: GroupId)
    requires Run(states, steps) && i <= j < |states| && g < |states[i].shared.groups|
    requires states[i].shared.groups[g].released
    ensures |Accepted(states, steps, j, g)| == |Returned(steps, j, g)|
    ensures Accepted(states, steps, j, g) == Accepted(states, steps, i, g)
  {
    RunKeepsInv(states, steps, i);
    var places: seq<Place> :| Places(states[i], places);
    assert Placed(states[i], g, places[g]);
    StoppedGroupsStayStopped(states, steps, i, j, g);
    RunningMeaning(states, steps, j, g);
    forall k | i <= k < j ensures !Accepts(states[k], steps[k], g) {
      StoppedGroupsStayStopped(states, steps, i, k, g);
    }
    assert forall k :: k in Accepted(states, steps, j, g) <==> k in Accepted(states, steps, i, g);
  }

  // ----- Flags -----

  /** The step is taken by a thread in a stop of the group. */
  predicate IsStopOf(s: State, step: Step, g: GroupId) {
    && (step.StopRefuses? || step.StopCancels? || step.StopReturns?)
    && step.t < |s.threads| && s.threads[step.t].Stopping?
    && s.threads[step.t].owed != [] && s.threads[step.t].owed[0] == g
  }

  ghost predicate Happened(states: seq<State>, steps: seq<Step>, n: nat, g: GroupId, kind: Step -> bool)
    requires n <= |steps| < |states|
  {
    exists k :: 0 <= k < n && kind(steps[k]) && IsStopOf(states[k], steps[k], g)
  }

  function FlagsIn(s: State, g: GroupId): (bool, bool, bool) {
    if g < |s.shared.groups|
    then (s.shared.groups[g].refusing, s.shared.groups[g].cancelled, s.shared.groups[g].released)
    else (false, false, false)
  }

  lemma {:induction false} FlagsStep(s: State, step: Step, g: GroupId)
    requires Enabled(s, step)
    ensures var (before, after) := (FlagsIn(s, g), FlagsIn(Apply(s, step), g));
      && (after.0 <==> before.0 || (step.StopRefuses? && IsStopOf(s, step, g)))
      && (after.1 <==> before.1 || (step.StopCancels? && IsStopOf(s, step, g)))
      && (after.2 <==> before.2 || (step.StopReturns? && IsStopOf(s, step, g)))
  {
  }

  predicate FlagsFollow(states: seq<State>, steps: seq<Step>, k: nat, g: GroupId)
    requires k < |steps| < |states|
  {
    var (before, after) := (FlagsIn(states[k], g), FlagsIn(states[k + 1], g));
    && (after.0 <==> before.0 || (steps[k].StopRefuses? && IsStopOf(states[k], steps[k], g)))
    && (after.1 <==> before.1 || (steps[k].StopCancels? && IsStopOf(states[k], steps[k], g)))
    && (after.2 <==> before.2 || (steps[k].StopReturns? && IsStopOf(states[k], steps[k], g)))
  }

  lemma {:induction false} FlagsAddUp(states: seq<State>, steps: seq<Step>, n: nat, g: GroupId)
    requires n <= |steps| < |states| && FlagsIn(states[0], g) == (false, false, false)
    requires forall k :: 0 <= k < n ==> FlagsFollow(states, steps, k, g)
    ensures FlagsIn(states[n], g).0 <==> Happened(states, steps, n, g, (step: Step) => step.StopRefuses?)
    ensures FlagsIn(states[n], g).1 <==> Happened(states, steps, n, g, (step: Step) => step.StopCancels?)
    ensures FlagsIn(states[n], g).2 <==> Happened(states, steps, n, g, (step: Step) => step.StopReturns?)
  {
    if n > 0 {
      FlagsAddUp(states, steps, n - 1, g);
      assert FlagsFollow(states, steps, n - 1, g);
      HappenedStep(states, steps, n - 1, g, (step: Step) => step.StopRefuses?);
      HappenedStep(states, steps, n - 1, g, (step: Step) => step.StopCancels?);
      HappenedStep(states, steps, n - 1, g, (step: Step) => step.StopReturns?);
    }
  }

  lemma {:induction false} HappenedStep(states: seq<State>, steps: seq<Step>, n: nat, g: GroupId, kind: Step -> bool)
    requires n < |steps| < |states|
    ensures Happened(states, steps, n + 1, g, kind) <==>
              Happened(states, steps, n, g, kind) || (kind(steps[n]) && IsStopOf(states[n], steps[n], g))
  {
  }

  /** In every run a group refuses, is cancelled, and is released exactly when an earlier step of
      a stop of that group did so. */
  lemma {:induction false} FlagsMeaning(states: seq<State>, steps: seq<Step>, n: nat, g: GroupId)
    requires Run(states, steps) && n < |states|
    ensures FlagsIn(states[n], g).0 <==> Happened(states, steps, n, g, (step: Step) => step.StopRefuses?)
    ensures FlagsIn(states[n], g).1 <==> Happened(states, steps, n, g, (step: Step) => step.StopCancels?)
    ensures FlagsIn(states[n], g).2 <==> Happened(states, steps, n, g, (step: Step) => step.StopReturns?)
  {
    forall k | 0 <= k < n ensures FlagsFollow(states, steps, k, g) {
      FlagsStep(states[k], steps[k], g);
    }
    FlagsAddUp(states, steps, n, g);
  }

  // ----- Contexts -----

  /** A thread that sets up or watches for a group has the group's context, and a watcher that has
      fired saw it cancelled. */
  predicate MindsContext(s: State, thread: Thread) {
    match thread
    case Registered(_, c, g) => g < |s.shared.groups| && s.shared.groups[g].parent == c
    case SettingUp(_, c, g) => g < |s.shared.groups| && s.shared.groups[g].parent == c
    case Watching(_, c, g) => g < |s.shared.groups| && s.shared.groups[g].parent == c
    case Disengaging(_, g, fired) => g < |s.shared.groups| && (fired ==> s.shared.groups[g].parent in s.cancelled)
    case _ => true
  }

  ghost predicate MindContexts(s: State) {
    forall t :: 0 <= t < |s.threads| ==> MindsContext(s, s.threads[t])
  }

  lemma {:induction false} ParentsStay(s: State, step: Step, g: GroupId)
    requires Enabled(s, step) && g < |s.shared.groups|
    ensures g < |Apply(s, step).shared.groups|
    ensures Apply(s, step).shared.groups[g].parent == s.shared.groups[g].parent
    ensures s.cancelled <= Apply(s, step).cancelled
  {
  }

  /** What a thread minds, it still does when the step leaves it be or moves it on. */
  lemma {:induction false} MindedStays(s: State, step: Step, t: ThreadId)
    requires Enabled(s, step) && MindContexts(s) && t < |s.threads|
    requires OwnOf(Apply(s, step).threads[t]).Some? && !step.EngageLocks?
    ensures MindsContext(Apply(s, step), Apply(s, step).threads[t])
  {
    assert MindsContext(s, s.threads[t]);
    ParentsStay(s, step, OwnOf(s.threads[t]).value);
  }

  lemma {:induction false} MindedOnEngage(s: State, step: Step, t: ThreadId)
    requires Enabled(s, step) && MindContexts(s) && t < |s.threads| && step.EngageLocks?
    ensures MindsContext(Apply(s, step), Apply(s, step).threads[t])
  {
    assert MindsContext(s, s.threads[t]);
  }

  lemma {:induction false} MindedNew(s: State, step: Step)
    requires Enabled(s, step) && MindContexts(s) && |s.threads| < |Apply(s, step).threads|
    ensures MindsContext(Apply(s, step), Apply(s, step).threads[|s.threads|])
  {
    if step.SpawnWatcher? { assert MindsContext(s, s.threads[step.t]); }
  }

  lemma {:induction false} MindedComesFrom(s: State, step: Step, t: ThreadId)
    requires Enabled(s, step) && MindContexts(s) && t < |Apply(s, step).threads|
    ensures MindsContext(Apply(s, step), Apply(s, step).threads[t])
  {
    if t >= |s.threads| {
      MindedNew(s, step);
    } else if step.EngageLocks? {
      MindedOnEngage(s, step, t);
    } else if OwnOf(Apply(s, step).threads[t]).Some? {
      MindedStays(s, step, t);
    }
  }

  lemma {:induction false} RunMindsContexts(states: seq<State>, steps: seq<Step>, n: nat)
    requires Run(states, steps) && n < |states|
    ensures MindContexts(states[n])
  {
    if n > 0 {
      RunMindsContexts(states, steps, n - 1);
      forall t | 0 <= t < |states[n].threads| ensures MindsContext(states[n], states[n].threads[t]) {
        MindedComesFrom(states[n - 1], steps[n - 1], t);
      }
    }
  }

  lemma {:induction false} ContextStays(states: seq<State>, steps: seq<Step>, k: nat, n: nat, g: GroupId)
    requires Run(states, steps) && k <= n < |states| && g < |states[k].shared.groups|
    ensures g < |states[n].shared.groups| && states[n].shared.groups[g].parent == states[k].shared.groups[g].parent
    ensures states[k].cancelled <= states[n].cancelled
  {
    if k < n {
      ContextStays(states, steps, k, n - 1, g);
      ParentsStay(states[n - 1], steps[n - 1], g);
    }
  }

  /** A workspace stays engaged while its context is live: as long as no setup of the workspace
      has failed and no Start has drained, a group is out of the map only if its own context was
      cancelled. */
  lemma {:induction false} LiveGroupsStayEngaged(states: seq<State>, steps: seq<Step>, n: nat, g: GroupId)
    requires Run(states, steps) && n < |states| && g < |states[n].shared.groups|
    requires Untroubled(states, steps, n, states[n].shared.groups[g].workspace)
    requires states[n].shared.groups[g].parent !in states[n].cancelled
    ensures InMap(states[n], g)
  {
    InMapUntilTakenOut(states, steps, n, g);
    forall k | 0 <= k < n ensures !TakesOut(states[k], steps[k], g) {
      if TakesOut(states[k], steps[k], g) {
        TakesOutMeaning(states[k], steps[k], g);
        WorkspaceStays(states, steps, k, n, g);
        UntroubledWatchersTakeTheirOwn(states, steps, k);
        RunMindsContexts(states, steps, k);
        assert MindsContext(states[k], states[k].threads[steps[k].t]);
        ContextStays(states, steps, k, n, g);
      }
    }
  }

  // ----- Calls -----

  /** A thread that has only begun is one that was called so. */
  ghost predicate IsCalled(steps: seq<Step>, n: nat, thread: Thread)
    requires n <= |steps|
  {
    match thread
    case Engaging(w, c) => exists k :: 0 <= k < n && steps[k] == CallEngage(w, c)
    case Starting(c) => exists k :: 0 <= k < n && steps[k] == CallStart(c)
    case Serving(c) => exists k :: 0 <= k < n && steps[k] == CallStart(c)
    case _ => true
  }

  lemma {:induction false} CalledStep(s: State, step: Step, t: ThreadId)
    requires Enabled(s, step) && t < |Apply(s, step).threads|
    ensures var thread := Apply(s, step).threads[t];
      thread.Engaging? || thread.Starting? || thread.Serving? ==>
        || (t < |s.threads| && (s.threads[t] == thread
              || (thread.Serving? && s.threads[t] == Starting(thread.context))))
        || (thread.Engaging? && step == CallEngage(thread.workspace, thread.context))
        || (thread.Starting? && step == CallStart(thread.context))
  {
  }

  lemma {:induction false} ThreadsComeFromCalls(states: seq<State>, steps: seq<Step>, n: nat, t: ThreadId)
    requires Run(states, steps) && n < |states| && t < |states[n].threads|
    ensures IsCalled(steps, n, states[n].threads[t])
  {
    if n > 0 {
      CalledStep(states[n - 1], steps[n - 1], t);
      if t < |states[n - 1].threads| { ThreadsComeFromCalls(states, steps, n - 1, t); }
    }
  }

  lemma {:induction false} NewGroupStep(s: State, step: Step, g: GroupId)
    requires Enabled(s, step) && g < |Apply(s, step).shared.groups|
    ensures var group := Apply(s, step).shared.groups[g];
      || (g < |s.shared.groups| && s.shared.groups[g].workspace == group.workspace
          && s.shared.groups[g].parent == group.parent)
      || exists t :: 0 <= t < |s.threads| && s.threads[t] == Engaging(group.workspace, group.parent)
  {
    if step.EngageLocks? { assert s.threads[step.t].Engaging?; }
  }

  /** In every run a group is for the workspace and context of some call of Engage. */
  lemma {:induction false} GroupsComeFromCalls(states: seq<State>, steps: seq<Step>, n: nat, g: GroupId)
    requires Run(states, steps) && n < |states| && g < |states[n].shared.groups|
    ensures exists k :: 0 <= k < n
              && steps[k] == CallEngage(states[n].shared.groups[g].workspace, states[n].shared.groups[g].parent)
  {
    if n > 0 {
      NewGroupStep(states[n - 1], steps[n - 1], g);
      var group := states[n].shared.groups[g];
      var threads, call := states[n - 1].threads, Engaging(group.workspace, group.parent);
      if t :| 0 <= t < |threads| && threads[t] == call {
        ThreadsComeFromCalls(states, steps, n - 1, t);
      } else {
        GroupsComeFromCalls(states, steps, n - 1, g);
      }
    }
  }

  // ----- Start -----

  predicate IsServing(s: State, t: int) { 0 <= t < |s.threads| && s.threads[t].Serving? }

  /** Only a Start that found the wiring not started serves; it drains no more than once. */
  ghost predicate OneStart(s: State, drained: bool) {
    && (forall t, u :: IsServing(s, t) && IsServing(s, u) ==> t == u)
    && (forall t :: IsServing(s, t) ==> s.shared.started && !drained)
    && (drained ==> s.shared.started)
  }

  lemma {:induction false} OneStartStep(s: State, step: Step, drained: bool)
    requires Enabled(s, step) && OneStart(s, drained)
    ensures OneStart(Apply(s, step), drained || step.StartDrains?)
    ensures step.StartDrains? ==> !drained
  {
    var s' := Apply(s, step);
    assert forall t :: IsServing(s', t) ==>
      IsServing(s, t) || (step.StartLocks? && t == step.t && !s.shared.started);
    assert step.StartDrains? ==> IsServing(s, step.t);
  }

  ghost predicate HasDrained(steps: seq<Step>, n: nat)
    requires n <= |steps|
  {
    exists k :: 0 <= k < n && steps[k].StartDrains?
  }

  lemma {:induction false} RunKeepsOneStart(states: seq<State>, steps: seq<Step>, n: nat)
    requires Run(states, steps) && n < |states|
    ensures OneStart(states[n], HasDrained(steps, n))
  {
    if n > 0 {
      RunKeepsOneStart(states, steps, n - 1);
      OneStartStep(states[n - 1], steps[n - 1], HasDrained(steps, n - 1));
      assert HasDrained(steps, n) <==> HasDrained(steps, n - 1) || steps[n - 1].StartDrains?;
    }
  }

  /** However often Start is called, the map is drained at most once, and then by a call of Start
      whose context was cancelled. */
  lemma {:induction false} StartDrainsOnce(states: seq<State>, steps: seq<Step>, i: nat, j: nat)
    requires Run(states, steps) && i < |steps| && j < |steps| && steps[i].StartDrains? && steps[j].StartDrains?
    ensures i == j
    ensures exists c, k, l :: 0 <= k < i && 0 <= l < i && steps[k] == CallStart(c) && steps[l] == CancelContext(c)
              && states[i].threads[steps[i].t] == Serving(c)
  {
    if i < j { DrainsLater(states, steps, i, j); }
    if j < i { DrainsLater(states, steps, j, i); }
    var c := states[i].threads[steps[i].t].context;
    var l := CancelledBefore(states, steps, i, c);
    ThreadsComeFromCalls(states, steps, i, steps[i].t);
    var k :| 0 <= k < i && steps[k] == CallStart(c);
    assert steps[l] == CancelContext(c);
  }

  lemma {:induction false} DrainsLater(states: seq<State>, steps: seq<Step>, i: nat, j: nat)
    requires Run(states, steps) && i < j < |steps| && steps[i].StartDrains?
    ensures !steps[j].StartDrains?
  {
    RunKeepsOneStart(states, steps, j);
    assert HasDrained(steps, j);
    OneStartStep(states[j], steps[j], true);
  }

  /** A context is cancelled by a step that cancels it. */
  lemma {:induction false} CancelledBefore(states: seq<State>, steps: seq<Step>, n: nat, c: ContextId) returns (k: nat)
    requires Run(states, steps) && n < |states| && c in states[n].cancelled
    ensures k < n && steps[k] == CancelContext(c)
  {
    if c in states[n - 1].cancelled {
      k := CancelledBefore(states, steps, n - 1, c);
    } else {
      k := n - 1;
    }
  }
}
