/** Per-workspace wiring: the state its goroutines share, and the critical sections that
    change it. `WiringProtocol` interleaves these sections; the classes at the end are the
    source's own objects, each method one critical section. */
module WiringState {
  import opened Options

  type Name = string
  type ContextId = nat
  type GroupId = nat

  /** A runnableGroup. `refusing` is the source's `stopped` flag; `released` records that a
      call of `stop` has returned. */
  datatype Group = Group(
    workspace: Name, parent: ContextId, refusing: bool, cancelled: bool, running: nat, released: bool)

  /** Groups are numbered in order of creation. */
  datatype Shared = Shared(started: bool, engaged: map<Name, GroupId>, groups: seq<Group>)

  function NewGroup(workspace: Name, parent: ContextId): Group {
    Group(workspace, parent, false, false, 0, false)
  }

  /** Engage, under the lock: a workspace already engaged is left alone. */
  function Register(s: Shared, workspace: Name, context: ContextId): Shared {
    if workspace in s.engaged then s
    else s.(engaged := s.engaged[workspace := |s.groups|], groups := s.groups + [NewGroup(workspace, context)])
  }

  /** disengage, under the lock. */
  function Taken(s: Shared, workspace: Name): Option<GroupId> {
    if workspace in s.engaged then Some(s.engaged[workspace]) else None
  }

  function Forget(s: Shared, workspace: Name): Shared {
    s.(engaged := s.engaged - {workspace})
  }

  /** Start, under its two locks. */
  function MarkStarted(s: Shared): Shared { s.(started := true) }

  function ForgetAll(s: Shared): Shared { s.(engaged := map[]) }

  /** runnableGroup.Add. */
  function Add(g: Group): Group {
    if g.refusing then g else g.(running := g.running + 1)
  }

  /** A runnable that Add started returns. */
  function Finish(g: Group): Group
    requires g.running > 0
  {
    g.(running := g.running - 1)
  }

  /** runnableGroup.stop: refuse, cancel, and return once nothing runs. */
  function Refuse(g: Group): Group { g.(refusing := true) }
  function Cancel(g: Group): Group { g.(cancelled := true) }
  function Release(g: Group): Group { g.(released := true) }

  function Update(s: Shared, id: GroupId, g: Group): Shared
    requires id < |s.groups|
  {
    s.(groups := s.groups[id := g])
  }
}

/** Every interleaving of Engage, the watcher each Engage leaves behind, disengage, Start's
    drain, Add and stop, one step a critical section. */
module WiringProtocol {
  import opened Options
  import opened WiringState

  type ThreadId = nat

  datatype StopPhase = Refusing | Cancelling | Waiting

  datatype Thread =
    | Engaging(workspace: Name, context: ContextId)
    | Registered(workspace: Name, context: ContextId, group: GroupId)
    | SettingUp(workspace: Name, context: ContextId, group: GroupId)
    | Watching(workspace: Name, context: ContextId, own: GroupId)
    | Disengaging(workspace: Name, own: GroupId, fired: bool)
      // own is the group this watcher or failed setup was for; the code goes by workspace and
      // never consults it. fired tells the watcher from the failed setup.
    | Stopping(owed: seq<GroupId>, phase: StopPhase)
    | Starting(context: ContextId)
    | Serving(context: ContextId)
    | Finished

  datatype State = State(shared: Shared, threads: seq<Thread>, cancelled: set<ContextId>)

  const INITIAL := State(Shared(false, map[], []), [], {})

  datatype Step =
    | CallEngage(workspace: Name, context: ContextId)
    | EngageLocks(t: ThreadId)
    | SpawnWatcher(t: ThreadId)
    | SetupSucceeds(t: ThreadId)
    | SetupFails(t: ThreadId)
    | AddRunnable(g: GroupId)
    | RunnableReturns(g: GroupId)
    | CancelContext(context: ContextId)
    | WatcherFires(t: ThreadId)
    | DisengageLocks(t: ThreadId)
    | StopRefuses(t: ThreadId)
    | StopCancels(t: ThreadId)
    | StopReturns(t: ThreadId)
    | CallStart(context: ContextId)
    | StartLocks(t: ThreadId)
    | StartDrains(t: ThreadId, order: seq<Name>)

  predicate At(s: State, t: ThreadId, p: Thread -> bool) {
    t < |s.threads| && p(s.threads[t])
  }

  predicate InStop(s: State, t: ThreadId, phase: StopPhase) {
    && t < |s.threads| && s.threads[t].Stopping? && s.threads[t].phase == phase
    && s.threads[t].owed != [] && s.threads[t].owed[0] < |s.shared.groups|
  }

  predicate Enabled(s: State, step: Step) {
    match step
    case CallEngage(_, _) => true
    case EngageLocks(t) => At(s, t, (th: Thread) => th.Engaging?)
    case SpawnWatcher(t) => At(s, t, (th: Thread) => th.Registered?)
    case SetupSucceeds(t) => At(s, t, (th: Thread) => th.SettingUp?)
    case SetupFails(t) => At(s, t, (th: Thread) => th.SettingUp?)
    case AddRunnable(g) => g < |s.shared.groups|
    case RunnableReturns(g) => g < |s.shared.groups| && s.shared.groups[g].running > 0
    case CancelContext(_) => true
    case WatcherFires(t) => At(s, t, (th: Thread) => th.Watching? && th.context in s.cancelled)
    case DisengageLocks(t) => At(s, t, (th: Thread) => th.Disengaging?)
    case StopRefuses(t) => InStop(s, t, Refusing)
    case StopCancels(t) => InStop(s, t, Cancelling)
    case StopReturns(t) => InStop(s, t, Waiting) && s.shared.groups[s.threads[t].owed[0]].running == 0
    case CallStart(_) => true
    case StartLocks(t) => At(s, t, (th: Thread) => th.Starting?)
    case StartDrains(t, order) =>
      && At(s, t, (th: Thread) => th.Serving? && th.context in s.cancelled)
      && (forall i, j :: 0 <= i < j < |order| ==> order[i] != order[j])
      && (set w | w in order) == s.shared.engaged.Keys
  }

  function Owing(owed: seq<GroupId>): Thread {
    if owed == [] then Finished else Stopping(owed, Refusing)
  }

  function Become(s: State, t: ThreadId, shared: Shared, thread: Thread): State
    requires t < |s.threads|
  {
    s.(shared := shared, threads := s.threads[t := thread])
  }

  function Spawn(s: State, thread: Thread): State { s.(threads := s.threads + [thread]) }

  function Apply(s: State, step: Step): State
    requires Enabled(s, step)
  {
    match step
    case CallEngage(w, c) => Spawn(s, Engaging(w, c))
    case EngageLocks(t) =>
      var th := s.threads[t];
      Become(s, t, Register(s.shared, th.workspace, th.context),
        if th.workspace in s.shared.engaged then Finished
        else Registered(th.workspace, th.context, |s.shared.groups|))
    case SpawnWatcher(t) =>
      var th := s.threads[t];
      Spawn(Become(s, t, s.shared, SettingUp(th.workspace, th.context, th.group)),
        Watching(th.workspace, th.context, th.group))
    case SetupSucceeds(t) => Become(s, t, s.shared, Finished)
    case SetupFails(t) => Become(s, t, s.shared, Disengaging(s.threads[t].workspace, s.threads[t].group, false))
    case AddRunnable(g) => s.(shared := Update(s.shared, g, Add(s.shared.groups[g])))
    case RunnableReturns(g) => s.(shared := Update(s.shared, g, Finish(s.shared.groups[g])))
    case CancelContext(c) => s.(cancelled := s.cancelled + {c})
    case WatcherFires(t) => Become(s, t, s.shared, Disengaging(s.threads[t].workspace, s.threads[t].own, true))
    case DisengageLocks(t) =>
      var w := s.threads[t].workspace;
      var taken := Taken(s.shared, w);
      Become(s, t, Forget(s.shared, w), Owing(if taken.Some? then [taken.value] else []))
    case StopRefuses(t) =>
      var th := s.threads[t];
      Become(s, t, Update(s.shared, th.owed[0], Refuse(s.shared.groups[th.owed[0]])), th.(phase := Cancelling))
    case StopCancels(t) =>
      var th := s.threads[t];
      Become(s, t, Update(s.shared, th.owed[0], Cancel(s.shared.groups[th.owed[0]])), th.(phase := Waiting))
    case StopReturns(t) =>
      var th := s.threads[t];
      Become(s, t, Update(s.shared, th.owed[0], Release(s.shared.groups[th.owed[0]])), Owing(th.owed[1..]))
    case CallStart(c) => Spawn(s, Starting(c))
    case StartLocks(t) =>
      Become(s, t, MarkStarted(s.shared), if s.shared.started then Finished else Serving(s.threads[t].context))
    case StartDrains(t, order) =>
      Become(s, t, ForgetAll(s.shared),
        Owing(seq(|order|, i requires 0 <= i < |order| => s.shared.engaged[order[i]])))
  }

  // ----- Where a group is -----

  predicate InMap(s: State, g: GroupId)
    requires g < |s.shared.groups|
  {
    var w := s.shared.groups[g].workspace;
    w in s.shared.engaged && s.shared.engaged[w] == g
  }

  /** Thread t owes group g a stop, as the i-th of those it owes. */
  predicate Holds(s: State, t: ThreadId, i: nat, g: GroupId) {
    t < |s.threads| && s.threads[t].Stopping? && i < |s.threads[t].owed| && s.threads[t].owed[i] == g
  }

  /** The group whose Engage left this thread to disengage its workspace, if one did. */
  function Ward(thread: Thread): Option<GroupId> {
    match thread
    case Registered(_, _, own) => Some(own)
    case Watching(_, _, own) => Some(own)
    case Disengaging(_, own, fired) => if fired then Some(own) else None
    case _ => None
  }

  /** Thread t is the watcher of g, or the Engage about to start it, and has yet to
      disengage the workspace. */
  predicate Guards(s: State, t: ThreadId, g: GroupId)
    requires g < |s.shared.groups|
  {
    && t < |s.threads|
    && Ward(s.threads[t]) == Some(g)
    && s.threads[t].workspace == s.shared.groups[g].workspace
  }

  /** The one place a group is: in the map, with a thread bound to take it out; owed a
      stop by one thread; or stopped. */
  datatype Place = Listed(guard: ThreadId) | Owed(t: ThreadId, i: nat) | Stopped

  ghost predicate Placed(s: State, g: GroupId, place: Place)
    requires g < |s.shared.groups|
  {
    var group := s.shared.groups[g];
    match place
    case Listed(t) => InMap(s, g) && !group.refusing && !group.released && Guards(s, t, g)
    case Owed(t, i) =>
      && Holds(s, t, i, g) && !group.released
      && (group.refusing <==> i == 0 && s.threads[t].phase != Refusing)
      && (i == 0 && s.threads[t].phase == Waiting ==> group.cancelled)
    case Stopped => group.released && group.refusing && group.cancelled && group.running == 0
  }

  ghost predicate Places(s: State, places: seq<Place>) {
    && |places| == |s.shared.groups|
    && (forall g :: 0 <= g < |places| ==> Placed(s, g, places[g]))
    && EngagedListed(s.shared, places)
    && OwedPlaced(s.threads, places)
  }

  ghost predicate EngagedListed(s: Shared, places: seq<Place>)
    requires |places| == |s.groups|
  {
    forall w :: w in s.engaged ==>
      s.engaged[w] < |places| && places[s.engaged[w]].Listed? && s.groups[s.engaged[w]].workspace == w
  }

  ghost predicate OwedPlaced(threads: seq<Thread>, places: seq<Place>) {
    && (forall t :: 0 <= t < |threads| && threads[t].Stopping? ==> threads[t].owed != [])
    && (forall t, i :: 0 <= t < |threads| && threads[t].Stopping? && 0 <= i < |threads[t].owed| ==>
          threads[t].owed[i] < |places| && places[threads[t].owed[i]] == Owed(t, i))
  }

  ghost predicate Inv(s: State) {
    exists places :: Places(s, places)
  }

  lemma InitiallyInv()
    ensures Inv(INITIAL)
  {
    assert Places(INITIAL, []);
  }

  // ----- Each step keeps every group accounted for -----

  lemma {:induction false} EngageLocksPlaced(s: State, t: ThreadId, g: GroupId, place: Place)
    requires Enabled(s, EngageLocks(t)) && g < |s.shared.groups| && Placed(s, g, place)
    ensures Placed(Apply(s, EngageLocks(t)), g, place)
  {
  }

  lemma {:induction false} EngageLocksOwes(s: State, t: ThreadId, places: seq<Place>)
    requires OwedPlaced(s.threads, places) && Enabled(s, EngageLocks(t))
    ensures OwedPlaced(Apply(s, EngageLocks(t)).threads, places)
    ensures OwedPlaced(Apply(s, EngageLocks(t)).threads, places + [Listed(t)])
  {
  }

  lemma {:induction false} EngageLocksPlaces(s: State, t: ThreadId, places: seq<Place>) returns (after: seq<Place>)
    requires Places(s, places) && Enabled(s, EngageLocks(t))
    ensures Places(Apply(s, EngageLocks(t)), after)
  {
    var s' := Apply(s, EngageLocks(t));
    after := if s.threads[t].workspace in s.shared.engaged then places else places + [Listed(t)];
    EngageLocksOwes(s, t, places);
    forall g | 0 <= g < |places| ensures Placed(s', g, after[g]) {
      EngageLocksPlaced(s, t, g, places[g]);
    }
  }

  lemma {:induction false} SpawnWatcherPlaces(s: State, t: ThreadId, places: seq<Place>) returns (after: seq<Place>)
    requires Places(s, places) && Enabled(s, SpawnWatcher(t))
    ensures Places(Apply(s, SpawnWatcher(t)), after)
  {
    var g := s.threads[t].group;
    after := if g < |places| && places[g] == Listed(t) then places[g := Listed(|s.threads|)] else places;
  }

  lemma {:induction false} DisengageLocksPlaces(s: State, t: ThreadId, places: seq<Place>) returns (after: seq<Place>)
    requires Places(s, places) && Enabled(s, DisengageLocks(t))
    ensures Places(Apply(s, DisengageLocks(t)), after)
  {
    var taken := Taken(s.shared, s.threads[t].workspace);
    after := if taken.Some? then places[taken.value := Owed(t, 0)] else places;
    var s' := Apply(s, DisengageLocks(t));
    assert OwedPlaced(s'.threads, after);
    forall g | 0 <= g < |places| ensures Placed(s', g, after[g]) {
      assert Placed(s, g, places[g]);
    }
  }

  /** Where a group is once thread t is done with the first group it owed. */
  function Moved(place: Place, t: ThreadId): Place {
    match place
    case Owed(u, i) => if u != t then place else if i == 0 then Stopped else Owed(t, i - 1)
    case _ => place
  }

  lemma {:induction false} StopReturnsOwes(s: State, t: ThreadId, places: seq<Place>, after: seq<Place>)
    requires OwedPlaced(s.threads, places) && Enabled(s, StopReturns(t))
    requires |after| == |places| && forall g :: 0 <= g < |places| ==> after[g] == Moved(places[g], t)
    ensures OwedPlaced(Apply(s, StopReturns(t)).threads, after)
  {
    var owed := s.threads[t].owed;
    assert forall i :: 0 <= i < |owed| ==> places[owed[i]] == Owed(t, i);
    assert forall i :: 0 <= i < |owed| - 1 ==> owed[1..][i] == owed[i + 1];
  }

  lemma {:induction false} StopReturnsPlaced(s: State, t: ThreadId, g: GroupId, place: Place)
    requires Enabled(s, StopReturns(t)) && g < |s.shared.groups| && Placed(s, g, place)
    requires place.Owed? && place.t == t && place.i == 0 ==> s.threads[t].owed[0] == g
    requires place.Listed? || place.Stopped? || place.t != t || place.i > 0 ==> s.threads[t].owed[0] != g
    ensures Placed(Apply(s, StopReturns(t)), g, Moved(place, t))
  {
  }

  lemma {:induction false} StopReturnsPlaces(s: State, t: ThreadId, places: seq<Place>) returns (after: seq<Place>)
    requires Places(s, places) && Enabled(s, StopReturns(t))
    ensures Places(Apply(s, StopReturns(t)), after)
  {
    after := seq(|places|, g requires 0 <= g < |places| => Moved(places[g], t));
    var s' := Apply(s, StopReturns(t));
    StopReturnsOwes(s, t, places, after);
    assert places[s.threads[t].owed[0]] == Owed(t, 0);
    forall g | 0 <= g < |after| ensures Placed(s', g, after[g]) {
      StopReturnsPlaced(s, t, g, places[g]);
    }
  }

  /** The place each group has once thread t has drained the map in the given order. */
  ghost predicate Drained(s: State, t: ThreadId, order: seq<Name>, g: GroupId, before: Place, after: Place)
    requires g < |s.shared.groups|
  {
    if before.Listed? then
      after.Owed? && after.t == t && after.i < |order| && order[after.i] == s.shared.groups[g].workspace
    else after == before
  }

  lemma {:induction false} DrainOrder(s: State, t: ThreadId, order: seq<Name>, places: seq<Place>)
    returns (after: seq<Place>)
    requires Places(s, places) && (set w | w in order) == s.shared.engaged.Keys
    ensures |after| == |places|
    ensures forall g :: 0 <= g < |after| ==> Drained(s, t, order, g, places[g], after[g])
  {
    after := [];
    for n := 0 to |places|
      invariant |after| == n
      invariant forall g :: 0 <= g < n ==> Drained(s, t, order, g, places[g], after[g])
    {
      assert Placed(s, n, places[n]);
      if places[n].Listed? {
        assert s.shared.groups[n].workspace in (set w | w in order);
        var i :| 0 <= i < |order| && order[i] == s.shared.groups[n].workspace;
        after := after + [Owed(t, i)];
      } else {
        after := after + [places[n]];
      }
    }
  }

  lemma {:induction false} StartDrainsPlaces(s: State, t: ThreadId, order: seq<Name>, places: seq<Place>)
    returns (after: seq<Place>)
    requires Places(s, places) && Enabled(s, StartDrains(t, order))
    ensures Places(Apply(s, StartDrains(t, order)), after)
  {
    var s' := Apply(s, StartDrains(t, order));
    after := DrainOrder(s, t, order, places);
    forall g | 0 <= g < |after| ensures Placed(s', g, after[g]) {
      assert Placed(s, g, places[g]) && Drained(s, t, order, g, places[g], after[g]);
    }
    DrainOwes(s, t, order, places, after);
    assert forall u :: 0 <= u < |s'.threads| && s'.threads[u].Stopping? && u != t ==> s'.threads[u] == s.threads[u];
  }

  lemma {:induction false} DrainOwes(s: State, t: ThreadId, order: seq<Name>, places: seq<Place>, after: seq<Place>)
    requires Places(s, places) && Enabled(s, StartDrains(t, order)) && |after| == |places|
    requires forall g :: 0 <= g < |after| ==> Drained(s, t, order, g, places[g], after[g])
    ensures forall i :: 0 <= i < |order| ==>
      (order[i] in s.shared.engaged
       && s.shared.engaged[order[i]] < |after| && after[s.shared.engaged[order[i]]] == Owed(t, i))
  {
    forall i | 0 <= i < |order|
      ensures order[i] in s.shared.engaged
        && s.shared.engaged[order[i]] < |after| && after[s.shared.engaged[order[i]]] == Owed(t, i)
    {
      assert order[i] in (set w | w in order);
      var g := s.shared.engaged[order[i]];
      assert Drained(s, t, order, g, places[g], after[g]);
    }
  }

  lemma {:induction false} StepKeepsInv(s: State, step: Step)
    requires Inv(s) && Enabled(s, step)
    ensures Inv(Apply(s, step))
  {
    var places :| Places(s, places);
    var after := places;
    match step {
      case EngageLocks(t) => after := EngageLocksPlaces(s, t, places);
      case SpawnWatcher(t) => after := SpawnWatcherPlaces(s, t, places);
      case DisengageLocks(t) => after := DisengageLocksPlaces(s, t, places);
      case StopReturns(t) => after := StopReturnsPlaces(s, t, places);
      case StartDrains(t, order) => after := StartDrainsPlaces(s, t, order, places);
      case AddRunnable(_) => GroupStepPlaces(s, step, places);
      case RunnableReturns(_) => GroupStepPlaces(s, step, places);
      case StopRefuses(_) => StopStepPlaces(s, step, places);
      case StopCancels(_) => StopStepPlaces(s, step, places);
      case _ => ThreadStepPlaces(s, step, places);
    }
    assert Places(Apply(s, step), after);
  }

  /** The other steps move no group: some change one thread, some one group. */
  predicate ChangesThreadsOnly(step: Step) {
    || step.CallEngage? || step.SetupSucceeds? || step.SetupFails? || step.CancelContext?
    || step.WatcherFires? || step.CallStart? || step.StartLocks?
  }

  lemma {:induction false} ThreadStepPlaces(s: State, step: Step, places: seq<Place>)
    requires Places(s, places) && Enabled(s, step) && ChangesThreadsOnly(step)
    ensures Places(Apply(s, step), places)
  {
    var s' := Apply(s, step);
    assert s'.shared.groups == s.shared.groups && s'.shared.engaged == s.shared.engaged;
    assert OwedPlaced(s'.threads, places);
    forall g | 0 <= g < |places| ensures Placed(s', g, places[g]) {
      assert Placed(s, g, places[g]);
    }
  }

  lemma {:induction false} GroupStepPlaces(s: State, step: Step, places: seq<Place>)
    requires Places(s, places) && Enabled(s, step)
    requires step.AddRunnable? || step.RunnableReturns?
    ensures Places(Apply(s, step), places)
  {
    var s' := Apply(s, step);
    forall g | 0 <= g < |places| ensures Placed(s', g, places[g]) {
      assert Placed(s, g, places[g]);
    }
  }

  lemma {:induction false} StopStepPlaces(s: State, step: Step, places: seq<Place>)
    requires Places(s, places) && Enabled(s, step) && (step.StopRefuses? || step.StopCancels?)
    ensures Places(Apply(s, step), places)
  {
    var s' := Apply(s, step);
    assert OwedPlaced(s'.threads, places);
    var held := s.threads[step.t].owed[0];
    assert places[held] == Owed(step.t, 0);
    forall g | 0 <= g < |places| ensures Placed(s', g, places[g]) {
      assert Placed(s, g, places[g]);
    }
  }

  // ----- Runs -----

  ghost predicate Run(states: seq<State>, steps: seq<Step>) {
    && |states| == |steps| + 1
    && states[0] == INITIAL
    && forall i :: 0 <= i < |steps| ==> Enabled(states[i], steps[i]) && states[i + 1] == Apply(states[i], steps[i])
  }

  lemma {:induction false} RunKeepsInv(states: seq<State>, steps: seq<Step>, i: nat)
    requires Run(states, steps) && i < |states|
    ensures Inv(states[i])
  {
    if i == 0 {
      InitiallyInv();
    } else {
      RunKeepsInv(states, steps, i - 1);
      StepKeepsInv(states[i - 1], steps[i - 1]);
    }
  }

  /** In every reachable state a group is in exactly one of: the map, the debts of one
      thread, the stopped. */
  lemma {:induction false} EachGroupIsInOnePlace(states: seq<State>, steps: seq<Step>, n: nat, g: GroupId)
    requires Run(states, steps) && n < |states| && g < |states[n].shared.groups|
    ensures var s := states[n]; var stopped := s.shared.groups[g].released;
      && (InMap(s, g) || stopped || exists t, i :: Holds(s, t, i, g))
      && !(InMap(s, g) && stopped)
      && (InMap(s, g) || stopped ==> forall t, i :: !Holds(s, t, i, g))
      && (forall t, i, u, j :: Holds(s, t, i, g) && Holds(s, u, j, g) ==> t == u && i == j)
  {
    var s := states[n];
    RunKeepsInv(states, steps, n);
    var places :| Places(s, places);
    assert Placed(s, g, places[g]);
    assert forall t, i :: Holds(s, t, i, g) ==> places[g] == Owed(t, i);
  }

  lemma {:induction false} GroupsPersist(s: State, step: Step, g: GroupId)
    requires Enabled(s, step) && g < |s.shared.groups|
    ensures var s' := Apply(s, step);
      && g < |s'.shared.groups|
      && (s.shared.groups[g].refusing ==> s'.shared.groups[g].refusing
                                          && s'.shared.groups[g].running <= s.shared.groups[g].running)
      && (s.shared.groups[g].released ==> s'.shared.groups[g].released)
  {
  }

  /** A group that has begun to refuse runs, from then on, no more than it ran then; one
      whose stop has returned runs nothing, ever again. */
  lemma {:induction false} StoppedGroupsStayStopped(states: seq<State>, steps: seq<Step>, i: nat, j: nat, g: GroupId)
    requires Run(states, steps) && i <= j < |states| && g < |states[i].shared.groups|
    requires states[i].shared.groups[g].refusing
    ensures g < |states[j].shared.groups| && states[j].shared.groups[g].refusing
    ensures states[j].shared.groups[g].running <= states[i].shared.groups[g].running
    ensures states[i].shared.groups[g].released ==>
      states[j].shared.groups[g].released && states[j].shared.groups[g].running == 0
  {
    if i == j {
      RunKeepsInv(states, steps, i);
      var places: seq<Place> :| Places(states[i], places);
      assert Placed(states[i], g, places[g]);
      assert places[g].Owed? ==> !states[i].shared.groups[g].released;
    } else {
      StoppedGroupsStayStopped(states, steps, i, j - 1, g);
      GroupsPersist(states[j - 1], steps[j - 1], g);
    }
  }

  /** No Engage is in flight, and every watcher has fired and disengaged. A stop may still be in
      progress, waiting for what it cancelled. */
  ghost predicate Quiesced(s: State) {
    forall t :: 0 <= t < |s.threads| ==>
      s.threads[t].Finished? || s.threads[t].Starting? || s.threads[t].Serving? || s.threads[t].Stopping?
  }

  /** Then nothing is registered, and what still runs is owed a stop by some thread. */
  lemma {:induction false} QuiescedIsEmpty(states: seq<State>, steps: seq<Step>, n: nat)
    requires Run(states, steps) && n < |states| && Quiesced(states[n])
    ensures states[n].shared.engaged == map[]
    ensures forall g :: 0 <= g < |states[n].shared.groups| ==>
      || (states[n].shared.groups[g].released && states[n].shared.groups[g].running == 0)
      || exists t, i :: Holds(states[n], t, i, g)
  {
    var s := states[n];
    RunKeepsInv(states, steps, n);
    var places: seq<Place> :| Places(s, places);
    forall g | 0 <= g < |places| ensures !places[g].Listed? { assert Placed(s, g, places[g]); }
    forall g | 0 <= g < |places|
      ensures (s.shared.groups[g].released && s.shared.groups[g].running == 0) || exists t, i :: Holds(s, t, i, g)
    {
      assert Placed(s, g, places[g]);
      if places[g].Owed? { assert Holds(s, places[g].t, places[g].i, g); }
    }
    assert s.shared.engaged.Keys == {};
  }

  /** And nobody is stopping anything. */
  ghost predicate AtRest(s: State) {
    Quiesced(s) && forall t :: 0 <= t < |s.threads| ==> !s.threads[t].Stopping?
  }

  lemma {:induction false} AtRestNothingRuns(states: seq<State>, steps: seq<Step>, n: nat)
    requires Run(states, steps) && n < |states| && AtRest(states[n])
    ensures states[n].shared.engaged == map[]
    ensures forall g :: 0 <= g < |states[n].shared.groups| ==>
      states[n].shared.groups[g].released && states[n].shared.groups[g].running == 0
  {
    QuiescedIsEmpty(states, steps, n);
  }

  // ----- Whose group a watcher takes -----

  /** The group a thread registered, sets up, watches or disengages for. */
  function OwnOf(thread: Thread): Option<GroupId> {
    match thread
    case Registered(_, _, g) => Some(g)
    case SettingUp(_, _, g) => Some(g)
    case Watching(_, _, g) => Some(g)
    case Disengaging(_, g, _) => Some(g)
    case _ => None
  }

  /** Every such thread goes by the workspace of its own group. */
  ghost predicate Faithful(s: State) {
    forall t :: 0 <= t < |s.threads| && OwnOf(s.threads[t]).Some? ==> GoesByOwn(s, s.threads[t])
  }

  predicate GoesByOwn(s: State, thread: Thread)
    requires OwnOf(thread).Some?
  {
    var own := OwnOf(thread).value;
    own < |s.shared.groups| && s.shared.groups[own].workspace == thread.workspace
  }

  /** No two threads are, or are about to start, the watcher of one group; nor its Engage. */
  ghost predicate OneOfEach(s: State) {
    && (forall t, u | 0 <= t < |s.threads| && 0 <= u < |s.threads| ::
          Ward(s.threads[t]).Some? && Ward(s.threads[t]) == Ward(s.threads[u]) ==> t == u)
    && (forall t, u | 0 <= t < |s.threads| && 0 <= u < |s.threads| ::
          Setup(s.threads[t]).Some? && Setup(s.threads[t]) == Setup(s.threads[u]) ==> t == u)
  }

  /** The group whose Engage this thread still is. */
  function Setup(thread: Thread): Option<GroupId> {
    match thread
    case Registered(_, _, g) => Some(g)
    case SettingUp(_, _, g) => Some(g)
    case _ => None
  }

  /** Groups keep their workspace, and one that is out of the map never comes back. */
  lemma {:induction false} OutIsOut(s: State, step: Step, g: GroupId)
    requires Enabled(s, step) && g < |s.shared.groups|
    ensures g < |Apply(s, step).shared.groups|
    ensures Apply(s, step).shared.groups[g].workspace == s.shared.groups[g].workspace
    ensures InMap(Apply(s, step), g) ==> InMap(s, g)
  {
  }

  lemma {:induction false} StepKeepsFaithful(s: State, step: Step)
    requires Enabled(s, step) && Faithful(s)
    ensures Faithful(Apply(s, step))
  {
    var s' := Apply(s, step);
    forall t | 0 <= t < |s'.threads| && OwnOf(s'.threads[t]).Some? ensures GoesByOwn(s', s'.threads[t]) {
      OwnComesFrom(s, step, t);
    }
  }

  /** A thread's own group is the one it had, or one its predecessor had, or new with it. */
  lemma {:induction false} OwnComesFrom(s: State, step: Step, t: ThreadId)
    requires Enabled(s, step) && Faithful(s)
    requires t < |Apply(s, step).threads| && OwnOf(Apply(s, step).threads[t]).Some?
    ensures GoesByOwn(Apply(s, step), Apply(s, step).threads[t])
  {
    var own := OwnOf(Apply(s, step).threads[t]).value;
    if t < |s.threads| && OwnOf(s.threads[t]) == Some(own) {
      assert GoesByOwn(s, s.threads[t]);
      OutIsOut(s, step, own);
    } else if step.SpawnWatcher? {
      assert GoesByOwn(s, s.threads[step.t]);
    }
  }

  ghost predicate HasWard(s: State, g: GroupId) { exists t :: 0 <= t < |s.threads| && Ward(s.threads[t]) == Some(g) }

  /** The wards there are after a step: those there were, and at most the new group's. */
  lemma {:induction false} WardComesFrom(s: State, step: Step, t: ThreadId, g: GroupId)
    requires Enabled(s, step) && t < |Apply(s, step).threads| && Ward(Apply(s, step).threads[t]) == Some(g)
    requires g < |s.shared.groups|
    ensures HasWard(s, g)
  {
    if t < |s.threads| && Ward(s.threads[t]) == Some(g) {
    } else {
      assert step.SpawnWatcher? && Ward(s.threads[step.t]) == Some(g);
    }
  }

  /** A step after which no thread is for another group than before, unless for none. */
  lemma {:induction false} FrameKeepsOneOfEach(s: State, s': State)
    requires OneOfEach(s) && |s'.threads| >= |s.threads|
    requires forall t :: 0 <= t < |s'.threads| ==>
      Ward(s'.threads[t]).None? || (t < |s.threads| && Ward(s'.threads[t]) == Ward(s.threads[t]))
    requires forall t :: 0 <= t < |s'.threads| ==>
      Setup(s'.threads[t]).None? || (t < |s.threads| && Setup(s'.threads[t]) == Setup(s.threads[t]))
    ensures OneOfEach(s')
  {
  }

  lemma {:induction false} EngageLocksKeepsOneOfEach(s: State, t: ThreadId)
    requires Enabled(s, EngageLocks(t)) && Faithful(s) && OneOfEach(s)
    ensures OneOfEach(Apply(s, EngageLocks(t)))
  {
    var s' := Apply(s, EngageLocks(t));
    if s.threads[t].workspace in s.shared.engaged {
      FrameKeepsOneOfEach(s, s');
    } else {
      forall u | 0 <= u < |s.threads| && OwnOf(s.threads[u]).Some?
        ensures OwnOf(s.threads[u]).value != |s.shared.groups|
      {
        assert GoesByOwn(s, s.threads[u]);
      }
    }
  }

  lemma {:induction false} SpawnWatcherKeepsOneOfEach(s: State, t: ThreadId)
    requires Enabled(s, SpawnWatcher(t)) && OneOfEach(s)
    ensures OneOfEach(Apply(s, SpawnWatcher(t)))
  {
    var s' := Apply(s, SpawnWatcher(t));
    assert forall u :: 0 <= u < |s.threads| && u != t ==> s'.threads[u] == s.threads[u];
    assert Ward(s'.threads[t]).None? && Ward(s'.threads[|s.threads|]) == Ward(s.threads[t]);
  }

  lemma {:induction false} StepKeepsOneOfEach(s: State, step: Step)
    requires Enabled(s, step) && Faithful(s) && OneOfEach(s)
    ensures OneOfEach(Apply(s, step))
  {
    match step
    case EngageLocks(t) => EngageLocksKeepsOneOfEach(s, t);
    case SpawnWatcher(t) => SpawnWatcherKeepsOneOfEach(s, t);
    case DisengageLocks(_) => TakingStepKeepsOneOfEach(s, step);
    case StartDrains(_, _) => TakingStepKeepsOneOfEach(s, step);
    case StopRefuses(_) => StopStepKeepsOneOfEach(s, step);
    case StopCancels(_) => StopStepKeepsOneOfEach(s, step);
    case StopReturns(_) => StopStepKeepsOneOfEach(s, step);
    case AddRunnable(_) => FrameKeepsOneOfEach(s, Apply(s, step));
    case RunnableReturns(_) => FrameKeepsOneOfEach(s, Apply(s, step));
    case _ => ThreadStepKeepsOneOfEach(s, step);
  }

  lemma {:induction false} TakingStepKeepsOneOfEach(s: State, step: Step)
    requires Enabled(s, step) && OneOfEach(s) && (step.DisengageLocks? || step.StartDrains?)
    ensures OneOfEach(Apply(s, step))
  {
    FrameKeepsOneOfEach(s, Apply(s, step));
  }

  lemma {:induction false} StopStepKeepsOneOfEach(s: State, step: Step)
    requires Enabled(s, step) && OneOfEach(s) && (step.StopRefuses? || step.StopCancels? || step.StopReturns?)
    ensures OneOfEach(Apply(s, step))
  {
    FrameKeepsOneOfEach(s, Apply(s, step));
  }

  lemma {:induction false} ThreadStepKeepsOneOfEach(s: State, step: Step)
    requires Enabled(s, step) && OneOfEach(s) && ChangesThreadsOnly(step)
    ensures OneOfEach(Apply(s, step))
  {
    FrameKeepsOneOfEach(s, Apply(s, step));
  }

  lemma {:induction false} RunKeepsWards(states: seq<State>, steps: seq<Step>, n: nat)
    requires Run(states, steps) && n < |states|
    ensures Faithful(states[n]) && OneOfEach(states[n])
  {
    if n > 0 {
      RunKeepsWards(states, steps, n - 1);
      StepKeepsFaithful(states[n - 1], steps[n - 1]);
      StepKeepsOneOfEach(states[n - 1], steps[n - 1]);
    }
  }

  /** The step takes the group out of the map. */
  predicate TakesOut(s: State, step: Step, g: GroupId)
    requires Enabled(s, step)
  {
    g < |s.shared.groups| && InMap(s, g) && g < |Apply(s, step).shared.groups| && !InMap(Apply(s, step), g)
  }

  /** Only two critical sections do: a drain takes every group, a disengage the one under its
      workspace. */
  lemma {:induction false} TakesOutMeaning(s: State, step: Step, g: GroupId)
    requires Enabled(s, step) && g < |s.shared.groups|
    ensures TakesOut(s, step, g) <==>
              && InMap(s, g)
              && (step.StartDrains?
                  || (step.DisengageLocks? && s.threads[step.t].workspace == s.shared.groups[g].workspace))
  {
    OutIsOut(s, step, g);
  }

  /** A group is in the map from its registration until a step takes it out, once. */
  lemma {:induction false} InMapUntilTakenOut(states: seq<State>, steps: seq<Step>, n: nat, g: GroupId)
    requires Run(states, steps) && n < |states| && g < |states[n].shared.groups|
    ensures InMap(states[n], g) <==> forall k :: 0 <= k < n ==> !TakesOut(states[k], steps[k], g)
  {
    if n > 0 {
      var s, step := states[n - 1], steps[n - 1];
      if g < |s.shared.groups| {
        InMapUntilTakenOut(states, steps, n - 1, g);
        OutIsOut(s, step, g);
      } else {
        assert step.EngageLocks? && InMap(states[n], g);
        forall k | 0 <= k < n ensures !TakesOut(states[k], steps[k], g) { GroupsOnlyGrow(states, steps, k, n - 1); }
      }
    }
  }

  lemma {:induction false} GroupsOnlyGrow(states: seq<State>, steps: seq<Step>, k: nat, n: nat)
    requires Run(states, steps) && k <= n < |states|
    ensures |states[k].shared.groups| <= |states[n].shared.groups|
  {
    if k < n { GroupsOnlyGrow(states, steps, k, n - 1); }
  }

  /** In every run: what a watcher takes out of the map is its own group exactly when no earlier
      step took that out; what it then owes a stop is that group. */
  lemma {:induction false} WatchersTakeTheirOwn(states: seq<State>, steps: seq<Step>, n: nat)
    requires Run(states, steps) && n < |steps| && steps[n].DisengageLocks? && states[n].threads[steps[n].t].fired
    ensures var th := states[n].threads[steps[n].t];
      && (Taken(states[n].shared, th.workspace) == Some(th.own) <==>
            forall k :: 0 <= k < n ==> !TakesOut(states[k], steps[k], th.own))
      && (Taken(states[n].shared, th.workspace) == Some(th.own) <==> Holds(states[n + 1], steps[n].t, 0, th.own))
  {
    RunKeepsWards(states, steps, n);
    var th := states[n].threads[steps[n].t];
    assert GoesByOwn(states[n], th);
    InMapUntilTakenOut(states, steps, n, th.own);
  }

  lemma {:induction false} NoNewWard(s: State, step: Step, g: GroupId)
    requires Enabled(s, step) && g < |s.shared.groups| && HasWard(Apply(s, step), g)
    ensures HasWard(s, g)
  {
    var s' := Apply(s, step);
    var t :| 0 <= t < |s'.threads| && Ward(s'.threads[t]) == Some(g);
    WardComesFrom(s, step, t, g);
  }

  lemma {:induction false} NoNewWardAt(states: seq<State>, steps: seq<Step>, k: nat, i: nat, g: GroupId)
    requires Run(states, steps) && k <= i < |steps| && g < |states[k].shared.groups| && HasWard(states[i + 1], g)
    ensures HasWard(states[i], g)
  {
    GroupsOnlyGrow(states, steps, k, i);
    NoNewWard(states[i], steps[i], g);
  }

  lemma {:induction false} Backwards(states: seq<State>, k: nat, n: nat, g: GroupId)
    requires k <= n < |states| && HasWard(states[n], g)
    requires forall i | k <= i < n :: HasWard(states[i + 1], g) ==> HasWard(states[i], g)
    ensures HasWard(states[k], g)
    decreases n
  {
    if k < n {
      assert HasWard(states[n - 1 + 1], g);
      Backwards(states, k, n - 1, g);
    }
  }

  /** A ward that is given up is never taken up again. */
  lemma {:induction false} WardsAreGivenUpOnce(states: seq<State>, steps: seq<Step>, k: nat, n: nat, g: GroupId)
    requires Run(states, steps) && k <= n < |states| && g < |states[k].shared.groups| && HasWard(states[n], g)
    ensures HasWard(states[k], g)
  {
    forall i | k <= i < n && HasWard(states[i + 1], g) ensures HasWard(states[i], g) {
      NoNewWardAt(states, steps, k, i, g);
    }
    Backwards(states, k, n, g);
  }

  /** A watcher gives its ward up as it disengages. */
  lemma {:induction false} DisengagedIsNoWard(s: State, t: ThreadId)
    requires OneOfEach(s) && Enabled(s, DisengageLocks(t)) && s.threads[t].fired
    ensures !HasWard(Apply(s, DisengageLocks(t)), s.threads[t].own)
  {
  }

  /** A group in the map is the latest of its workspace. */
  ghost predicate LatestListed(s: State) {
    forall g, h :: 0 <= g < h < |s.shared.groups| && s.shared.groups[g].workspace == s.shared.groups[h].workspace ==>
      !InMap(s, g)
  }

  lemma {:induction false} StepKeepsLatest(s: State, step: Step)
    requires Enabled(s, step) && LatestListed(s)
    ensures LatestListed(Apply(s, step))
  {
    var s' := Apply(s, step);
    forall g, h | 0 <= g < h < |s'.shared.groups| && s'.shared.groups[g].workspace == s'.shared.groups[h].workspace
      ensures !InMap(s', g)
    {
      if h < |s.shared.groups| {
        OutIsOut(s, step, g);
        OutIsOut(s, step, h);
      } else {
        NewIsOnly(s, step, g);
      }
    }
  }

  /** A group is created only for a workspace that has none. */
  lemma {:induction false} NewIsOnly(s: State, step: Step, g: GroupId)
    requires Enabled(s, step) && g < |s.shared.groups| < |Apply(s, step).shared.groups|
    requires Apply(s, step).shared.groups[g].workspace == Apply(s, step).shared.groups[|s.shared.groups|].workspace
    ensures !InMap(Apply(s, step), g)
  {
    assert step.EngageLocks?;
  }

  lemma {:induction false} RunKeepsLatest(states: seq<State>, steps: seq<Step>, n: nat)
    requires Run(states, steps) && n < |states|
    ensures LatestListed(states[n])
  {
    if n > 0 {
      RunKeepsLatest(states, steps, n - 1);
      StepKeepsLatest(states[n - 1], steps[n - 1]);
    }
  }

  /** What can have taken a group out before its watcher comes for it: Start's drain, the
      group's own failed setup, or a watcher or failed setup of an earlier group of the
      workspace, which was out of the map already. */
  ghost predicate TakenBefore(s: State, step: Step, g: GroupId)
    requires Enabled(s, step) && g < |s.shared.groups|
  {
    || step.StartDrains?
    || (step.DisengageLocks? && !s.threads[step.t].fired && s.threads[step.t].own == g)
    || (step.DisengageLocks? && s.threads[step.t].own < g && !InMap(s, s.threads[step.t].own)
        && s.shared.groups[s.threads[step.t].own].workspace == s.shared.groups[g].workspace)
  }

  lemma {:induction false} WhoTookItBefore(states: seq<State>, steps: seq<Step>, k: nat, n: nat, t: ThreadId,
      g: GroupId)
    requires Run(states, steps) && k < n < |states| && t < |states[n].threads| && Ward(states[n].threads[t]) == Some(g)
    requires Enabled(states[k], steps[k]) && TakesOut(states[k], steps[k], g)
    ensures TakenBefore(states[k], steps[k], g)
  {
    var s, step := states[k], steps[k];
    TakesOutMeaning(s, step, g);
    if step.DisengageLocks? {
      RunKeepsWards(states, steps, k);
      RunKeepsLatest(states, steps, k);
      var th := s.threads[step.t];
      assert GoesByOwn(s, th);
      if th.own == g && th.fired {
        DisengagedIsNoWard(s, step.t);
        WardsAreGivenUpOnce(states, steps, k + 1, n, g);
      }
    }
  }

  /** While no setup of the workspace has failed and no Start has drained, nothing takes a group
      of the workspace before its own watcher does. */
  ghost predicate Untroubled(states: seq<State>, steps: seq<Step>, n: nat, w: Name)
    requires Run(states, steps) && n <= |steps|
  {
    forall k :: 0 <= k < n ==>
      !steps[k].StartDrains? && !(steps[k].SetupFails? && states[k].threads[steps[k].t].workspace == w)
  }

  lemma {:induction false} FailedSetupsFailed(states: seq<State>, steps: seq<Step>, n: nat, w: Name, t: ThreadId)
    requires Run(states, steps) && n < |states| && Untroubled(states, steps, n, w)
    requires t < |states[n].threads| && states[n].threads[t].Disengaging? && states[n].threads[t].workspace == w
    ensures states[n].threads[t].fired
  {
    if n > 0 && t < |states[n - 1].threads| && states[n - 1].threads[t].Disengaging? {
      FailedSetupsFailed(states, steps, n - 1, w, t);
    }
  }

  /** The corollary a caller can look for: then every watcher takes its own. */
  lemma {:induction false} UntroubledWatchersTakeTheirOwn(states: seq<State>, steps: seq<Step>, n: nat)
    requires Run(states, steps) && n < |steps| && steps[n].DisengageLocks?
    requires Untroubled(states, steps, n, states[n].threads[steps[n].t].workspace)
    ensures var th := states[n].threads[steps[n].t]; th.fired && Taken(states[n].shared, th.workspace) == Some(th.own)
  {
    var t := steps[n].t;
    var th := states[n].threads[t];
    FailedSetupsFailed(states, steps, n, th.workspace, t);
    WatchersTakeTheirOwn(states, steps, n);
    RunKeepsWards(states, steps, n);
    assert GoesByOwn(states[n], th);
    forall k | 0 <= k < n ensures !TakesOut(states[k], steps[k], th.own) {
      if TakesOut(states[k], steps[k], th.own) {
        WhoTookItBefore(states, steps, k, n, t, th.own);
        WorkspaceStays(states, steps, k, n, th.own);
        TakesOutMeaning(states[k], steps[k], th.own);
        FailedSetupsFailed(states, steps, k, th.workspace, steps[k].t);
        UntroubledWatchersTakeTheirOwn(states, steps, k);
        TookItsOwn(states, steps, k, th.own);
      }
    }
  }

  lemma {:induction false} TookItsOwn(states: seq<State>, steps: seq<Step>, k: nat, g: GroupId)
    requires Run(states, steps) && k < |steps| && steps[k].DisengageLocks? && states[k].threads[steps[k].t].fired
    requires g < |states[k].shared.groups|
    requires Taken(states[k].shared, states[k].threads[steps[k].t].workspace) == Some(states[k].threads[steps[k].t].own)
    ensures !TakenBefore(states[k], steps[k], g)
  {
    RunKeepsWards(states, steps, k);
    assert GoesByOwn(states[k], states[k].threads[steps[k].t]);
  }

  lemma {:induction false} WorkspaceStays(states: seq<State>, steps: seq<Step>, k: nat, n: nat, g: GroupId)
    requires Run(states, steps) && k <= n < |states| && g < |states[k].shared.groups|
    ensures g < |states[n].shared.groups|
      && states[n].shared.groups[g].workspace == states[k].shared.groups[g].workspace
  {
    if k < n {
      WorkspaceStays(states, steps, k, n - 1, g);
      OutIsOut(states[n - 1], steps[n - 1], g);
    }
  }

  // ----- A watcher that takes another's group -----

  ghost predicate Path(states: seq<State>, steps: seq<Step>) {
    && |states| == |steps| + 1
    && forall i :: 0 <= i < |steps| ==> Enabled(states[i], steps[i]) && states[i + 1] == Apply(states[i], steps[i])
  }

  lemma {:induction false} RunThen(states: seq<State>, steps: seq<Step>, more: seq<State>, rest: seq<Step>)
    requires Run(states, steps) && Path(more, rest) && more[0] == states[|steps|]
    ensures Run(states + more[1..], steps + rest)
  {
    var all, taken := states + more[1..], steps + rest;
    forall i | 0 <= i < |taken| ensures Enabled(all[i], taken[i]) && all[i + 1] == Apply(all[i], taken[i]) {
      if i >= |steps| {
        assert taken[i] == rest[i - |steps|];
        assert all[i] == more[i - |steps|] && all[i + 1] == more[i + 1 - |steps|];
      }
    }
  }

  /** The watcher of g has yet to disengage, and goes by g's workspace. */
  predicate Pending(s: State, u: ThreadId, g: GroupId) {
    && u < |s.threads| && g < |s.shared.groups|
    && ((s.threads[u].Watching? && s.threads[u].own == g)
        || (s.threads[u].Disengaging? && s.threads[u].fired && s.threads[u].own == g))
    && s.threads[u].workspace == s.shared.groups[g].workspace
  }

  /** In every run, a failed setup whose group is still in the map leaves that group's watcher
      pending on a workspace that has no group. */
  lemma {:induction false} FailedSetupLeavesItsWatcher(states: seq<State>, steps: seq<Step>, n: nat, t: ThreadId)
    requires Run(states, steps) && n < |states| && t < |states[n].threads| && states[n].threads[t].SettingUp?
    requires states[n].threads[t].group < |states[n].shared.groups| && InMap(states[n], states[n].threads[t].group)
    ensures Enabled(states[n], SetupFails(t)) && Enabled(Apply(states[n], SetupFails(t)), DisengageLocks(t))
    ensures var s' := Apply(Apply(states[n], SetupFails(t)), DisengageLocks(t));
      && states[n].threads[t].workspace !in s'.shared.engaged
      && exists u :: Pending(s', u, states[n].threads[t].group)
  {
    var s, g := states[n], states[n].threads[t].group;
    RunKeepsInv(states, steps, n);
    RunKeepsWards(states, steps, n);
    assert GoesByOwn(s, s.threads[t]);
    var places: seq<Place> :| Places(s, places);
    assert Placed(s, g, places[g]);
    assert places[s.shared.engaged[s.shared.groups[g].workspace]].Listed?;
    var u := places[g].guard;
    assert Setup(s.threads[t]) == Some(g);
    assert !s.threads[u].Registered?;
    assert Pending(Apply(Apply(s, SetupFails(t)), DisengageLocks(t)), u, g);
  }

  /** A watcher that finds its workspace without a group is free to take a later one, whose own
      context was never cancelled. */
  lemma {:induction false} StaleWatcherTakesALaterGroup(s: State, t: ThreadId, newContext: ContextId)
    returns (steps: seq<Step>, states: seq<State>)
    requires t < |s.threads| && s.threads[t].Watching? && s.threads[t].workspace !in s.shared.engaged
    requires newContext !in s.cancelled && newContext != s.threads[t].context
    ensures Path(states, steps) && states[0] == s && |steps| == 5 && steps[4] == DisengageLocks(t)
    ensures states[4].threads[t] == Disengaging(s.threads[t].workspace, s.threads[t].own, true)
    ensures Taken(states[4].shared, s.threads[t].workspace) == Some(|s.shared.groups|)
    ensures var last := states[5]; var later := |s.shared.groups|;
      && later < |last.shared.groups| && Holds(last, t, 0, later)
      && last.shared.groups[later].workspace == s.threads[t].workspace
      && last.shared.groups[later].parent == newContext && newContext !in last.cancelled
  {
    var th := s.threads[t];
    var n := |s.threads|;
    var s1 := Apply(s, CallEngage(th.workspace, newContext));
    var s2 := Apply(s1, EngageLocks(n));
    var s3 := Apply(s2, CancelContext(th.context));
    var s4 := Apply(s3, WatcherFires(t));
    var s5 := Apply(s4, DisengageLocks(t));
    steps := [CallEngage(th.workspace, newContext), EngageLocks(n), CancelContext(th.context), WatcherFires(t),
              DisengageLocks(t)];
    states := [s, s1, s2, s3, s4, s5];
  }

  lemma {:induction false} EngagedRun(workspace: Name, context: ContextId)
    returns (steps: seq<Step>, states: seq<State>)
    ensures Run(states, steps)
    ensures states[|steps|] == State(Shared(false, map[workspace := 0], [NewGroup(workspace, context)]),
                                     [SettingUp(workspace, context, 0), Watching(workspace, context, 0)], {})
  {
    var s1 := Apply(INITIAL, CallEngage(workspace, context));
    var s2 := Apply(s1, EngageLocks(0));
    var s3 := Apply(s2, SpawnWatcher(0));
    steps, states := [CallEngage(workspace, context), EngageLocks(0), SpawnWatcher(0)], [INITIAL, s1, s2, s3];
  }

  lemma {:induction false} SetupFailsPath(s: State, workspace: Name) returns (steps: seq<Step>, states: seq<State>)
    requires |s.threads| == 2 && s.threads[0].SettingUp? && s.threads[0].workspace == workspace
    requires s.shared.engaged == map[workspace := 0]
    ensures Path(states, steps) && states[0] == s
    ensures states[|steps|] == s.(shared := s.shared.(engaged := map[]),
              threads := [Stopping([0], Refusing), s.threads[1]])
  {
    var s1 := Apply(s, SetupFails(0));
    var s2 := Apply(s1, DisengageLocks(0));
    steps, states := [SetupFails(0), DisengageLocks(0)], [s, s1, s2];
    assert map[workspace := 0] - {workspace} == map[];
  }

  lemma {:induction false} StopPath(s: State) returns (steps: seq<Step>, states: seq<State>)
    requires |s.threads| == 2 && s.threads[0] == Stopping([0], Refusing)
    requires |s.shared.groups| == 1 && s.shared.groups[0].running == 0
    ensures Path(states, steps) && states[0] == s
    ensures states[|steps|] == s.(
              shared := s.shared.(groups :=
                [s.shared.groups[0].(refusing := true, cancelled := true, released := true)]),
              threads := [Finished, s.threads[1]])
  {
    var s1 := Apply(s, StopRefuses(0));
    var s2 := Apply(s1, StopCancels(0));
    var s3 := Apply(s2, StopReturns(0));
    steps, states := [StopRefuses(0), StopCancels(0), StopReturns(0)], [s, s1, s2, s3];
  }

  /** A run in which a setup fails and its group is stopped, and the watcher is still there. */
  lemma {:induction false} FailedSetupRun(workspace: Name, context: ContextId)
    returns (steps: seq<Step>, states: seq<State>)
    ensures Run(states, steps)
    ensures var last := states[|steps|];
      && last.threads == [Finished, Watching(workspace, context, 0)]
      && last.shared.engaged == map[] && last.cancelled == {}
      && |last.shared.groups| == 1 && last.shared.groups[0].released
  {
    var before, reached := EngagedRun(workspace, context);
    steps, states := before, reached;
    var rest, more := SetupFailsPath(states[|steps|], workspace);
    RunThen(states, steps, more, rest);
    EndsThere(states, steps, more, rest);
    steps, states := steps + rest, states + more[1..];
    rest, more := StopPath(states[|steps|]);
    RunThen(states, steps, more, rest);
    EndsThere(states, steps, more, rest);
    steps, states := steps + rest, states + more[1..];
  }

  lemma {:induction false} EndsThere(states: seq<State>, steps: seq<Step>, more: seq<State>, rest: seq<Step>)
    requires |states| == |steps| + 1 && |more| == |rest| + 1 && more[0] == states[|steps|]
    ensures (states + more[1..])[|steps + rest|] == more[|rest|]
  {
  }

  /** So it does happen: a run from the start in which a watcher takes, and stops, a group that is
      not its own and whose context is live. */
  lemma {:induction false} AWatcherTakesAnothers(workspace: Name, context: ContextId, newContext: ContextId)
    returns (steps: seq<Step>, states: seq<State>, n: nat)
    requires context != newContext
    ensures Run(states, steps) && n < |steps| && steps[n] == DisengageLocks(1)
    ensures states[n].threads[1] == Disengaging(workspace, 0, true)
    ensures Taken(states[n].shared, workspace) == Some(1)
    ensures var last := states[n + 1];
      && Holds(last, 1, 0, 1) && 1 < |last.shared.groups| && last.shared.groups[1].workspace == workspace
      && last.shared.groups[1].parent == newContext && newContext !in last.cancelled
  {
    var before, reached := FailedSetupRun(workspace, context);
    var rest, more := StaleWatcherTakesALaterGroup(reached[|before|], 1, newContext);
    RunThen(reached, before, more, rest);
    steps, states, n := before + rest, reached + more[1..], |before| + 4;
    assert states[n] == more[4] && states[n + 1] == more[5] && steps[n] == rest[4];
  }
}

/** The source's objects. Each method is one critical section, and does to the shared state
    what the step of that name does. */
module WiringObjects {
  import opened Options
  import opened WiringState
  import Ordering

  class RunnableGroup {
    ghost const id: GroupId
    ghost const workspace: Name
    ghost const parent: ContextId
    ghost var released: bool
    var cancelled: bool
    var stopped: bool
    var running: nat

    ghost function View(): Group
      reads this
    {
      Group(workspace, parent, stopped, cancelled, running, released)
    }

    constructor (ghost id: GroupId, ghost workspace: Name, ghost parent: ContextId)
      ensures this.id == id && View() == NewGroup(workspace, parent)
    {
      this.id, this.workspace, this.parent := id, workspace, parent;
      released, cancelled, stopped, running := false, false, false, 0;
    }

    /** Refused, and nothing started, once the group is stopping. */
    method AddRunnable() returns (accepted: bool)
      modifies this
      ensures View() == Add(old(View()))
      ensures accepted <==> running == old(running) + 1
      ensures !accepted <==> old(stopped)
    {
      if stopped {
        return false;
      }
      running := running + 1;
      return true;
    }

    /** A started runnable is done: one less to wait for. */
    method RunnableReturns()
      requires running > 0
      modifies this
      ensures View() == Finish(old(View())) && running == old(running) - 1
    {
      running := running - 1;
    }

    method StopRefuses()
      modifies this
      ensures View() == Refuse(old(View()))
    {
      stopped := true;
    }

    method StopCancels()
      modifies this
      ensures View() == Cancel(old(View()))
    {
      cancelled := true;
    }

    /** The wait group lets `stop` return once the count is zero. */
    method StopReturns()
      requires running == 0
      modifies this
      ensures View() == Release(old(View()))
    {
      released := true;
    }
  }

  class Wiring {
    var started: bool
    var engaged: map<Name, RunnableGroup>
    ghost var created: seq<RunnableGroup>

    ghost predicate Valid()
      reads this
    {
      && (forall i :: 0 <= i < |created| ==> created[i].id == i)
      && (forall w :: w in engaged ==> engaged[w].id < |created| && created[engaged[w].id] == engaged[w])
    }

    ghost function View(): Shared
      reads this, created
    {
      Shared(started, map w | w in engaged :: engaged[w].id,
             seq(|created|, i requires 0 <= i < |created| reads this, created => created[i].View()))
    }

    constructor ()
      ensures Valid() && View() == Shared(false, map[], [])
    {
      started, engaged, created := false, map[], [];
    }

    /** Engage's critical section: the group to set up, or null if the workspace already has one. */
    method EngageLocks(workspace: Name, ghost context: ContextId) returns (group: RunnableGroup?)
      requires Valid()
      modifies this
      ensures Valid() && View() == Register(old(View()), workspace, context)
      ensures group == null <==> workspace in old(engaged)
      ensures group != null ==> fresh(group) && group.id == |old(created)|
      ensures group != null ==> workspace in engaged && engaged[workspace] == group
    {
      if workspace in engaged {
        return null;
      }
      var g := new RunnableGroup(|created|, workspace, context);
      engaged := engaged[workspace := g];
      created := created + [g];
      return g;
    }

    /** disengage's critical section: the group to stop, or null if there is none. */
    method DisengageLocks(workspace: Name) returns (group: RunnableGroup?)
      requires Valid()
      modifies this
      ensures Valid() && View() == Forget(old(View()), workspace)
      ensures Taken(old(View()), workspace) == if group == null then None else Some(group.id)
    {
      group := if workspace in engaged then engaged[workspace] else null;
      engaged := engaged - {workspace};
    }

    method StartLocks() returns (first: bool)
      requires Valid()
      modifies this
      ensures Valid() && View() == MarkStarted(old(View())) && first == !old(started)
    {
      if started {
        return false;
      }
      started := true;
      return true;
    }

    /** Start's second critical section: every registered group, met in whatever order the
        map yields them, with the map left empty. */
    method StartDrains() returns (groups: seq<RunnableGroup>, ghost order: seq<Name>)
      requires Valid()
      modifies this
      ensures Valid() && View() == ForgetAll(old(View()))
      ensures (set w | w in order) == old(engaged).Keys
      ensures forall i, j :: 0 <= i < j < |order| ==> order[i] != order[j]
      ensures |groups| == |order|
      ensures forall i :: 0 <= i < |order| ==> groups[i] == old(engaged)[order[i]]
    {
      groups, order := [], [];
      var rest := engaged.Keys;
      while rest != {}
        invariant rest <= engaged.Keys
        invariant forall w :: w in order <==> w in engaged.Keys - rest
        invariant forall i, j :: 0 <= i < j < |order| ==> order[i] != order[j]
        invariant |groups| == |order|
        invariant forall i :: 0 <= i < |order| ==> order[i] in engaged && groups[i] == engaged[order[i]]
        decreases rest
      {
        var w :| w in rest;
        assert w !in order;
        rest := rest - {w};
        groups, order := groups + [engaged[w]], order + [w];
      }
      engaged := map[];
    }

    method Engaged() returns (names: seq<Name>)
      requires Valid()
      ensures names == Ordering.InStringOrder(View().engaged.Keys)
    {
      names := Ordering.SortedStrings(engaged.Keys);
      assert View().engaged.Keys == engaged.Keys;
    }
  }
}
