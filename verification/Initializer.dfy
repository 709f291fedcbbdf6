/** Keeping a workspace's roles and releasing it: `internal/capiworkspaces/reconcile.go` and
    `initializer.go`. The workspace's API server is its bindings, its roles and the
    initializers that still hold it. */
module Initializer {
  import opened Options
  import opened Ordering
  import opened Decimal
  import opened Roles

  const BINDINGS_INITIALIZER := "system:apibindings"
  const PHASE_BOUND := "Bound"
  const CLAIM_RETRY_ANNOTATION := "cluster-api.kcp.io/permission-claim-retry"
  const MAX_CLAIM_RETRIES := 12

  type Bindings = map<string, Binding>
  type RoleStore = map<string, Role>

  /** A workspace; without initializers its logical cluster is gone. */
  datatype Workspace = Workspace(bindings: Bindings, roles: RoleStore, initializers: Option<set<string>>)

  // ----- Roles -----

  predicate Managed(role: Role) {
    MANAGED_BY_LABEL in role.labels && role.labels[MANAGED_BY_LABEL] == MANAGED_BY_VALUE
  }

  datatype Outcome = Wrote | Quiet | Refused

  /** One role brought to what is wanted. A racer is the role that somebody else creates under
      the name between the read that misses it and the create that then fails. */
  function Applied(roles: RoleStore, want: NamedRole, racers: RoleStore): (RoleStore, Outcome) {
    if want.name !in roles then
      if want.name in racers then (roles[want.name := racers[want.name]], Quiet)
      else (roles[want.name := want.role], Wrote)
    else
      var got := roles[want.name];
      if !Managed(got) then (roles, Refused)
      else if got.rules == want.role.rules then (roles, Quiet)
      else (roles[want.name := Role(got.labels + want.role.labels, want.role.rules)], Wrote)
  }

  datatype RolePass = RolePass(roles: RoleStore, written: seq<string>, refused: bool)

  /** The roles applied in turn, up to the first that is refused. */
  function RolesPass(roles: RoleStore, wants: seq<NamedRole>, racers: RoleStore): RolePass {
    if wants == [] then RolePass(roles, [], false)
    else
      var before := RolesPass(roles, wants[..|wants| - 1], racers);
      var want := wants[|wants| - 1];
      if before.refused then before
      else
        match Applied(before.roles, want, racers)
        case (after, Wrote) => RolePass(after, before.written + [want.name], false)
        case (after, Quiet) => RolePass(after, before.written, false)
        case (after, Refused) => RolePass(after, before.written, true)
  }

  /** The bindings in one of the orders a listing may come in. */
  ghost predicate Listing(bindings: Bindings, listed: seq<Binding>) {
    forall b :: b in listed <==> exists n :: n in bindings && bindings[n] == b
  }

  ghost function Listed(bindings: Bindings): (listed: seq<Binding>)
  {
    var names := InStringOrder(bindings.Keys);
    seq(|names|, i requires 0 <= i < |names| => assert names[i] in bindings.Keys; bindings[names[i]])
  }

  /** The roles a workspace holding these bindings should have. */
  ghost function Wanted(bindings: Bindings): (wants: seq<NamedRole>)
    ensures |wants| == 2 && wants[0].name == ADMIN_ROLE_NAME && wants[1].name == VIEW_ROLE_NAME
  {
    RolesFor(InStringOrder(Served(Listed(bindings))))
  }

  // ----- Retrying claims -----

  function RetriesOf(b: Binding): int {
    Atoi(if CLAIM_RETRY_ANNOTATION in b.annotations then b.annotations[CLAIM_RETRY_ANNOTATION] else "")
  }

  /** Claims not all applied, and nobody working on them any more. */
  predicate ClaimsPending(b: Binding) {
    b.claims != 0 && b.phase == PHASE_BOUND && b.applied < b.claims
  }

  predicate WillNudge(b: Binding) { ClaimsPending(b) && RetriesOf(b) < MAX_CLAIM_RETRIES }

  function Nudged(b: Binding): Binding {
    if WillNudge(b)
    then b.(annotations := b.annotations[CLAIM_RETRY_ANNOTATION := Itoa(RetriesOf(b) + 1)])
    else b
  }

  ghost function NudgedAll(bindings: Bindings): Bindings { map n | n in bindings :: Nudged(bindings[n]) }

  // ----- One reconcile -----

  predicate HeldBy(w: Workspace, initializer: string) {
    w.initializers.Some? && initializer in w.initializers.value
  }

  datatype Verdict = Done | Waiting | Failed | Released

  /** What one reconcile leaves behind, and how it ends. */
  ghost function Initialized(w: Workspace, me: string, racers: RoleStore): (Workspace, Verdict) {
    if !HeldBy(w, me) then (w, Done)
    else if HeldBy(w, BINDINGS_INITIALIZER) then (w.(bindings := NudgedAll(w.bindings)), Waiting)
    else
      var pass := RolesPass(w.roles, Wanted(w.bindings), racers);
      if pass.refused then (w.(roles := pass.roles), Failed)
      else (w.(roles := pass.roles, initializers := Some(w.initializers.value - {me})), Released)
  }

  class Client {
    var bindings: Bindings
    var roles: RoleStore
    var initializers: Option<set<string>>

    ghost function State(): Workspace
      reads this
    {
      Workspace(bindings, roles, initializers)
    }

    method List() returns (listed: seq<Binding>)
      ensures Listing(bindings, listed)
    {
      listed := [];
      var rest := bindings.Keys;
      while rest != {}
        invariant rest <= bindings.Keys
        invariant forall b :: b in listed <==> exists n :: n in bindings.Keys - rest && bindings[n] == b
        decreases rest
      {
        var n :| n in rest;
        ghost var before := listed;
        listed := listed + [bindings[n]];
        rest := rest - {n};
        assert forall b :: b in listed <==> b in before || b == bindings[n];
      }
    }

    method ApplyRole(want: NamedRole, racers: RoleStore) returns (outcome: Outcome)
      modifies this`roles
      ensures (roles, outcome) == Applied(old(roles), want, racers)
    {
      if want.name !in roles {
        if want.name in racers {
          roles := roles[want.name := racers[want.name]];
          return Quiet;
        }
        roles := roles[want.name := want.role];
        return Wrote;
      }
      var got := roles[want.name];
      if !Managed(got) {
        return Refused;
      }
      if got.rules == want.role.rules {
        return Quiet;
      }
      roles := roles[want.name := Role(got.labels + want.role.labels, want.role.rules)];
      return Wrote;
    }

    /** The wanted roles in turn, up to the first that is refused. */
    method ApplyRoles(wants: seq<NamedRole>, racers: RoleStore) returns (written: seq<string>, refused: bool)
      modifies this`roles
      ensures RolePass(roles, written, refused) == RolesPass(old(roles), wants, racers)
    {
      written, refused := [], false;
      for i := 0 to |wants|
        invariant RolePass(roles, written, false) == RolesPass(old(roles), wants[..i], racers)
      {
        assert wants[..i + 1][..i] == wants[..i];
        var outcome := ApplyRole(wants[i], racers);
        if outcome == Refused {
          PassStops(old(roles), wants, racers, i);
          return written, true;
        }
        if outcome == Wrote {
          written := written + [wants[i].name];
        }
      }
      assert wants[..|wants|] == wants;
    }

    method ReconcileRoles(racers: RoleStore) returns (groups: seq<string>, written: seq<string>, refused: bool)
      modifies this`roles
      ensures groups == InStringOrder(Served(Listed(bindings)))
      ensures RolePass(roles, written, refused) == RolesPass(old(roles), Wanted(bindings), racers)
    {
      var listed := List();
      groups := APIGroups(listed);
      ListingServes(bindings, listed);
      written, refused := ApplyRoles(RolesFor(groups), racers);
    }

    /** Pokes each binding that has stopped short, and names those it poked. */
    method NudgeUnappliedClaims() returns (nudged: set<string>)
      modifies this`bindings
      ensures bindings == NudgedAll(old(bindings))
      ensures forall n :: n in nudged <==> n in old(bindings) && WillNudge(old(bindings)[n])
    {
      nudged := {};
      var rest := bindings.Keys;
      while rest != {}
        invariant rest <= bindings.Keys == old(bindings).Keys
        invariant forall n :: n in bindings ==>
          bindings[n] == if n in rest then old(bindings)[n] else Nudged(old(bindings)[n])
        invariant forall n :: n in nudged <==> n in bindings.Keys - rest && WillNudge(old(bindings)[n])
        decreases rest
      {
        var n :| n in rest;
        rest := rest - {n};
        var b := bindings[n];
        if ClaimsPending(b) {
          var retries := RetriesOf(b);
          if retries < MAX_CLAIM_RETRIES {
            bindings := bindings[n := b.(annotations := b.annotations[CLAIM_RETRY_ANNOTATION := Itoa(retries + 1)])];
            nudged := nudged + {n};
          }
        }
      }
    }

    /** The initializing controller's reconcile of one workspace. */
    method InitializeWorkspace(me: string, racers: RoleStore) returns (requeue: bool, failed: bool)
      modifies this
      ensures State() == Initialized(old(State()), me, racers).0
      ensures requeue <==> Initialized(old(State()), me, racers).1.Waiting?
      ensures failed <==> Initialized(old(State()), me, racers).1.Failed?
    {
      requeue, failed := false, false;
      if initializers.None? {
        return;
      }
      if me !in initializers.value {
        return;
      }
      if BINDINGS_INITIALIZER in initializers.value {
        var nudged := NudgeUnappliedClaims();
        return true, false;
      }
      var groups, written, refused := ReconcileRoles(racers);
      if refused {
        return false, true;
      }
      initializers := Some(initializers.value - {me});
    }
  }

  lemma {:induction false} ListingServes(bindings: Bindings, listed: seq<Binding>)
    requires Listing(bindings, listed)
    ensures Served(listed) == Served(Listed(bindings))
  {
    var names := InStringOrder(bindings.Keys);
    forall b ensures b in listed <==> b in Listed(bindings) {
      if b in listed {
        var n :| n in bindings && bindings[n] == b;
        var i :| 0 <= i < |names| && names[i] == n;
        assert Listed(bindings)[i] == b;
      }
      if b in Listed(bindings) {
        var i :| 0 <= i < |names| && Listed(bindings)[i] == b;
        assert names[i] in bindings;
      }
    }
    forall g ensures g in Served(listed) <==> g in Served(Listed(bindings)) {
      ServedMeaning(listed, g);
      ServedMeaning(Listed(bindings), g);
    }
  }

  lemma {:induction false} PassStops(roles: RoleStore, wants: seq<NamedRole>, racers: RoleStore, i: nat)
    requires i < |wants| && RolesPass(roles, wants[..i + 1], racers).refused
    ensures RolesPass(roles, wants, racers) == RolesPass(roles, wants[..i + 1], racers)
    decreases |wants|
  {
    if i == |wants| - 1 {
      assert wants[..i + 1] == wants;
    } else {
      var init := wants[..|wants| - 1];
      assert init[..i + 1] == wants[..i + 1];
      PassStops(roles, init, racers, i);
    }
  }

  // ----- What a reconcile guarantees about roles -----

  /** The role a reconcile is after: managed, with exactly the wanted rules. */
  predicate Right(role: Role, want: NamedRole) { Managed(role) && role.rules == want.role.rules }

  predicate RightIn(roles: RoleStore, want: NamedRole) { want.name in roles && Right(roles[want.name], want) }

  ghost predicate RolesRight(roles: RoleStore, wants: seq<NamedRole>) {
    forall want :: want in wants ==> RightIn(roles, want)
  }

  /** Whoever wins the race to create the role writes what this reconcile would have. */
  predicate HonestFor(roles: RoleStore, racers: RoleStore, want: NamedRole) {
    want.name in roles || want.name !in racers || Right(racers[want.name], want)
  }

  predicate DistinctNames(wants: seq<NamedRole>) {
    forall i, j :: 0 <= i < j < |wants| ==> wants[i].name != wants[j].name
  }

  predicate Unmanaged(roles: RoleStore, name: string) { name in roles && !Managed(roles[name]) }

  /** Applying one role: refused exactly for somebody else's, right afterwards exactly when no
      stranger won the race, silent exactly when already right, and nothing else is touched. */
  lemma {:induction false} AppliedMeaning(roles: RoleStore, want: NamedRole, racers: RoleStore)
    requires Managed(want.role)
    ensures Applied(roles, want, racers).1.Refused? <==> Unmanaged(roles, want.name)
    ensures Applied(roles, want, racers).1.Refused? ==> Applied(roles, want, racers).0 == roles
    ensures !Applied(roles, want, racers).1.Refused? ==>
              (RightIn(Applied(roles, want, racers).0, want) <==> HonestFor(roles, racers, want))
    ensures Applied(roles, want, racers) == (roles, Quiet) <==> RightIn(roles, want)
    ensures forall l :: want.name in roles && l in roles[want.name].labels && l !in want.role.labels ==>
              && l in Applied(roles, want, racers).0[want.name].labels
              && Applied(roles, want, racers).0[want.name].labels[l] == roles[want.name].labels[l]
    ensures forall n :: n != want.name ==>
              (n in Applied(roles, want, racers).0 <==> n in roles)
              && (n in roles ==> Applied(roles, want, racers).0[n] == roles[n])
  {}

  /** No pass touches a role outside the wanted names, or one that it does not manage. */
  lemma {:induction false} PassLeavesOthers(roles: RoleStore, wants: seq<NamedRole>, racers: RoleStore, n: string)
    requires forall want :: want in wants ==> Managed(want.role)
    requires Unmanaged(roles, n) || forall want :: want in wants ==> want.name != n
    ensures n in RolesPass(roles, wants, racers).roles <==> n in roles
    ensures n in roles ==> RolesPass(roles, wants, racers).roles[n] == roles[n]
    decreases |wants|
  {
    if wants != [] {
      var init, want := wants[..|wants| - 1], wants[|wants| - 1];
      assert want in wants;
      PassLeavesOthers(roles, init, racers, n);
      AppliedMeaning(RolesPass(roles, init, racers).roles, want, racers);
    }
  }

  /** A pass ends without refusal exactly when no wanted name is somebody else's. */
  lemma {:induction false} PassRefusal(roles: RoleStore, wants: seq<NamedRole>, racers: RoleStore)
    requires DistinctNames(wants) && forall want :: want in wants ==> Managed(want.role)
    ensures RolesPass(roles, wants, racers).refused <==> exists want :: want in wants && Unmanaged(roles, want.name)
    decreases |wants|
  {
    if wants != [] {
      var init, last := wants[..|wants| - 1], wants[|wants| - 1];
      assert wants == init + [last];
      assert last in wants;
      PassRefusal(roles, init, racers);
      assert forall want :: want in init ==> want.name != last.name;
      PassLeavesOthers(roles, init, racers, last.name);
      AppliedMeaning(RolesPass(roles, init, racers).roles, last, racers);
    }
  }

  lemma {:induction false} ProperPrefix(wants: seq<NamedRole>)
    requires wants != [] && DistinctNames(wants) && forall want :: want in wants ==> Managed(want.role)
    ensures DistinctNames(wants[..|wants| - 1]) && forall want :: want in wants[..|wants| - 1] ==> Managed(want.role)
    ensures Managed(wants[|wants| - 1].role)
    ensures forall i :: 0 <= i < |wants| - 1 ==> wants[i].name != wants[|wants| - 1].name
  {
    assert wants[|wants| - 1] in wants;
  }

  lemma {:induction false} LastKeeps(roles: RoleStore, wants: seq<NamedRole>, racers: RoleStore, n: string)
    requires wants != [] && Managed(wants[|wants| - 1].role) && n != wants[|wants| - 1].name
    ensures var before, after := RolesPass(roles, wants[..|wants| - 1], racers).roles,
              RolesPass(roles, wants, racers).roles;
      (n in after <==> n in before) && (n in before ==> after[n] == before[n])
  {
    AppliedMeaning(RolesPass(roles, wants[..|wants| - 1], racers).roles, wants[|wants| - 1], racers);
  }

  /** After a pass that was not refused, a wanted role is right exactly when no stranger won. */
  lemma {:induction false} PassRightens(roles: RoleStore, wants: seq<NamedRole>, racers: RoleStore, want: NamedRole)
    requires DistinctNames(wants) && forall w :: w in wants ==> Managed(w.role)
    requires !RolesPass(roles, wants, racers).refused && want in wants
    ensures RightIn(RolesPass(roles, wants, racers).roles, want) <==> HonestFor(roles, racers, want)
    decreases |wants|
  {
    var init, last := wants[..|wants| - 1], wants[|wants| - 1];
    assert wants == init + [last];
    ProperPrefix(wants);
    if want == last {
      LastRightens(roles, wants, racers);
    } else {
      PassRightens(roles, init, racers, want);
      LastKeeps(roles, wants, racers, want.name);
    }
  }

  lemma {:induction false} LastRightens(roles: RoleStore, wants: seq<NamedRole>, racers: RoleStore)
    requires wants != [] && DistinctNames(wants) && forall w :: w in wants ==> Managed(w.role)
    requires !RolesPass(roles, wants, racers).refused
    ensures var last := wants[|wants| - 1];
            RightIn(RolesPass(roles, wants, racers).roles, last) <==> HonestFor(roles, racers, last)
  {
    var init, last := wants[..|wants| - 1], wants[|wants| - 1];
    ProperPrefix(wants);
    AppliedMeaning(RolesPass(roles, init, racers).roles, last, racers);
    PassLeavesOthers(roles, init, racers, last.name);
  }

  /** A pass changes and writes nothing exactly when every wanted role is already right. */
  lemma {:induction false} PassIsSilentWhenRight(roles: RoleStore, wants: seq<NamedRole>, racers: RoleStore)
    requires forall want :: want in wants ==> Managed(want.role)
    requires RolesRight(roles, wants)
    ensures RolesPass(roles, wants, racers) == RolePass(roles, [], false)
    decreases |wants|
  {
    if wants != [] {
      var init, last := wants[..|wants| - 1], wants[|wants| - 1];
      assert wants == init + [last];
      assert last in wants;
      PassIsSilentWhenRight(roles, init, racers);
      AppliedMeaning(roles, last, racers);
    }
  }

  lemma {:induction false} WantedAreManaged(bindings: Bindings)
    ensures DistinctNames(Wanted(bindings)) && forall want :: want in Wanted(bindings) ==> Managed(want.role)
  {
    assert ADMIN_ROLE_NAME[12] != VIEW_ROLE_NAME[12];
  }

  // ----- Repeating a pass -----

  /** The i-th wanted role was reached, and not refused. */
  predicate Accepted(roles: RoleStore, wants: seq<NamedRole>, racers: RoleStore, i: nat)
    requires i < |wants|
  {
    !RolesPass(roles, wants[..i + 1], racers).refused
  }

  /** The race to create the role is lost, to a role that is managed but has other rules. */
  predicate LostToOtherRules(roles: RoleStore, want: NamedRole, racers: RoleStore) {
    want.name !in roles && want.name in racers
    && Managed(racers[want.name]) && racers[want.name].rules != want.role.rules
  }

  /** The race to create the role is lost, to a role that is not managed. */
  predicate LostToStranger(roles: RoleStore, want: NamedRole, racers: RoleStore) {
    want.name !in roles && want.name in racers && !Managed(racers[want.name])
  }

  /** A pass over these roles reaches this one and has to write it. */
  predicate MustWrite(roles: RoleStore, want: NamedRole, racers: RoleStore) {
    if want.name in roles then roles[want.name].rules != want.role.rules else want.name !in racers
  }

  predicate Reaches(roles: RoleStore, wants: seq<NamedRole>, i: nat)
    requires i < |wants|
  {
    forall j :: 0 <= j <= i ==> !Unmanaged(roles, wants[j].name)
  }

  /** A pass is not refused up to a role exactly when it reaches it. */
  lemma {:induction false} AcceptedMeaning(roles: RoleStore, wants: seq<NamedRole>, racers: RoleStore, i: nat)
    requires DistinctNames(wants) && (forall want :: want in wants ==> Managed(want.role)) && i < |wants|
    ensures Accepted(roles, wants, racers, i) <==> Reaches(roles, wants, i)
  {
    var prefix := wants[..i + 1];
    assert forall want :: want in prefix ==> want in wants;
    PassRefusal(roles, prefix, racers);
    forall j | 0 <= j <= i ensures wants[j] in prefix { assert prefix[j] == wants[j]; }
  }

  /** A pass over these roles writes the i-th. */
  predicate Writes(roles: RoleStore, wants: seq<NamedRole>, racers: RoleStore, i: nat)
    requires i < |wants|
  {
    Reaches(roles, wants, i) && MustWrite(roles, wants[i], racers)
  }

  lemma {:induction false} WritesInPrefix(roles: RoleStore, wants: seq<NamedRole>, racers: RoleStore, i: nat)
    requires i < |wants| - 1
    ensures Writes(roles, wants[..|wants| - 1], racers, i) <==> Writes(roles, wants, racers, i)
  {
    ReachesInPrefix(roles, wants, i);
  }

  lemma {:induction false} AllWritesInPrefix(roles: RoleStore, wants: seq<NamedRole>, racers: RoleStore,
      init: seq<NamedRole>)
    requires wants != [] && init == wants[..|wants| - 1]
    ensures (forall i :: 0 <= i < |wants| ==> !Writes(roles, wants, racers, i)) <==>
              (forall i :: 0 <= i < |init| ==> !Writes(roles, init, racers, i))
              && !Writes(roles, wants, racers, |wants| - 1)
  {
    forall i | 0 <= i < |init| ensures Writes(roles, init, racers, i) <==> Writes(roles, wants, racers, i) {
      WritesInPrefix(roles, wants, racers, i);
    }
  }

  /** A pass writes nothing exactly when it has to write nothing it reaches. */
  lemma {:induction false} SilenceMeaning(roles: RoleStore, wants: seq<NamedRole>, racers: RoleStore)
    requires DistinctNames(wants) && forall want :: want in wants ==> Managed(want.role)
    ensures RolesPass(roles, wants, racers).written == [] <==>
              forall i :: 0 <= i < |wants| ==> !Writes(roles, wants, racers, i)
    decreases |wants|
  {
    if wants != [] {
      var n := |wants| - 1;
      assert forall want :: want in wants[..n] ==> want in wants;
      SilenceMeaning(roles, wants[..n], racers);
      LastOfPass(roles, wants, racers);
      AllWritesInPrefix(roles, wants, racers, wants[..n]);
    }
  }

  /** The last role is written when the pass reaches it and has to. */
  lemma {:induction false} LastOfPass(roles: RoleStore, wants: seq<NamedRole>, racers: RoleStore)
    requires wants != [] && DistinctNames(wants) && forall want :: want in wants ==> Managed(want.role)
    ensures var n := |wants| - 1;
      RolesPass(roles, wants, racers).written == RolesPass(roles, wants[..n], racers).written +
        if Writes(roles, wants, racers, n) then [wants[n].name] else []
  {
    var n := |wants| - 1;
    var init, last := wants[..n], wants[n];
    assert last in wants && forall want :: want in init ==> want in wants;
    PassRefusal(roles, init, racers);
    NamesDiffer(wants);
    PassLeavesOthers(roles, init, racers, last.name);
    forall j | 0 <= j < n ensures wants[j] in init { assert init[j] == wants[j]; }
  }

  lemma {:induction false} NamesDiffer(wants: seq<NamedRole>)
    requires wants != [] && DistinctNames(wants)
    ensures forall want :: want in wants[..|wants| - 1] ==> want.name != wants[|wants| - 1].name
  {
  }

  /** What a pass that accepted the role leaves under its name. */
  ghost predicate LeftAs(roles: RoleStore, want: NamedRole, racers: RoleStore, after: RoleStore) {
    && want.name in after
    && (LostToStranger(roles, want, racers) <==> !Managed(after[want.name]))
    && (after[want.name].rules != want.role.rules ==>
            LostToStranger(roles, want, racers) || LostToOtherRules(roles, want, racers))
    && (LostToOtherRules(roles, want, racers) ==> after[want.name].rules != want.role.rules)
  }

  lemma {:induction false} LastIsLeft(roles: RoleStore, wants: seq<NamedRole>, racers: RoleStore)
    requires wants != [] && DistinctNames(wants) && (forall want :: want in wants ==> Managed(want.role))
    requires !RolesPass(roles, wants, racers).refused
    ensures LeftAs(roles, wants[|wants| - 1], racers, RolesPass(roles, wants, racers).roles)
  {
    var init, last := wants[..|wants| - 1], wants[|wants| - 1];
    assert last in wants && forall want :: want in init ==> want in wants;
    NamesDiffer(wants);
    PassLeavesOthers(roles, init, racers, last.name);
  }

  lemma {:induction false} StaysLeft(roles: RoleStore, wants: seq<NamedRole>, racers: RoleStore, want: NamedRole)
    requires wants != [] && Managed(wants[|wants| - 1].role) && want.name != wants[|wants| - 1].name
    requires LeftAs(roles, want, racers, RolesPass(roles, wants[..|wants| - 1], racers).roles)
    ensures LeftAs(roles, want, racers, RolesPass(roles, wants, racers).roles)
  {
    LastKeeps(roles, wants, racers, want.name);
  }

  lemma {:induction false} AcceptedInPrefix(roles: RoleStore, wants: seq<NamedRole>, racers: RoleStore, i: nat)
    requires i < |wants| - 1
    ensures Accepted(roles, wants[..|wants| - 1], racers, i) <==> Accepted(roles, wants, racers, i)
    ensures wants[..|wants| - 1][i] == wants[i]
  {
    assert wants[..|wants| - 1][..i + 1] == wants[..i + 1];
  }

  lemma {:induction false} AcceptedRole(roles: RoleStore, wants: seq<NamedRole>, racers: RoleStore, i: nat)
    requires DistinctNames(wants) && (forall want :: want in wants ==> Managed(want.role))
    requires i < |wants| && Accepted(roles, wants, racers, i)
    ensures LeftAs(roles, wants[i], racers, RolesPass(roles, wants, racers).roles)
    decreases |wants|
  {
    if i < |wants| - 1 {
      ProperPrefix(wants);
      AcceptedInPrefix(roles, wants, racers, i);
      AcceptedRole(roles, wants[..|wants| - 1], racers, i);
      StaysLeft(roles, wants, racers, wants[i]);
    } else {
      assert wants[..i + 1] == wants;
      LastIsLeft(roles, wants, racers);
    }
  }

  /** What a pass leaves under the names it did not accept, from the one it refused on. */
  lemma {:induction false} RefusedRole(roles: RoleStore, wants: seq<NamedRole>, racers: RoleStore, i: nat)
    requires DistinctNames(wants) && (forall want :: want in wants ==> Managed(want.role))
    requires i < |wants| && !Accepted(roles, wants, racers, i)
    ensures exists j :: 0 <= j <= i && Unmanaged(RolesPass(roles, wants, racers).roles, wants[j].name)
  {
    AcceptedMeaning(roles, wants, racers, i);
    var j :| 0 <= j <= i && Unmanaged(roles, wants[j].name);
    PassLeavesOthers(roles, wants, racers, wants[j].name);
  }

  /** A repeat gets as far as the first pass did, short of a role lost to a stranger. */
  lemma {:induction false} RepeatReaches(roles: RoleStore, wants: seq<NamedRole>, racers: RoleStore, i: nat)
    requires DistinctNames(wants) && (forall want :: want in wants ==> Managed(want.role)) && i < |wants|
    ensures Reaches(RolesPass(roles, wants, racers).roles, wants, i) <==>
              && Reaches(roles, wants, i)
              && forall j :: 0 <= j <= i ==> !LostToStranger(roles, wants[j], racers)
  {
    AcceptedMeaning(roles, wants, racers, i);
    if Reaches(roles, wants, i) {
      forall j | 0 <= j <= i
        ensures Unmanaged(RolesPass(roles, wants, racers).roles, wants[j].name) <==>
                  LostToStranger(roles, wants[j], racers)
      {
        AcceptedMeaning(roles, wants, racers, j);
        AcceptedRole(roles, wants, racers, j);
      }
    } else {
      RefusedRole(roles, wants, racers, i);
    }
  }

  /** An earlier role was accepted from a stranger. */
  predicate StrangerBefore(roles: RoleStore, wants: seq<NamedRole>, racers: RoleStore, i: nat)
    requires i < |wants|
  {
    exists j :: 0 <= j < i && LostToStranger(roles, wants[j], racers)
  }

  lemma {:induction false} RepeatWritesOne(roles: RoleStore, wants: seq<NamedRole>, racers: RoleStore,
      later: RoleStore, i: nat)
    requires DistinctNames(wants) && (forall want :: want in wants ==> Managed(want.role)) && i < |wants|
    ensures Writes(RolesPass(roles, wants, racers).roles, wants, later, i) <==>
              && Reaches(roles, wants, i) && LostToOtherRules(roles, wants[i], racers)
              && !StrangerBefore(roles, wants, racers, i)
  {
    RepeatReaches(roles, wants, racers, i);
    AcceptedMeaning(roles, wants, racers, i);
    if Reaches(roles, wants, i) { AcceptedRole(roles, wants, racers, i); }
  }

  /** Repeating a pass, refused or not and whoever races it, writes nothing exactly when every
      role that a peer with other rules took, with only free or managed roles before it, comes
      after one that a stranger took. */
  lemma {:induction false} RepeatingWrites(roles: RoleStore, wants: seq<NamedRole>, racers: RoleStore, later: RoleStore)
    requires DistinctNames(wants) && forall want :: want in wants ==> Managed(want.role)
    ensures RolesPass(RolesPass(roles, wants, racers).roles, wants, later).written == [] <==>
              forall i :: 0 <= i < |wants| && Reaches(roles, wants, i) && LostToOtherRules(roles, wants[i], racers) ==>
                StrangerBefore(roles, wants, racers, i)
  {
    SilenceMeaning(RolesPass(roles, wants, racers).roles, wants, later);
    forall i | 0 <= i < |wants|
      ensures Writes(RolesPass(roles, wants, racers).roles, wants, later, i) <==>
                && Reaches(roles, wants, i) && LostToOtherRules(roles, wants[i], racers)
                && !StrangerBefore(roles, wants, racers, i)
    {
      RepeatWritesOne(roles, wants, racers, later, i);
    }
  }

  /** And then it changes nothing either: it is refused where the first was, or by a stranger that
      the first took for a peer. */
  lemma {:induction false} SilentRepeat(roles: RoleStore, wants: seq<NamedRole>, racers: RoleStore, later: RoleStore)
    requires DistinctNames(wants) && forall want :: want in wants ==> Managed(want.role)
    requires RolesPass(RolesPass(roles, wants, racers).roles, wants, later).written == []
    ensures RolesPass(RolesPass(roles, wants, racers).roles, wants, later).roles ==
              RolesPass(roles, wants, racers).roles
    ensures RolesPass(RolesPass(roles, wants, racers).roles, wants, later).refused <==>
              || RolesPass(roles, wants, racers).refused
              || exists i :: 0 <= i < |wants| && LostToStranger(roles, wants[i], racers)
  {
    var after := RolesPass(roles, wants, racers).roles;
    forall i | 0 <= i < |wants| && Reaches(after, wants, i) ensures wants[i].name in after {
      RepeatReaches(roles, wants, racers, i);
      AcceptedMeaning(roles, wants, racers, i);
      AcceptedRole(roles, wants, racers, i);
    }
    SilentPassKeeps(after, wants, later);
    PassRefusal(after, wants, later);
    if wants != [] {
      var n := |wants| - 1;
      assert wants[..n + 1] == wants;
      RepeatReaches(roles, wants, racers, n);
      AcceptedMeaning(roles, wants, racers, n);
      ReachesAll(after, wants);
    }
  }

  lemma {:induction false} ReachesAll(roles: RoleStore, wants: seq<NamedRole>)
    requires wants != []
    ensures Reaches(roles, wants, |wants| - 1) <==> !(exists want :: want in wants && Unmanaged(roles, want.name))
  {
    assert forall j :: 0 <= j < |wants| ==> wants[j] in wants;
  }

  lemma {:induction false} SilentPassKeeps(roles: RoleStore, wants: seq<NamedRole>, racers: RoleStore)
    requires DistinctNames(wants) && forall want :: want in wants ==> Managed(want.role)
    requires RolesPass(roles, wants, racers).written == []
    requires forall i :: 0 <= i < |wants| && Reaches(roles, wants, i) ==> wants[i].name in roles
    ensures RolesPass(roles, wants, racers).roles == roles
    decreases |wants|
  {
    if wants != [] {
      var init := wants[..|wants| - 1];
      assert forall want :: want in init ==> want in wants;
      LastOfPass(roles, wants, racers);
      forall i | 0 <= i < |init| && Reaches(roles, init, i) ensures init[i].name in roles {
        ReachesInPrefix(roles, wants, i);
      }
      SilentPassKeeps(roles, init, racers);
      SilentLast(roles, wants, racers);
    }
  }

  lemma {:induction false} SilentLast(roles: RoleStore, wants: seq<NamedRole>, racers: RoleStore)
    requires wants != [] && DistinctNames(wants) && forall want :: want in wants ==> Managed(want.role)
    requires RolesPass(roles, wants[..|wants| - 1], racers).roles == roles && !Writes(roles, wants, racers, |wants| - 1)
    requires Reaches(roles, wants, |wants| - 1) ==> wants[|wants| - 1].name in roles
    ensures RolesPass(roles, wants, racers).roles == roles
  {
    var n := |wants| - 1;
    AcceptedMeaning(roles, wants, racers, n);
    assert wants[..n + 1] == wants;
    QuietKeeps(roles, wants[n], racers);
  }

  lemma {:induction false} ReachesInPrefix(roles: RoleStore, wants: seq<NamedRole>, i: nat)
    requires i < |wants| - 1
    ensures Reaches(roles, wants[..|wants| - 1], i) <==> Reaches(roles, wants, i)
  {
    assert forall j :: 0 <= j <= i ==> wants[..|wants| - 1][j] == wants[j];
  }

  lemma {:induction false} QuietKeeps(roles: RoleStore, want: NamedRole, racers: RoleStore)
    ensures Unmanaged(roles, want.name) ==> Applied(roles, want, racers) == (roles, Refused)
    ensures want.name in roles && Managed(roles[want.name]) && !MustWrite(roles, want, racers) ==>
              Applied(roles, want, racers) == (roles, Quiet)
  {
  }

  /** Repeating ReconcileRoles, for the roles a workspace should have: it writes exactly when a
      peer with other rules took the first, or took the second while the first was free or managed
      and went to no stranger. */
  lemma {:induction false} RepeatingWritesNothing(roles: RoleStore, bindings: Bindings, racers: RoleStore,
      later: RoleStore)
    ensures var wants := Wanted(bindings);
      RolesPass(RolesPass(roles, wants, racers).roles, wants, later).written == [] <==>
        && !LostToOtherRules(roles, wants[0], racers)
        && !(LostToOtherRules(roles, wants[1], racers)
             && !Unmanaged(roles, wants[0].name) && !LostToStranger(roles, wants[0], racers))
  {
    var wants := Wanted(bindings);
    WantedAreManaged(bindings);
    RepeatingWrites(roles, wants, racers, later);
    if LostToOtherRules(roles, wants[1], racers) {
      assert Reaches(roles, wants, 1) <==> !Unmanaged(roles, wants[0].name);
      assert StrangerBefore(roles, wants, racers, 1) <==> LostToStranger(roles, wants[0], racers);
    }
  }

  /** A peer of another release wins the race: the repeat puts its role right. */
  lemma {:induction false} PeersOtherRulesAreRewritten(bindings: Bindings)
    ensures
      var wants := Wanted(bindings);
      var racers := map[ADMIN_ROLE_NAME := Role(map[MANAGED_BY_LABEL := MANAGED_BY_VALUE], [])];
      RolesPass(RolesPass(map[], wants, racers).roles, wants, map[]).written != []
  {
    var wants := Wanted(bindings);
    var racers := map[ADMIN_ROLE_NAME := Role(map[MANAGED_BY_LABEL := MANAGED_BY_VALUE], [])];
    WantedAreManaged(bindings);
    RepeatingWritesNothing(map[], bindings, racers, map[]);
    assert wants[0].role.rules != [];
  }

  // ----- What a reconcile guarantees about release -----

  /** A reconcile releases exactly a workspace it holds, that kcp has finished binding, and
      whose two role names are free or ours. */
  lemma {:induction false} ReleaseMeaning(w: Workspace, me: string, racers: RoleStore)
    ensures Initialized(w, me, racers).1.Released? <==>
              && HeldBy(w, me) && !HeldBy(w, BINDINGS_INITIALIZER)
              && !Unmanaged(w.roles, ADMIN_ROLE_NAME) && !Unmanaged(w.roles, VIEW_ROLE_NAME)
    ensures HeldBy(Initialized(w, me, racers).0, me) <==> HeldBy(w, me) && !Initialized(w, me, racers).1.Released?
  {
    var wants := Wanted(w.bindings);
    WantedAreManaged(w.bindings);
    PassRefusal(w.roles, wants, racers);
    assert wants == [wants[0], wants[1]];
    assert wants[0] in wants && wants[1] in wants;
  }

  /** How a reconcile ends, and whose hold on the workspace it gives up: its own, on release, and
      nobody else's ever. Roles change only past the wait for kcp, bindings only during it. */
  lemma {:induction false} ReconcileMeaning(w: Workspace, me: string, racers: RoleStore)
    ensures var (after, verdict) := Initialized(w, me, racers);
      && (verdict.Done? <==> !HeldBy(w, me))
      && (verdict.Waiting? <==> HeldBy(w, me) && HeldBy(w, "system:apibindings"))
      && (verdict.Failed? <==>
            && HeldBy(w, me) && !HeldBy(w, "system:apibindings")
            && (Unmanaged(w.roles, "cluster-api-admin") || Unmanaged(w.roles, "cluster-api-view")))
      && (after.initializers.Some? <==> w.initializers.Some?)
      && (HeldBy(after, me) <==> HeldBy(w, me) && !verdict.Released?)
      && (forall i :: i != me ==> (HeldBy(after, i) <==> HeldBy(w, i)))
      && (verdict.Done? || verdict.Waiting? ==> after.roles == w.roles)
      && (!verdict.Waiting? ==> after.bindings == w.bindings)
  {
    ReleaseMeaning(w, me, racers);
  }

  /** Past the wait, refused or not, the roles are those a pass leaves. */
  lemma {:induction false} RolesAfterReconcile(w: Workspace, me: string, racers: RoleStore)
    requires Initialized(w, me, racers).1.Failed? || Initialized(w, me, racers).1.Released?
    ensures Initialized(w, me, racers).0.roles == RolesPass(w.roles, Wanted(w.bindings), racers).roles
  {
  }

  /** Which bindings a reconcile writes: while it waits for kcp, those that are bound with claims
      left to apply and that have not been retried twelve times. */
  lemma {:induction false} NudgedExactlyWhen(w: Workspace, me: string, racers: RoleStore, n: string)
    requires n in w.bindings
    ensures var b, after := w.bindings[n], Initialized(w, me, racers).0.bindings;
      && after.Keys == w.bindings.Keys
      && (after[n] != b <==>
            && HeldBy(w, me) && HeldBy(w, "system:apibindings")
            && b.phase == "Bound" && b.applied < b.claims && RetriesOf(b) < 12)
  {
    NudgeCounts(w.bindings[n]);
  }

  /** The workspace is released with both roles right exactly when no stranger created one of
      them in the moment between this reconcile's read and its create. */
  lemma {:induction false} ReleasedRolesAreRight(w: Workspace, me: string, racers: RoleStore)
    requires Initialized(w, me, racers).1.Released?
    ensures RolesRight(Initialized(w, me, racers).0.roles, Wanted(w.bindings)) <==>
              forall want :: want in Wanted(w.bindings) ==> HonestFor(w.roles, racers, want)
    ensures Initialized(w, me, racers).0.bindings == w.bindings
  {
    var wants := Wanted(w.bindings);
    WantedAreManaged(w.bindings);
    forall want | want in wants
      ensures RightIn(Initialized(w, me, racers).0.roles, want) <==> HonestFor(w.roles, racers, want)
    {
      PassRightens(w.roles, wants, racers, want);
    }
  }

  /** Some binding of the workspace serves the Cluster API group. */
  predicate Serves(bindings: Bindings, group: string) {
    IsClusterApi(group) && exists n :: n in bindings && group in bindings[n].bound
  }

  lemma {:induction false} ServedIsServes(bindings: Bindings, group: string)
    ensures group in Served(Listed(bindings)) <==> Serves(bindings, group)
  {
    var names := InStringOrder(bindings.Keys);
    ServedMeaning(Listed(bindings), group);
    if n :| n in bindings && group in bindings[n].bound {
      var i :| 0 <= i < |names| && names[i] == n;
      assert Listed(bindings)[i] == bindings[n];
    }
    if b :| b in Listed(bindings) && group in b.bound {
      var i :| 0 <= i < |names| && Listed(bindings)[i] == b;
      assert names[i] in bindings.Keys;
    }
  }

  /** What the admin role should grant in a workspace with these bindings. */
  ghost predicate AdminMay(bindings: Bindings, group: string, resource: string, verb: string) {
    || BaseAdmin(group, resource, verb)
    || (Serves(bindings, group) && verb in ["get", "list", "watch"])
    || ((exists g :: Serves(bindings, g)) && group == "cluster.x-k8s.io" && resource == "clusters"
        && verb in ["create", "update", "patch", "delete"])
  }

  /** And the view role. */
  predicate ViewMay(bindings: Bindings, group: string, resource: string, verb: string) {
    BaseView(group, resource, verb) || (Serves(bindings, group) && verb in ["get", "list", "watch"])
  }

  lemma {:induction false} WantedRolesGrant(bindings: Bindings, group: string, resource: string, verb: string)
    ensures Grants(Wanted(bindings)[0].role.rules, group, resource, verb) <==> AdminMay(bindings, group, resource, verb)
    ensures Grants(Wanted(bindings)[1].role.rules, group, resource, verb) <==> ViewMay(bindings, group, resource, verb)
  {
    var served := Served(Listed(bindings));
    WantedRules(bindings);
    AdminMeaning(Listed(bindings), group, resource, verb);
    ViewMeaning(Listed(bindings), group, resource, verb);
    ServedIsServes(bindings, group);
    if g :| g in served { ServedIsServes(bindings, g); }
    if g :| Serves(bindings, g) { ServedIsServes(bindings, g); }
  }

  /** A workspace released with no stranger in the way has both roles under their names, managed, and
      granting exactly what its bindings call for. */
  lemma {:induction false} ReleasedRolesGrant(w: Workspace, me: string, racers: RoleStore, group: string,
      resource: string, verb: string)
    requires Initialized(w, me, racers).1.Released?
    requires forall want :: want in Wanted(w.bindings) ==> HonestFor(w.roles, racers, want)
    ensures var roles := Initialized(w, me, racers).0.roles;
      && "cluster-api-admin" in roles && "cluster-api-view" in roles
      && (forall name :: name in ["cluster-api-admin", "cluster-api-view"] ==>
            && "cluster.x-k8s.io/managed-by" in roles[name].labels
            && roles[name].labels["cluster.x-k8s.io/managed-by"] == "cluster-api-workspace")
      && (Grants(roles["cluster-api-admin"].rules, group, resource, verb) <==>
            AdminMay(w.bindings, group, resource, verb))
      && (Grants(roles["cluster-api-view"].rules, group, resource, verb) <==>
            ViewMay(w.bindings, group, resource, verb))
  {
    var wants, roles := Wanted(w.bindings), Initialized(w, me, racers).0.roles;
    ReleasedRolesAreRight(w, me, racers);
    assert wants[0] in wants && wants[1] in wants;
    assert RightIn(roles, wants[0]) && RightIn(roles, wants[1]);
    WantedRolesGrant(w.bindings, group, resource, verb);
  }

  lemma {:induction false} WantedRules(bindings: Bindings)
    ensures Wanted(bindings)[0].role.rules == Admin(Listed(bindings))
    ensures Wanted(bindings)[1].role.rules == View(Listed(bindings))
  {
  }

  /** The race the code takes for a friendly one: a stranger's role under the name, and the
      workspace is released without its admin role. */
  lemma {:induction false} StrangerIsTakenForAPeer(me: string)
    requires me != BINDINGS_INITIALIZER
    ensures
      var w := Workspace(map[], map[], Some({me}));
      var racers := map[ADMIN_ROLE_NAME := Role(map[], [])];
      Initialized(w, me, racers).1.Released? && !RolesRight(Initialized(w, me, racers).0.roles, Wanted(w.bindings))
  {
    var w := Workspace(map[], map[], Some({me}));
    var racers := map[ADMIN_ROLE_NAME := Role(map[], [])];
    ReleaseMeaning(w, me, racers);
    ReleasedRolesAreRight(w, me, racers);
    assert !HonestFor(w.roles, racers, Wanted(w.bindings)[0]);
  }

  // ----- Runs -----

  /** What may happen to a workspace: one reconcile of this controller, or anything at all that
      kcp and the tenants do short of touching this controller's initializer. */
  datatype Step = Reconcile(racers: RoleStore) | Environment

  ghost predicate Next(me: string, w: Workspace, step: Step, after: Workspace) {
    match step
    case Reconcile(racers) => after == Initialized(w, me, racers).0
    case Environment => HeldBy(after, me) <==> HeldBy(w, me)
  }

  ghost predicate Run(me: string, states: seq<Workspace>, steps: seq<Step>) {
    && |states| == |steps| + 1
    && forall i :: 0 <= i < |steps| ==> Next(me, states[i], steps[i], states[i + 1])
  }

  /** A reconcile that saw kcp's own initializer gone and left both roles right. */
  ghost predicate ReleasedRightly(me: string, w: Workspace, step: Step, after: Workspace) {
    && step.Reconcile? && Initialized(w, me, step.racers) == (after, Released)
    && HeldBy(w, me) && !HeldBy(w, BINDINGS_INITIALIZER) && !HeldBy(after, me)
    && RolesRight(after.roles, Wanted(after.bindings))
  }

  ghost predicate HonestStep(w: Workspace, step: Step) {
    step.Reconcile? ==> forall want :: want in Wanted(w.bindings) ==> HonestFor(w.roles, step.racers, want)
  }

  /** In every run, a workspace that stops being held was released rightly. */
  lemma {:induction false} OnlyReleasedRightly(me: string, states: seq<Workspace>, steps: seq<Step>)
    requires Run(me, states, steps) && HeldBy(states[0], me) && !HeldBy(states[|steps|], me)
    requires forall i :: 0 <= i < |steps| ==> HonestStep(states[i], steps[i])
    ensures exists i :: 0 <= i < |steps| && ReleasedRightly(me, states[i], steps[i], states[i + 1])
    decreases |steps|
  {
    var n := |steps| - 1;
    assert n >= 0;
    assert Next(me, states[n], steps[n], states[n + 1]) && HonestStep(states[n], steps[n]);
    if HeldBy(states[n], me) {
      ReleaseMeaning(states[n], me, steps[n].racers);
      ReleasedRolesAreRight(states[n], me, steps[n].racers);
      assert ReleasedRightly(me, states[n], steps[n], states[n + 1]);
    } else {
      OnlyReleasedRightly(me, states[..|steps|], steps[..n]);
      var i :| 0 <= i < n && ReleasedRightly(me, states[..|steps|][i], steps[..n][i], states[..|steps|][i + 1]);
      assert ReleasedRightly(me, states[i], steps[i], states[i + 1]);
    }
  }

  /** Over any run, an initializer that is not this controller's goes only when kcp or its owner
      takes it away. */
  lemma {:induction false} OthersKeepHolding(me: string, states: seq<Workspace>, steps: seq<Step>, other: string,
      k: nat)
    requires Run(me, states, steps) && other != me && k <= |steps| && HeldBy(states[0], other)
    requires forall i :: 0 <= i < k && steps[i].Environment? && HeldBy(states[i], other) ==>
               HeldBy(states[i + 1], other)
    ensures HeldBy(states[k], other)
  {
    if k > 0 {
      OthersKeepHolding(me, states, steps, other, k - 1);
      assert Next(me, states[k - 1], steps[k - 1], states[k - 1 + 1]);
      if steps[k - 1].Reconcile? { ReconcileMeaning(states[k - 1], me, steps[k - 1].racers); }
    }
  }

  /** Nobody's reconcile changes the stranger's role found under one of the names. */
  ghost predicate LeavesRole(w: Workspace, step: Step, after: Workspace, name: string) {
    step.Reconcile? ==> name in w.roles && name in after.roles && after.roles[name] == w.roles[name]
  }

  lemma {:induction false} StrangersRoleStep(me: string, w: Workspace, step: Step, after: Workspace, name: string)
    requires Next(me, w, step, after) && HeldBy(w, me)
    requires name in [ADMIN_ROLE_NAME, VIEW_ROLE_NAME] && Unmanaged(w.roles, name)
    requires step.Environment? ==> Unmanaged(after.roles, name)
    ensures HeldBy(after, me) && Unmanaged(after.roles, name) && LeavesRole(w, step, after, name)
  {
    if step.Reconcile? {
      ReleaseMeaning(w, me, step.racers);
      WantedAreManaged(w.bindings);
      PassLeavesOthers(w.roles, Wanted(w.bindings), step.racers, name);
    }
  }

  lemma {:induction false} StrangersRoleStays(me: string, states: seq<Workspace>, steps: seq<Step>,
      name: string, k: nat)
    requires Run(me, states, steps) && HeldBy(states[0], me) && k <= |steps|
    requires name in [ADMIN_ROLE_NAME, VIEW_ROLE_NAME] && Unmanaged(states[0].roles, name)
    requires forall i :: 0 <= i < |steps| && steps[i].Environment? ==> Unmanaged(states[i + 1].roles, name)
    ensures HeldBy(states[k], me) && Unmanaged(states[k].roles, name)
  {
    if k > 0 {
      StrangersRoleStays(me, states, steps, name, k - 1);
      assert Next(me, states[k - 1], steps[k - 1], states[k - 1 + 1]);
      StrangersRoleStep(me, states[k - 1], steps[k - 1], states[k], name);
    }
  }

  /** While somebody else's role sits under one of the names, the workspace is never released,
      and no reconcile changes that role. */
  lemma {:induction false} StrangersRoleBlocks(me: string, states: seq<Workspace>, steps: seq<Step>,
      name: string, k: nat)
    requires Run(me, states, steps) && HeldBy(states[0], me) && k <= |steps|
    requires name in [ADMIN_ROLE_NAME, VIEW_ROLE_NAME] && Unmanaged(states[0].roles, name)
    requires forall i :: 0 <= i < |steps| && steps[i].Environment? ==> Unmanaged(states[i + 1].roles, name)
    ensures HeldBy(states[k], me)
    ensures k < |steps| ==> LeavesRole(states[k], steps[k], states[k + 1], name)
  {
    StrangersRoleStays(me, states, steps, name, k);
    if k < |steps| {
      assert Next(me, states[k], steps[k], states[k + 1]);
      StrangersRoleStep(me, states[k], steps[k], states[k + 1], name);
    }
  }

  // ----- Retries -----

  /** A nudge is counted: the counter it writes reads back one higher. */
  lemma {:induction false} NudgeCounts(b: Binding)
    ensures RetriesOf(Nudged(b)) == RetriesOf(b) + if WillNudge(b) then 1 else 0
    ensures Nudged(b) == b.(annotations := Nudged(b).annotations)
    ensures forall a :: a != CLAIM_RETRY_ANNOTATION ==>
              (a in Nudged(b).annotations <==> a in b.annotations)
              && (a in b.annotations ==> Nudged(b).annotations[a] == b.annotations[a])
  {
    if WillNudge(b) {
      var s := if CLAIM_RETRY_ANNOTATION in b.annotations then b.annotations[CLAIM_RETRY_ANNOTATION] else "";
      AtoiIsBounded(s);
      AtoiReadsItoa(RetriesOf(b) + 1);
    }
  }

  /** Whether this step of a run nudges the binding named n. */
  predicate Nudges(me: string, w: Workspace, step: Step, n: string) {
    && step.Reconcile? && HeldBy(w, me) && HeldBy(w, BINDINGS_INITIALIZER)
    && n in w.bindings && WillNudge(w.bindings[n])
  }

  function NudgeCount(me: string, states: seq<Workspace>, steps: seq<Step>, n: string): nat
    requires |states| == |steps| + 1
    decreases |steps|
  {
    if steps == [] then 0
    else
      var i := |steps| - 1;
      NudgeCount(me, states[..|steps|], steps[..i], n) + if Nudges(me, states[i], steps[i], n) then 1 else 0
  }

  /** The environment keeps the binding, and leaves this controller's annotation on it alone. */
  predicate KeepsCounter(before: Workspace, step: Step, after: Workspace, n: string) {
    step.Environment? ==>
      (n in before.bindings && n in after.bindings && RetriesOf(before.bindings[n]) == RetriesOf(after.bindings[n]))
  }

  lemma {:induction false} NudgeStep(me: string, w: Workspace, step: Step, after: Workspace, n: string)
    requires Next(me, w, step, after) && KeepsCounter(w, step, after, n) && n in w.bindings
    ensures n in after.bindings
    ensures RetriesOf(after.bindings[n]) == RetriesOf(w.bindings[n]) + if Nudges(me, w, step, n) then 1 else 0
    ensures Nudges(me, w, step, n) ==> RetriesOf(w.bindings[n]) < MAX_CLAIM_RETRIES
  {
    if step.Reconcile? { NudgeCounts(w.bindings[n]); }
  }

  /** Over any run, whatever else kcp and the tenants do: the counter counts the nudges, and
      there are never more of them than were left at the start. */
  lemma {:induction false} NudgesAreBounded(me: string, states: seq<Workspace>, steps: seq<Step>, n: string)
    requires Run(me, states, steps) && n in states[0].bindings
    requires forall i :: 0 <= i < |steps| ==> KeepsCounter(states[i], steps[i], states[i + 1], n)
    ensures n in states[|steps|].bindings
    ensures RetriesOf(states[|steps|].bindings[n]) ==
              RetriesOf(states[0].bindings[n]) + NudgeCount(me, states, steps, n)
    ensures NudgeCount(me, states, steps, n) > 0 ==>
              NudgeCount(me, states, steps, n) <= MAX_CLAIM_RETRIES - RetriesOf(states[0].bindings[n])
    decreases |steps|
  {
    if steps != [] {
      var i := |steps| - 1;
      NudgesAreBounded(me, states[..|steps|], steps[..i], n);
      assert states[..|steps|][i] == states[i];
      NudgeStep(me, states[i], steps[i], states[i + 1], n);
    }
  }

  /** A binding never nudged before is nudged at most twelve times. */
  lemma {:induction false} AtMostTwelveNudges(me: string, states: seq<Workspace>, steps: seq<Step>, n: string)
    requires Run(me, states, steps) && n in states[0].bindings
    requires "cluster-api.kcp.io/permission-claim-retry" !in states[0].bindings[n].annotations
    requires forall i :: 0 <= i < |steps| ==> KeepsCounter(states[i], steps[i], states[i + 1], n)
    ensures NudgeCount(me, states, steps, n) <= 12
  {
    NudgesAreBounded(me, states, steps, n);
  }
}
