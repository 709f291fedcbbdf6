/** Where a demo run's workspaces go and who can reach them: `internal/demo/users.go` and the
    contexts of `internal/demo/kubeconfig.go`. */
module Planning {
  import opened Decimal
  import opened Options
  import opened Ordering

  const OWNER_EVERYONE := "everyone"
  const OWNER_NOBODY := "nobody"
  const OPERATOR_KUBECONFIG_NAME := "workspaces"
  const MAX_LABEL_LENGTH := 63

  // ----- Paths -----

  /** A workspace path extended by one name, as kcp's `Path.Join` does it. */
  function Join(path: string, name: string): string { if path == "" then name else path + ":" + name }

  function OrgPath(parent: string, prefix: string): string { Join(parent, prefix) }
  function HomePath(parent: string, prefix: string, user: string): string { Join(OrgPath(parent, prefix), user) }

  /** path is home, or inside it at any depth. */
  predicate AtOrBelow(path: string, home: string) {
    path == home || (|home| < |path| && path[..|home|] == home && path[|home|] == ':')
  }

  lemma {:induction false} NoColonBefore(a: string, x: string, k: nat)
    requires ':' !in a && k < |a + ":" + x| && (a + ":" + x)[k] == ':'
    ensures k >= |a|
  {}

  lemma {:induction false} CutIsUnique(a: string, x: string, b: string, y: string)
    requires ':' !in a && ':' !in b && a + ":" + x == b + ":" + y
    ensures a == b && x == y
  {
    var s := a + ":" + x;
    assert s[|a|] == ':' && s[|b|] == ':';
    NoColonBefore(a, x, |b|);
    NoColonBefore(b, y, |a|);
    assert a == s[..|a|] && b == s[..|b|];
    assert x == s[|a| + 1..] && y == s[|b| + 1..];
  }

  lemma {:induction false} CancelPrefix(p: string, a: string, b: string)
    requires p + a == p + b
    ensures a == b
  {
    assert a == (p + a)[|p|..] && b == (p + b)[|p|..];
  }

  // ----- Users -----

  predicate IsAlphanumeric(c: char) { 'a' <= c <= 'z' || '0' <= c <= '9' }

  /** A label in the sense of section 2.1 of RFC 1123, in lower case. */
  predicate IsLabel(s: string) {
    && 1 <= |s| <= MAX_LABEL_LENGTH
    && IsAlphanumeric(s[0]) && IsAlphanumeric(s[|s| - 1])
    && forall i :: 0 <= i < |s| ==> IsAlphanumeric(s[i]) || s[i] == '-'
  }

  /** In other words: lower-case letters, digits and hyphens, no hyphen at either end. */
  lemma {:induction false} LabelMeaning(s: string)
    ensures IsLabel(s) <==>
              && 1 <= |s| <= 63 && s[0] != '-' && s[|s| - 1] != '-'
              && forall i :: 0 <= i < |s| ==> 'a' <= s[i] <= 'z' || '0' <= s[i] <= '9' || s[i] == '-'
  {
  }

  datatype Fault = EmptyName | NotALabel | ReservedName | SharedHome

  /** What is wrong with a user, given those before. */
  function FaultOf(user: string, before: seq<string>): Option<Fault> {
    if user == "" then Some(EmptyName)
    else if !IsLabel(user) then Some(NotALabel)
    else if user in [OWNER_EVERYONE, OWNER_NOBODY] then Some(ReservedName)
    else if user in before then Some(SharedHome)
    else None
  }

  predicate ValidUsers(users: seq<string>) {
    forall i :: 0 <= i < |users| ==> FaultOf(users[i], users[..i]).None?
  }

  /** The first user that cannot have a home of their own, or nobody. */
  method ValidateUsers(users: seq<string>) returns (r: Option<Fault>)
    ensures r.None? <==> ValidUsers(users)
    ensures r.Some? ==>
      exists i :: 0 <= i < |users| && r == FaultOf(users[i], users[..i]) && ValidUsers(users[..i])
  {
    var seen: set<string> := {};
    for i := 0 to |users|
      invariant forall u :: u in seen <==> u in users[..i]
      invariant ValidUsers(users[..i])
    {
      var user := users[i];
      assert forall k :: 0 <= k < i ==> users[..i][..k] == users[..k];
      assert forall k :: 0 <= k < i + 1 ==> users[..i + 1][..k] == users[..k];
      if user == "" {
        return Some(EmptyName);
      }
      if !IsLabel(user) {
        return Some(NotALabel);
      }
      if user == OWNER_EVERYONE || user == OWNER_NOBODY {
        return Some(ReservedName);
      }
      if user in seen {
        return Some(SharedHome);
      }
      seen := seen + {user};
    }
    assert users[..|users|] == users;
    return None;
  }

  /** Valid users are exactly distinct labels that do not spell an owner that is no user. */
  lemma {:induction false} ValidMeaning(users: seq<string>)
    ensures ValidUsers(users) <==>
              AllDistinct(users) && forall u :: u in users ==> IsLabel(u) && u != "everyone" && u != "nobody"
  {
    if ValidUsers(users) {
      forall i, j | 0 <= i < j < |users| ensures users[i] != users[j] {
        assert FaultOf(users[j], users[..j]).None?;
        assert users[..j][i] == users[i];
      }
    }
    if AllDistinct(users) && forall u :: u in users ==> IsLabel(u) && u != "everyone" && u != "nobody" {
      forall i | 0 <= i < |users| ensures FaultOf(users[i], users[..i]).None? {
        assert users[i] in users;
      }
    }
  }

  // ----- Plans -----

  datatype WorkspacePlan = WorkspacePlan(name: string, parent: string, path: string, owner: string)

  function NameOf(prefix: string, k: nat): string { prefix + "-" + Itoa(k) }

  /** The i-th workspace planned. */
  function PlanAt(parent: string, prefix: string, users: seq<string>, i: nat): WorkspacePlan {
    if users == [] then
      WorkspacePlan(NameOf(prefix, i + 1), parent, Join(parent, NameOf(prefix, i + 1)), "")
    else
      var owner := users[i % |users|];
      var name := NameOf(prefix, i / |users| + 1);
      var home := HomePath(parent, prefix, owner);
      WorkspacePlan(name, home, Join(home, name), owner)
  }

  function Plans(parent: string, prefix: string, users: seq<string>, workspaces: nat): (r: seq<WorkspacePlan>)
    ensures |r| == workspaces && forall i :: 0 <= i < workspaces ==> r[i] == PlanAt(parent, prefix, users, i)
  {
    seq(workspaces, i requires 0 <= i < workspaces => PlanAt(parent, prefix, users, i))
  }

  method PlanWorkspaces(parent: string, prefix: string, users: seq<string>, workspaces: nat)
    returns (plans: seq<WorkspacePlan>)
    ensures plans == Plans(parent, prefix, users, workspaces)
  {
    plans := [];
    for i := 0 to workspaces
      invariant |plans| == i && forall k :: 0 <= k < i ==> plans[k] == PlanAt(parent, prefix, users, k)
    {
      if |users| == 0 {
        var name := prefix + "-" + Itoa(i + 1);
        plans := plans + [WorkspacePlan(name, parent, Join(parent, name), "")];
        continue;
      }
      var owner := users[i % |users|];
      var name := prefix + "-" + Itoa(i / |users| + 1);
      var home := HomePath(parent, prefix, owner);
      plans := plans + [WorkspacePlan(name, home, Join(home, name), owner)];
    }
  }

  /** The plans of one owner, in order. */
  function Owned(plans: seq<WorkspacePlan>, owner: string): seq<WorkspacePlan> {
    if plans == [] then []
    else
      Owned(plans[..|plans| - 1], owner) +
      if plans[|plans| - 1].owner == owner then [plans[|plans| - 1]] else []
  }

  /** (m - j) / n rounded up: how many of m workspaces dealt to n users fall to the j-th. */
  function Share(m: nat, j: nat, n: nat): nat
    requires j < n
  {
    if m <= j then 0 else (m - j + n - 1) / n
  }

  lemma {:induction false} AtLeastOnce(d: int, n: nat)
    requires d >= 1
    ensures d * n >= n
  {
    assert d * n == (d - 1) * n + n;
    assert (d - 1) * n >= 0;
  }

  lemma {:induction false} QuotientIs(a: int, n: nat, q: int, r: int)
    requires n > 0 && a == q * n + r && 0 <= r < n
    ensures a / n == q
  {
    var p, s := a / n, a % n;
    assert a == p * n + s && 0 <= s < n;
    assert (p - q) * n == r - s;
    if p > q { AtLeastOnce(p - q, n); }
    assert (q - p) * n == s - r;
    if p < q { AtLeastOnce(q - p, n); }
  }

  /** In terms of whole rounds and what is left of the last. */
  lemma {:induction false} ShareOfRounds(q: nat, r: nat, j: nat, n: nat)
    requires j < n && r < n
    ensures Share(q * n + r, j, n) == q + if r > j then 1 else 0
  {
    var m := q * n + r;
    if m > j {
      if r > j {
        QuotientIs(m - j + n - 1, n, q + 1, r - j - 1);
      } else {
        QuotientIs(m - j + n - 1, n, q, r - j + n - 1);
      }
    } else {
      assert q == 0 by { if q > 0 { AtLeastOnce(q, n); } }
    }
  }

  /** One more workspace falls to the user whose turn it is. */
  lemma {:induction false} ShareStep(m: nat, j: nat, n: nat, q: nat, r: nat)
    requires j < n && r < n && m == q * n + r
    ensures Share(m + 1, j, n) == Share(m, j, n) + if r == j then 1 else 0
    ensures r == j ==> Share(m, j, n) == q
  {
    ShareOfRounds(q, r, j, n);
    if r + 1 < n {
      ShareOfRounds(q, r + 1, j, n);
    } else {
      assert m + 1 == (q + 1) * n + 0;
      ShareOfRounds(q + 1, 0, j, n);
    }
  }

  lemma {:induction false} Divide(i: nat, n: nat) returns (q: nat, r: nat)
    requires n > 0
    ensures i / n == q && i % n == r && r < n && i == q * n + r
  {
    q, r := i / n, i % n;
  }

  /** The plan made in a round for the user whose turn it is. */
  lemma {:induction false} PlanInRound(parent: string, prefix: string, users: seq<string>, i: nat, round: nat,
      turn: nat)
    requires turn < |users| && i / |users| == round && i % |users| == turn
    ensures PlanAt(parent, prefix, users, i) ==
              WorkspacePlan(NameOf(prefix, round + 1), HomePath(parent, prefix, users[turn]),
                Join(Join(OrgPath(parent, prefix), users[turn]), NameOf(prefix, round + 1)), users[turn])
  {}

  lemma {:induction false} OwnedStep(parent: string, prefix: string, users: seq<string>, m: nat, owner: string)
    ensures Owned(Plans(parent, prefix, users, m + 1), owner)
         == Owned(Plans(parent, prefix, users, m), owner)
            + if PlanAt(parent, prefix, users, m).owner == owner then [PlanAt(parent, prefix, users, m)] else []
  {
    assert Plans(parent, prefix, users, m + 1)[..m] == Plans(parent, prefix, users, m);
  }

  /** The first k workspaces of a home. */
  ghost predicate FirstOf(owned: seq<WorkspacePlan>, home: string, prefix: string, k: nat) {
    && |owned| == k
    && forall i :: 0 <= i < k ==>
         && owned[i].name == prefix + "-" + Itoa(i + 1) && owned[i].parent == home
         && owned[i].path == Join(home, owned[i].name)
  }

  lemma {:induction false} OneMore(owned: seq<WorkspacePlan>, home: string, prefix: string, k: nat, owner: string)
    requires FirstOf(owned, home, prefix, k)
    ensures FirstOf(owned + [WorkspacePlan(NameOf(prefix, k + 1), home, Join(home, NameOf(prefix, k + 1)), owner)],
            home, prefix, k + 1)
  {}

  /** Each user gets their share of the workspaces, numbered from one, inside their own home. */
  lemma {:induction false} EachGetsTheirShare(parent: string, prefix: string, users: seq<string>,
      workspaces: nat, j: nat)
    requires AllDistinct(users) && j < |users|
    ensures FirstOf(Owned(Plans(parent, prefix, users, workspaces), users[j]),
              HomePath(parent, prefix, users[j]), prefix, Share(workspaces, j, |users|))
  {
    if workspaces > 0 {
      var m := workspaces - 1;
      EachGetsTheirShare(parent, prefix, users, m, j);
      OwnedStep(parent, prefix, users, m, users[j]);
      var round, turn := Divide(m, |users|);
      ShareStep(m, j, |users|, round, turn);
      PlanInRound(parent, prefix, users, m, round, turn);
      if turn == j {
        OneMore(Owned(Plans(parent, prefix, users, m), users[j]),
                HomePath(parent, prefix, users[j]), prefix, round, users[j]);
      } else {
        assert users[turn] != users[j];
      }
    }
  }

  /** Without users the workspaces are children of the parent, numbered from one, and nobody's. */
  lemma {:induction false} UnownedPlans(parent: string, prefix: string, workspaces: nat)
    ensures var plans := Plans(parent, prefix, [], workspaces);
      && FirstOf(plans, parent, prefix, workspaces)
      && forall i :: 0 <= i < workspaces ==> plans[i].owner == ""
  {
  }

  // ----- Distinct paths -----

  lemma {:induction false} NamesDiffer(prefix: string, a: nat, b: nat)
    requires NameOf(prefix, a) == NameOf(prefix, b)
    ensures a == b
  {
    CancelPrefix(prefix + "-", Itoa(a), Itoa(b));
    DigitsInjective(a, b);
  }

  lemma {:induction false} LabelHasNoColon(s: string)
    requires IsLabel(s)
    ensures ':' !in s && s != ""
  {}

  /** A path below a home tells whose home it is and what is below. */
  lemma {:induction false} HomesDoNotOverlap(org: string, u: string, v: string, x: string, y: string)
    requires IsLabel(u) && IsLabel(v) && Join(org, u) + ":" + x == Join(org, v) + ":" + y
    ensures u == v && x == y
  {
    LabelHasNoColon(u);
    LabelHasNoColon(v);
    if org != "" {
      assert Join(org, u) + ":" + x == (org + ":") + (u + ":" + x);
      assert Join(org, v) + ":" + y == (org + ":") + (v + ":" + y);
      CancelPrefix(org + ":", u + ":" + x, v + ":" + y);
    }
    CutIsUnique(u, x, v, y);
  }

  lemma {:induction false} JoinsDiffer(path: string, a: string, b: string)
    requires Join(path, a) == Join(path, b)
    ensures a == b
  {
    if path != "" { CancelPrefix(path + ":", a, b); }
  }

  lemma {:induction false} SharedPath(org: string, prefix: string, u: string, v: string, a: nat, b: nat)
    requires IsLabel(u) && IsLabel(v)
    requires Join(Join(org, u), NameOf(prefix, a)) == Join(Join(org, v), NameOf(prefix, b))
    ensures u == v && a == b
  {
    HomesDoNotOverlap(org, u, v, NameOf(prefix, a), NameOf(prefix, b));
    NamesDiffer(prefix, a, b);
  }

  lemma {:induction false} UserIsLabel(users: seq<string>, i: nat)
    requires ValidUsers(users) && i < |users|
    ensures IsLabel(users[i])
  {
    assert FaultOf(users[i], users[..i]).None?;
  }

  lemma {:induction false} UsersDiffer(users: seq<string>, i: nat, k: nat)
    requires ValidUsers(users) && i < |users| && k < |users| && users[i] == users[k]
    ensures i == k
  {
    ValidMeaning(users);
  }

  /** No two planned workspaces share a path. */
  lemma {:induction false} PathsAreDistinct(parent: string, prefix: string, users: seq<string>, i: nat, k: nat)
    requires ValidUsers(users) && PlanAt(parent, prefix, users, i).path == PlanAt(parent, prefix, users, k).path
    ensures i == k
  {
    if users == [] {
      JoinsDiffer(parent, NameOf(prefix, i + 1), NameOf(prefix, k + 1));
      NamesDiffer(prefix, i + 1, k + 1);
    } else {
      UsersPathsAreDistinct(parent, prefix, users, i, k);
    }
  }

  lemma {:induction false} SameRoundAndTurn(
      parent: string, prefix: string, users: seq<string>, round: nat, turn: nat, round': nat, turn': nat)
    requires ValidUsers(users) && turn < |users| && turn' < |users|
    requires Join(Join(OrgPath(parent, prefix), users[turn]), NameOf(prefix, round + 1))
          == Join(Join(OrgPath(parent, prefix), users[turn']), NameOf(prefix, round' + 1))
    ensures round == round' && turn == turn'
  {
    UserIsLabel(users, turn);
    UserIsLabel(users, turn');
    SharedPath(OrgPath(parent, prefix), prefix, users[turn], users[turn'], round + 1, round' + 1);
    UsersDiffer(users, turn, turn');
  }

  lemma {:induction false} UsersPathsAreDistinct(parent: string, prefix: string, users: seq<string>, i: nat, k: nat)
    requires ValidUsers(users) && users != []
    requires PlanAt(parent, prefix, users, i).path == PlanAt(parent, prefix, users, k).path
    ensures i == k
  {
    var round, turn := Divide(i, |users|);
    var round', turn' := Divide(k, |users|);
    PlanInRound(parent, prefix, users, i, round, turn);
    PlanInRound(parent, prefix, users, k, round', turn');
    SameRoundAndTurn(parent, prefix, users, round, turn, round', turn');
  }

  lemma {:induction false} HomeIsNotEmpty(parent: string, prefix: string, user: string)
    requires IsLabel(user)
    ensures HomePath(parent, prefix, user) != ""
  {}

  // ----- Contexts -----

  datatype User = User(name: string, home: string)

  datatype Entry = Entry(name: string, path: string, impersonate: string)

  /** What a run made: its users' homes and its workspaces as planned. */
  datatype Tree = Tree(parent: string, org: string, users: seq<User>, workspaces: seq<WorkspacePlan>)

  function TreeOf(parent: string, prefix: string, users: seq<string>, workspaces: nat): Tree {
    Tree(parent, OrgPath(parent, prefix),
      seq(|users|, i requires 0 <= i < |users| => User(users[i], HomePath(parent, prefix, users[i]))),
      Plans(parent, prefix, users, workspaces))
  }

  function EntryFor(path: string, user: string): Entry { Entry(path, path, user) }

  function EntriesFor(plans: seq<WorkspacePlan>, user: string): (r: seq<Entry>)
    ensures |r| == |plans| && forall i :: 0 <= i < |r| ==> r[i] == EntryFor(plans[i].path, user)
  {
    seq(|plans|, i requires 0 <= i < |plans| => EntryFor(plans[i].path, user))
  }

  /** What the file of one tenant holds: their home, then the workspaces they own. */
  function TenantFile(tree: Tree, user: User): seq<Entry> {
    [EntryFor(user.home, user.name)] + EntriesFor(Owned(tree.workspaces, user.name), user.name)
  }

  method TenantEntries(tree: Tree, user: User) returns (entries: seq<Entry>)
    ensures entries == TenantFile(tree, user)
  {
    entries := [Entry(user.home, user.home, user.name)];
    for i := 0 to |tree.workspaces|
      invariant entries == TenantFile(tree.(workspaces := tree.workspaces[..i]), user)
    {
      var ws := tree.workspaces[i];
      assert tree.workspaces[..i + 1][..i] == tree.workspaces[..i];
      if ws.owner == user.name {
        entries := entries + [Entry(ws.path, ws.path, user.name)];
      }
    }
    assert tree.workspaces[..|tree.workspaces|] == tree.workspaces;
  }

  lemma {:induction false} BelowOneHomeOnly(org: string, u: string, v: string, path: string)
    requires IsLabel(u) && IsLabel(v)
    requires AtOrBelow(path, Join(org, u)) && AtOrBelow(path, Join(org, v))
    ensures u == v
  {
    var s := path + ":";
    var x, y := s[|Join(org, u)| + 1..], s[|Join(org, v)| + 1..];
    assert s == Join(org, u) + ":" + x;
    assert s == Join(org, v) + ":" + y;
    HomesDoNotOverlap(org, u, v, x, y);
  }

  lemma {:induction false} InOwnHome(
      parent: string, prefix: string, users: seq<string>, workspaces: nat, j: nat, i: nat)
    requires AllDistinct(users) && j < |users| && IsLabel(users[j])
    requires var tree := TreeOf(parent, prefix, users, workspaces); i < |TenantFile(tree, tree.users[j])|
    ensures var tree := TreeOf(parent, prefix, users, workspaces);
            var e := TenantFile(tree, tree.users[j])[i];
            e.impersonate == users[j] && AtOrBelow(e.path, HomePath(parent, prefix, users[j]))
  {
    if i > 0 {
      HomeIsNotEmpty(parent, prefix, users[j]);
      EachGetsTheirShare(parent, prefix, users, workspaces, j);
      var owned := Owned(Plans(parent, prefix, users, workspaces), users[j]);
      BelowHome(HomePath(parent, prefix, users[j]), owned[i - 1].name);
    }
  }

  lemma {:induction false} BelowHome(home: string, name: string)
    requires home != ""
    ensures AtOrBelow(Join(home, name), home)
  {
    assert Join(home, name)[..|home|] == home;
  }

  /** Everything in a tenant's file is browsed as them and lies in their own home; nothing in it
      addresses anything at or below another tenant's. */
  lemma {:induction false} TenantsAreSeparate(
      parent: string, prefix: string, users: seq<string>, workspaces: nat, j: nat, l: nat, e: Entry)
    requires ValidUsers(users) && j < |users| && l < |users| && j != l
    requires var tree := TreeOf(parent, prefix, users, workspaces); e in TenantFile(tree, tree.users[j])
    ensures e.impersonate == users[j] && AtOrBelow(e.path, HomePath(parent, prefix, users[j]))
    ensures !AtOrBelow(e.path, HomePath(parent, prefix, users[l]))
  {
    ValidMeaning(users);
    assert users[j] in users && users[l] in users && users[j] != users[l];
    var tree := TreeOf(parent, prefix, users, workspaces);
    var file := TenantFile(tree, tree.users[j]);
    var i :| 0 <= i < |file| && file[i] == e;
    InOwnHome(parent, prefix, users, workspaces, j, i);
    if AtOrBelow(e.path, HomePath(parent, prefix, users[l])) {
      BelowOneHomeOnly(OrgPath(parent, prefix), users[j], users[l], e.path);
    }
  }

  /** Every workspace planned is in its owner's file. */
  lemma {:induction false} EveryWorkspaceIsReachable(plans: seq<WorkspacePlan>, i: nat)
    requires i < |plans|
    ensures plans[i] in Owned(plans, plans[i].owner)
    decreases |plans|
  {
    if i < |plans| - 1 { EveryWorkspaceIsReachable(plans[..|plans| - 1], i); }
  }

  // ----- The operator's file -----

  /** The paths of a tree, top down. */
  function AllPaths(tree: Tree): seq<string> {
    [tree.parent, tree.org]
    + seq(|tree.users|, i requires 0 <= i < |tree.users| => tree.users[i].home)
    + seq(|tree.workspaces|, i requires 0 <= i < |tree.workspaces| => tree.workspaces[i].path)
  }

  /** Each path once, where it first occurs; no path that is empty. */
  function Firsts(paths: seq<string>): (r: seq<string>)
    ensures AllDistinct(r) && forall p :: p in r <==> p in paths && p != ""
  {
    if paths == [] then []
    else
      var before, p := Firsts(paths[..|paths| - 1]), paths[|paths| - 1];
      assert paths == paths[..|paths| - 1] + [p];
      if p == "" || p in before then before else before + [p]
  }

  function OperatorEntriesFor(paths: seq<string>): (r: seq<Entry>)
    ensures |r| == |paths| && forall i :: 0 <= i < |r| ==> r[i] == EntryFor(paths[i], "")
  {
    seq(|paths|, i requires 0 <= i < |paths| => EntryFor(paths[i], ""))
  }

  lemma {:induction false} EntriesNext(paths: seq<string>, i: nat)
    requires i < |paths|
    ensures var before, after := Firsts(paths[..i]), Firsts(paths[..i + 1]);
      if paths[i] == "" || paths[i] in before then after == before
      else
        && after == before + [paths[i]]
        && OperatorEntriesFor(after) == OperatorEntriesFor(before) + [Entry(paths[i], paths[i], "")]
  {
    assert paths[..i + 1][..i] == paths[..i];
  }

  method OperatorEntries(tree: Tree) returns (entries: seq<Entry>)
    ensures entries == OperatorEntriesFor(Firsts(AllPaths(tree)))
  {
    var paths := AllPaths(tree);
    entries := [];
    var seen: set<string> := {};
    for i := 0 to |paths|
      invariant entries == OperatorEntriesFor(Firsts(paths[..i]))
      invariant forall p :: p in seen <==> p in Firsts(paths[..i])
    {
      var path := paths[i];
      EntriesNext(paths, i);
      if path == "" || path in seen {
        continue;
      }
      seen := seen + {path};
      entries := entries + [Entry(path, path, "")];
    }
    assert paths[..|paths|] == paths;
  }

  /** The org is the child of the parent called by the prefix, or the top-level workspace of that
      name, and a home the child of the org called by its user. */
  lemma {:induction false} PathsAreNested(parent: string, prefix: string, user: string)
    ensures parent != "" ==> OrgPath(parent, prefix) == parent + ":" + prefix
    ensures parent != "" ==> AtOrBelow(OrgPath(parent, prefix), parent)
    ensures parent == "" ==> OrgPath(parent, prefix) == prefix
    ensures OrgPath(parent, prefix) != "" ==> HomePath(parent, prefix, user) == OrgPath(parent, prefix) + ":" + user
    ensures OrgPath(parent, prefix) != "" ==> AtOrBelow(HomePath(parent, prefix, user), OrgPath(parent, prefix))
  {
    if parent != "" { BelowHome(parent, prefix); }
    if OrgPath(parent, prefix) != "" { BelowHome(OrgPath(parent, prefix), user); }
  }

  /** The operator's file reaches the parent, the org, every home and every planned workspace, as
      far as they have a path, and nothing else; and it impersonates nobody. */
  lemma {:induction false} OperatorReachesEverything(parent: string, prefix: string, users: seq<string>,
      workspaces: nat, e: Entry)
    ensures e in OperatorEntriesFor(Firsts(AllPaths(TreeOf(parent, prefix, users, workspaces)))) <==>
              && e.name == e.path != "" && e.impersonate == ""
              && (|| e.path == parent || e.path == OrgPath(parent, prefix)
                  || (exists u :: u in users && e.path == HomePath(parent, prefix, u))
                  || (exists i :: 0 <= i < workspaces && e.path == PlanAt(parent, prefix, users, i).path))
  {
    var paths := AllPaths(TreeOf(parent, prefix, users, workspaces));
    InOperatorEntries(Firsts(paths), e);
    InAllPaths(parent, prefix, users, workspaces, e.path);
  }

  lemma {:induction false} InOperatorEntries(paths: seq<string>, e: Entry)
    ensures e in OperatorEntriesFor(paths) <==> e.path in paths && e.name == e.path && e.impersonate == ""
  {
    if e.path in paths {
      var i :| 0 <= i < |paths| && paths[i] == e.path;
      assert OperatorEntriesFor(paths)[i] == Entry(e.path, e.path, "");
    }
  }

  lemma {:induction false} InAllPaths(parent: string, prefix: string, users: seq<string>, workspaces: nat, p: string)
    ensures p in AllPaths(TreeOf(parent, prefix, users, workspaces)) <==>
              || p == parent || p == OrgPath(parent, prefix)
              || (exists u :: u in users && p == HomePath(parent, prefix, u))
              || (exists i :: 0 <= i < workspaces && p == PlanAt(parent, prefix, users, i).path)
  {
    var tree := TreeOf(parent, prefix, users, workspaces);
    var homes := seq(|users|, j requires 0 <= j < |users| => HomePath(parent, prefix, users[j]));
    var planned := seq(workspaces, i requires 0 <= i < workspaces => PlanAt(parent, prefix, users, i).path);
    assert AllPaths(tree) == [parent, OrgPath(parent, prefix)] + homes + planned;
    InHomes(parent, prefix, users, homes, p);
    InPlanned(parent, prefix, users, planned, p);
  }

  lemma {:induction false} InHomes(parent: string, prefix: string, users: seq<string>, homes: seq<string>, p: string)
    requires |homes| == |users|
    requires forall j :: 0 <= j < |users| ==> homes[j] == HomePath(parent, prefix, users[j])
    ensures p in homes <==> exists u :: u in users && p == HomePath(parent, prefix, u)
  {
    if u :| u in users && p == HomePath(parent, prefix, u) {
      var j :| 0 <= j < |users| && users[j] == u;
      assert homes[j] == p;
    }
    if p in homes {
      var j :| 0 <= j < |homes| && homes[j] == p;
      assert users[j] in users;
    }
  }

  lemma {:induction false} InPlanned(parent: string, prefix: string, users: seq<string>, planned: seq<string>,
      p: string)
    requires forall i :: 0 <= i < |planned| ==> planned[i] == PlanAt(parent, prefix, users, i).path
    ensures p in planned <==> exists i :: 0 <= i < |planned| && p == PlanAt(parent, prefix, users, i).path
  {
  }

  /** A tenant's file reaches their home and every workspace planned for them, and nothing else. */
  lemma {:induction false} TenantReachesTheirOwn(parent: string, prefix: string, users: seq<string>,
      workspaces: nat, j: nat, e: Entry)
    requires j < |users|
    ensures var tree := TreeOf(parent, prefix, users, workspaces);
      e in TenantFile(tree, tree.users[j]) <==>
        && e.name == e.path && e.impersonate == users[j]
        && (|| e.path == HomePath(parent, prefix, users[j])
            || exists i :: 0 <= i < workspaces && PlanAt(parent, prefix, users, i).owner == users[j]
                 && e.path == PlanAt(parent, prefix, users, i).path)
  {
    var tree := TreeOf(parent, prefix, users, workspaces);
    InTenantFile(tree, tree.users[j], e);
  }

  lemma {:induction false} InTenantFile(tree: Tree, user: User, e: Entry)
    ensures e in TenantFile(tree, user) <==>
              && e.name == e.path && e.impersonate == user.name
              && (|| e.path == user.home
                  || exists i :: 0 <= i < |tree.workspaces| && tree.workspaces[i].owner == user.name
                       && e.path == tree.workspaces[i].path)
  {
    var owned := Owned(tree.workspaces, user.name);
    InEntries(owned, user.name, e);
    assert e in TenantFile(tree, user) <==>
        e == Entry(user.home, user.home, user.name) || e in EntriesFor(owned, user.name);
    if i :| 0 <= i < |tree.workspaces| && tree.workspaces[i].owner == user.name && e.path == tree.workspaces[i].path {
      InOwned(tree.workspaces, user.name, tree.workspaces[i]);
    }
    if plan :| plan in owned && plan.path == e.path {
      InOwned(tree.workspaces, user.name, plan);
    }
  }

  lemma {:induction false} InEntries(plans: seq<WorkspacePlan>, user: string, e: Entry)
    ensures e in EntriesFor(plans, user) <==>
              e.name == e.path && e.impersonate == user && exists plan :: plan in plans && plan.path == e.path
  {
    var entries := EntriesFor(plans, user);
    if plan :| plan in plans && plan.path == e.path {
      var k :| 0 <= k < |plans| && plans[k] == plan;
      assert entries[k] == Entry(e.path, e.path, user);
    }
  }

  lemma {:induction false} InOwned(plans: seq<WorkspacePlan>, owner: string, plan: WorkspacePlan)
    ensures plan in Owned(plans, owner) <==> plan in plans && plan.owner == owner
  {
    if plans != [] {
      InOwned(plans[..|plans| - 1], owner, plan);
      assert plans == plans[..|plans| - 1] + [plans[|plans| - 1]];
    }
  }

  // ----- The files -----

  /** One file to write: its stem, the tenant it belongs to, and what it can reach. */
  datatype KubeconfigSet = KubeconfigSet(name: string, owner: string, entries: seq<Entry>)

  /** The operator's file, then one for each tenant. */
  function Files(tree: Tree): seq<KubeconfigSet> {
    [KubeconfigSet(OPERATOR_KUBECONFIG_NAME, "", OperatorEntriesFor(Firsts(AllPaths(tree))))]
    + seq(|tree.users|, i requires 0 <= i < |tree.users| =>
        KubeconfigSet(tree.users[i].name, tree.users[i].name, TenantFile(tree, tree.users[i])))
  }

  method WorkspaceKubeconfigs(tree: Tree) returns (sets: seq<KubeconfigSet>)
    ensures sets == Files(tree)
  {
    var operator := OperatorEntries(tree);
    sets := [KubeconfigSet(OPERATOR_KUBECONFIG_NAME, "", operator)];
    for i := 0 to |tree.users|
      invariant sets == Files(tree)[..i + 1]
    {
      var user := tree.users[i];
      var entries := TenantEntries(tree, user);
      sets := sets + [KubeconfigSet(user.name, user.name, entries)];
    }
  }

  /** One file for the operator and one for each tenant, under their own names. */
  lemma {:induction false} FilesMeaning(tree: Tree, j: nat)
    requires j < |tree.users|
    ensures |Files(tree)| == |tree.users| + 1
    ensures Files(tree)[0] == KubeconfigSet("workspaces", "", OperatorEntriesFor(Firsts(AllPaths(tree))))
    ensures Files(tree)[j + 1] ==
              KubeconfigSet(tree.users[j].name, tree.users[j].name, TenantFile(tree, tree.users[j]))
  {
  }

  lemma {:induction false} UsersOfTree(parent: string, prefix: string, users: seq<string>, workspaces: nat, j: nat)
    requires j < |users|
    ensures var tree := TreeOf(parent, prefix, users, workspaces);
      |tree.users| == |users| && tree.users[j] == User(users[j], HomePath(parent, prefix, users[j]))
  {
  }

  predicate DistinctFiles(sets: seq<KubeconfigSet>) {
    forall i, j :: 0 <= i < j < |sets| ==> sets[i].name != sets[j].name
  }

  lemma {:induction false} OneFileEach(sets: seq<KubeconfigSet>, users: seq<string>)
    requires AllDistinct(users) && |sets| == |users| + 1 && sets[0].name == OPERATOR_KUBECONFIG_NAME
    requires forall i :: 0 < i < |sets| ==> sets[i].name == users[i - 1]
    ensures DistinctFiles(sets) <==> OPERATOR_KUBECONFIG_NAME !in users
  {
    if i :| 0 <= i < |users| && users[i] == OPERATOR_KUBECONFIG_NAME {
      assert sets[i + 1].name == sets[0].name;
    }
  }

  /** No file overwrites another exactly when no user is called `workspaces`, a name that the
      validation of users accepts. */
  lemma {:induction false} FilesAreDistinctExactlyWhen(parent: string, prefix: string, users: seq<string>,
      workspaces: nat)
    requires ValidUsers(users)
    ensures DistinctFiles(Files(TreeOf(parent, prefix, users, workspaces))) <==> OPERATOR_KUBECONFIG_NAME !in users
  {
    ValidMeaning(users);
    OneFileEach(Files(TreeOf(parent, prefix, users, workspaces)), users);
  }

  lemma OperatorsNameIsAccepted()
    ensures ValidUsers([OPERATOR_KUBECONFIG_NAME])
  {
    ValidMeaning([OPERATOR_KUBECONFIG_NAME]);
    assert |OPERATOR_KUBECONFIG_NAME| == 10;
  }

  // ----- The org workspace -----

  /** A workspace of the run: the parent, the org and the homes of a run with users, and the
      workspaces planned. */
  ghost predicate IsMade(parent: string, prefix: string, users: seq<string>, workspaces: nat, path: string) {
    || path == parent
    || (users != [] && path == OrgPath(parent, prefix))
    || (exists u :: u in users && path == HomePath(parent, prefix, u))
    || (exists i :: 0 <= i < workspaces && path == PlanAt(parent, prefix, users, i).path)
  }

  lemma {:induction false} HomeIsMade(parent: string, prefix: string, users: seq<string>, workspaces: nat, j: nat)
    requires j < |users|
    ensures IsMade(parent, prefix, users, workspaces, HomePath(parent, prefix, users[j]))
  {
    assert users[j] in users;
  }

  lemma {:induction false} PathIsMade(parent: string, prefix: string, users: seq<string>, workspaces: nat, i: nat)
    requires i < |AllPaths(TreeOf(parent, prefix, users, workspaces))|
    ensures var path := AllPaths(TreeOf(parent, prefix, users, workspaces))[i];
            IsMade(parent, prefix, users, workspaces, path) || path == OrgPath(parent, prefix)
  {
    var path := AllPaths(TreeOf(parent, prefix, users, workspaces))[i];
    if 2 <= i < 2 + |users| {
      assert path == HomePath(parent, prefix, users[i - 2]);
      HomeIsMade(parent, prefix, users, workspaces, i - 2);
    } else if i >= 2 {
      assert path == PlanAt(parent, prefix, users, i - 2 - |users|).path;
    }
  }

  lemma {:induction false} EveryPathIsMade(parent: string, prefix: string, users: seq<string>, workspaces: nat,
      path: string)
    requires path in AllPaths(TreeOf(parent, prefix, users, workspaces))
    ensures IsMade(parent, prefix, users, workspaces, path) || path == OrgPath(parent, prefix)
  {
    var i: nat :| i < |AllPaths(TreeOf(parent, prefix, users, workspaces))|
                  && AllPaths(TreeOf(parent, prefix, users, workspaces))[i] == path;
    PathIsMade(parent, prefix, users, workspaces, i);
  }

  lemma {:induction false} NothingMakesTheOrg(parent: string, prefix: string, workspaces: nat)
    requires OrgPath(parent, prefix) != ""
    ensures !IsMade(parent, prefix, [], workspaces, OrgPath(parent, prefix))
  {
    forall i | 0 <= i < workspaces ensures OrgPath(parent, prefix) != PlanAt(parent, prefix, [], i).path {
      if OrgPath(parent, prefix) == PlanAt(parent, prefix, [], i).path {
        JoinsDiffer(parent, prefix, NameOf(prefix, i + 1));
      }
    }
  }

  /** The operator's file addresses only workspaces of the run exactly when the run has users, or
      the org path is empty: the org path is filled in although a run without users makes none. */
  lemma {:induction false} OperatorAddressesTheRunExactlyWhen(parent: string, prefix: string, users: seq<string>,
      workspaces: nat)
    ensures (forall p :: p in Firsts(AllPaths(TreeOf(parent, prefix, users, workspaces))) ==>
               IsMade(parent, prefix, users, workspaces, p)) <==>
              users != [] || (parent == "" && prefix == "")
  {
    var paths := AllPaths(TreeOf(parent, prefix, users, workspaces));
    forall p | p in Firsts(paths)
      ensures IsMade(parent, prefix, users, workspaces, p) || p == OrgPath(parent, prefix) != ""
    {
      EveryPathIsMade(parent, prefix, users, workspaces, p);
    }
    if users == [] && OrgPath(parent, prefix) != "" {
      assert paths[1] == OrgPath(parent, prefix) && paths[1] in paths;
      NothingMakesTheOrg(parent, prefix, workspaces);
    }
  }
}
