/** The roles a Cluster API workspace grants, `internal/capiworkspaces/roles.go`: a function of
    the API groups its bindings serve. */
module Roles {
  import opened Ordering

  const CLUSTER_API_GROUP := "cluster.x-k8s.io"
  const WRITABLE_RESOURCE := "clusters"
  const ADMIN_ROLE_NAME := "cluster-api-admin"
  const VIEW_ROLE_NAME := "cluster-api-view"
  const MANAGED_BY_LABEL := "cluster.x-k8s.io/managed-by"
  const MANAGED_BY_VALUE := "cluster-api-workspace"

  const READ := ["get", "list", "watch"]
  const WRITE := ["create", "update", "patch", "delete"]
  const USE := ["get", "list", "watch", "create", "update", "patch", "delete"]

  /** An APIBinding: the groups of the resources it serves, how many permission claims it
      accepts and has applied, its phase and its annotations. */
  datatype Binding = Binding(
    bound: seq<string>, claims: nat, applied: nat, phase: string, annotations: map<string, string>)

  // ----- Groups -----

  predicate HasSuffix(s: string, suffix: string) {
    |suffix| <= |s| && s[|s| - |suffix|..] == suffix
  }

  predicate IsClusterApi(group: string) {
    group == CLUSTER_API_GROUP || HasSuffix(group, "." + CLUSTER_API_GROUP)
  }

  /** The Cluster API groups are the core one and everything that ends in a dot and it. */
  lemma {:induction false} ClusterApiMeaning(group: string)
    ensures IsClusterApi(group) <==>
              group == "cluster.x-k8s.io" || exists p: string :: group == p + ".cluster.x-k8s.io"
  {
    var suffix := ".cluster.x-k8s.io";
    if HasSuffix(group, suffix) {
      assert group == group[..|group| - |suffix|] + suffix;
    }
    if p: string :| group == p + suffix {
      assert group[|group| - |suffix|..] == suffix;
    }
  }

  ghost function ClusterApiIn(bound: seq<string>): (groups: set<string>)
    ensures forall g :: g in groups <==> g in bound && IsClusterApi(g)
  {
    set g | g in bound && IsClusterApi(g)
  }

  /** The Cluster API groups some binding serves. */
  ghost function Served(bindings: seq<Binding>): set<string> {
    if bindings == [] then {}
    else Served(bindings[..|bindings| - 1]) + ClusterApiIn(bindings[|bindings| - 1].bound)
  }

  ghost predicate IsServed(bindings: seq<Binding>, g: string) { exists b :: b in bindings && g in b.bound }

  lemma {:induction false} ServedMeaning(bindings: seq<Binding>, g: string)
    ensures g in Served(bindings) <==> IsClusterApi(g) && IsServed(bindings, g)
  {
    if bindings != [] {
      var init, last := bindings[..|bindings| - 1], bindings[|bindings| - 1];
      ServedMeaning(init, g);
      assert bindings == init + [last];
      assert last in bindings;
    }
  }

  method AddGroups(groups: seq<string>, bound: seq<string>) returns (r: seq<string>)
    requires AllDistinct(groups)
    ensures AllDistinct(r)
    ensures forall g :: g in r <==> g in groups || g in ClusterApiIn(bound)
  {
    r := groups;
    for i := 0 to |bound|
      invariant AllDistinct(r)
      invariant forall g :: g in r <==> g in groups || (g in bound[..i] && IsClusterApi(g))
    {
      assert bound[..i + 1] == bound[..i] + [bound[i]];
      if IsClusterApi(bound[i]) && bound[i] !in r {
        r := r + [bound[i]];
      }
    }
    assert bound[..|bound|] == bound;
  }

  /** The Cluster API groups served, each once, in order. */
  method APIGroups(bindings: seq<Binding>) returns (r: seq<string>)
    ensures r == InStringOrder(Served(bindings))
  {
    var groups: seq<string> := [];
    for i := 0 to |bindings|
      invariant AllDistinct(groups)
      invariant forall g :: g in groups <==> g in Served(bindings[..i])
    {
      assert bindings[..i + 1][..i] == bindings[..i];
      groups := AddGroups(groups, bindings[i].bound);
    }
    assert bindings[..|bindings|] == bindings;
    LessIsOrder();
    StrictIsWeak(Less);
    r := SortFunc(groups, Less);
    SortedDistinct(Less, groups, r, Served(bindings));
  }

  // ----- Rules -----

  datatype Rule = Rule(groups: seq<string>, resources: seq<string>, verbs: seq<string>)
  datatype Role = Role(labels: map<string, string>, rules: seq<Rule>)
  datatype NamedRole = NamedRole(name: string, role: Role)

  /** A rule's list names x outright or by the wildcard. */
  predicate Names(list: seq<string>, x: string) { "*" in list || x in list }

  predicate Allows(rule: Rule, group: string, resource: string, verb: string) {
    Names(rule.groups, group) && Names(rule.resources, resource) && Names(rule.verbs, verb)
  }

  /** What a list of rules grants, by the RBAC rule of the API server: some rule allows it. */
  predicate Grants(rules: seq<Rule>, group: string, resource: string, verb: string) {
    rules != [] && (Allows(rules[0], group, resource, verb) || Grants(rules[1..], group, resource, verb))
  }

  const ADMIN_BASE := [
    Rule([""], ["namespaces", "secrets", "configmaps", "events"], READ),
    Rule(["apis.kcp.io"], ["apibindings"], USE),
    Rule(["core.kcp.io"], ["logicalclusters"], READ)]

  const VIEW_BASE := [
    Rule([""], ["namespaces", "configmaps", "events"], READ),
    Rule(["apis.kcp.io"], ["apibindings"], READ),
    Rule(["core.kcp.io"], ["logicalclusters"], READ)]

  function AdminRules(groups: seq<string>): seq<Rule> {
    if groups == [] then ADMIN_BASE
    else [Rule(groups, ["*"], READ), Rule([CLUSTER_API_GROUP], [WRITABLE_RESOURCE], WRITE)] + ADMIN_BASE
  }

  function ViewRules(groups: seq<string>): seq<Rule> {
    if groups == [] then VIEW_BASE else [Rule(groups, ["*"], READ)] + VIEW_BASE
  }

  function RolesFor(groups: seq<string>): (r: seq<NamedRole>) {
    var managed := map[MANAGED_BY_LABEL := MANAGED_BY_VALUE];
    [NamedRole(ADMIN_ROLE_NAME, Role(managed, AdminRules(groups))),
     NamedRole(VIEW_ROLE_NAME, Role(managed, ViewRules(groups)))]
  }

  ghost function Admin(bindings: seq<Binding>): seq<Rule> { AdminRules(InStringOrder(Served(bindings))) }
  ghost function View(bindings: seq<Binding>): seq<Rule> { ViewRules(InStringOrder(Served(bindings))) }

  // ----- What they mean -----

  lemma {:induction false} GrantsInTurn(rule: Rule, rest: seq<Rule>, group: string, resource: string, verb: string)
    ensures Grants([rule] + rest, group, resource, verb) <==>
              Allows(rule, group, resource, verb) || Grants(rest, group, resource, verb)
  {
    assert ([rule] + rest)[1..] == rest;
  }

  /** What the fixed rules of the admin role grant. */
  predicate BaseAdmin(group: string, resource: string, verb: string) {
    || (group == "" && resource in ["namespaces", "secrets", "configmaps", "events"]
        && verb in ["get", "list", "watch"])
    || (group == "apis.kcp.io" && resource == "apibindings"
        && verb in ["get", "list", "watch", "create", "update", "patch", "delete"])
    || (group == "core.kcp.io" && resource == "logicalclusters" && verb in ["get", "list", "watch"])
  }

  predicate BaseView(group: string, resource: string, verb: string) {
    || (group == "" && resource in ["namespaces", "configmaps", "events"] && verb in ["get", "list", "watch"])
    || (group == "apis.kcp.io" && resource == "apibindings" && verb in ["get", "list", "watch"])
    || (group == "core.kcp.io" && resource == "logicalclusters" && verb in ["get", "list", "watch"])
  }

  /** A rule without wildcards allows what its lists name. */
  lemma {:induction false} PlainRule(rule: Rule, group: string, resource: string, verb: string)
    requires "*" !in rule.groups && "*" !in rule.resources && "*" !in rule.verbs
    ensures Allows(rule, group, resource, verb) <==>
              group in rule.groups && resource in rule.resources && verb in rule.verbs
  {}

  lemma {:induction false} ThreeRules(rules: seq<Rule>, group: string, resource: string, verb: string)
    requires |rules| == 3
    requires forall r :: r in rules ==> "*" !in r.groups && "*" !in r.resources && "*" !in r.verbs
    ensures Grants(rules, group, resource, verb) <==>
              || (group in rules[0].groups && resource in rules[0].resources && verb in rules[0].verbs)
              || (group in rules[1].groups && resource in rules[1].resources && verb in rules[1].verbs)
              || (group in rules[2].groups && resource in rules[2].resources && verb in rules[2].verbs)
  {
    PlainRule(rules[0], group, resource, verb);
    PlainRule(rules[1], group, resource, verb);
    PlainRule(rules[2], group, resource, verb);
    GrantsInTurn(rules[2], [], group, resource, verb);
    GrantsInTurn(rules[1], [rules[2]], group, resource, verb);
    GrantsInTurn(rules[0], [rules[1], rules[2]], group, resource, verb);
    assert [rules[2]] + [] == [rules[2]] && [rules[1]] + [rules[2]] == [rules[1], rules[2]];
    assert rules == [rules[0]] + [rules[1], rules[2]];
  }

  lemma {:induction false} AdminBaseMeaning(group: string, resource: string, verb: string)
    ensures Grants(ADMIN_BASE, group, resource, verb) <==> BaseAdmin(group, resource, verb)
  {
    ThreeRules(ADMIN_BASE, group, resource, verb);
  }

  lemma {:induction false} ViewBaseMeaning(group: string, resource: string, verb: string)
    ensures Grants(VIEW_BASE, group, resource, verb) <==> BaseView(group, resource, verb)
  {
    ThreeRules(VIEW_BASE, group, resource, verb);
  }

  lemma {:induction false} NoWildcard(bindings: seq<Binding>)
    ensures "*" !in Served(bindings) && "" !in Served(bindings)
  {
    ServedMeaning(bindings, "*");
    ServedMeaning(bindings, "");
  }

  /** The derived read rule, in front of any others. */
  lemma {:induction false} ReadsInFront(groups: seq<string>, rest: seq<Rule>, group: string, resource: string,
      verb: string)
    requires "*" !in groups
    ensures Grants([Rule(groups, ["*"], READ)] + rest, group, resource, verb) <==>
              (group in groups && verb in READ) || Grants(rest, group, resource, verb)
  {
    var rule := Rule(groups, ["*"], READ);
    GrantsInTurn(rule, rest, group, resource, verb);
    assert "*" in rule.resources;
    assert "*" !in READ;
  }

  lemma {:induction false} WritesInFront(rest: seq<Rule>, group: string, resource: string, verb: string)
    ensures Grants([Rule([CLUSTER_API_GROUP], [WRITABLE_RESOURCE], WRITE)] + rest, group, resource, verb) <==>
              || (group == CLUSTER_API_GROUP && resource == WRITABLE_RESOURCE && verb in WRITE)
              || Grants(rest, group, resource, verb)
  {
    var rule := Rule([CLUSTER_API_GROUP], [WRITABLE_RESOURCE], WRITE);
    GrantsInTurn(rule, rest, group, resource, verb);
    PlainRule(rule, group, resource, verb);
  }

  /** Everything the admin role grants, in any group. */
  lemma {:induction false} AdminMeaning(bindings: seq<Binding>, group: string, resource: string, verb: string)
    ensures Grants(Admin(bindings), group, resource, verb) <==>
              || BaseAdmin(group, resource, verb)
              || (group in Served(bindings) && verb in READ)
              || (Served(bindings) != {} && group == CLUSTER_API_GROUP
                  && resource == WRITABLE_RESOURCE && verb in WRITE)
  {
    var groups := InStringOrder(Served(bindings));
    AdminBaseMeaning(group, resource, verb);
    NoWildcard(bindings);
    if groups != [] {
      assert groups[0] in Served(bindings);
      var writing := [Rule([CLUSTER_API_GROUP], [WRITABLE_RESOURCE], WRITE)];
      WritesInFront(ADMIN_BASE, group, resource, verb);
      ReadsInFront(groups, writing + ADMIN_BASE, group, resource, verb);
      assert [Rule(groups, ["*"], READ)] + (writing + ADMIN_BASE) == AdminRules(groups);
    } else {
      assert forall g :: g in Served(bindings) ==> g in groups;
    }
  }

  /** Everything the view role grants, in any group. */
  lemma {:induction false} ViewMeaning(bindings: seq<Binding>, group: string, resource: string, verb: string)
    ensures Grants(View(bindings), group, resource, verb) <==>
              BaseView(group, resource, verb) || (group in Served(bindings) && verb in READ)
  {
    var groups := InStringOrder(Served(bindings));
    ViewBaseMeaning(group, resource, verb);
    NoWildcard(bindings);
    if groups != [] {
      ReadsInFront(groups, VIEW_BASE, group, resource, verb);
    } else {
      assert forall g :: g in Served(bindings) ==> g in groups;
    }
  }

  /** On a Cluster API group, admin reads what is served and writes clusters alone; view reads. */
  lemma {:induction false} OnClusterApiGroups(bindings: seq<Binding>, group: string, resource: string, verb: string)
    requires IsClusterApi(group)
    ensures Grants(Admin(bindings), group, resource, verb) <==>
              || (verb in READ && group in Served(bindings))
              || (verb in WRITE && group == CLUSTER_API_GROUP && resource == WRITABLE_RESOURCE
                  && Served(bindings) != {})
    ensures Grants(View(bindings), group, resource, verb) <==> verb in READ && group in Served(bindings)
  {
    AdminMeaning(bindings, group, resource, verb);
    ViewMeaning(bindings, group, resource, verb);
    assert |CLUSTER_API_GROUP| == 16 && |"apis.kcp.io"| == 11 && |"core.kcp.io"| == 11 && |""| == 0;
  }

  /** Looking is not logging in: a cluster's kubeconfig is a core Secret. */
  lemma {:induction false} ViewNeverSeesSecrets(bindings: seq<Binding>, verb: string)
    ensures !Grants(View(bindings), "", "secrets", verb)
  {
    ViewMeaning(bindings, "", "secrets", verb);
    NoWildcard(bindings);
  }

  lemma {:induction false} ViewIsWithinAdmin(bindings: seq<Binding>, group: string, resource: string, verb: string)
    requires Grants(View(bindings), group, resource, verb)
    ensures Grants(Admin(bindings), group, resource, verb)
  {
    AdminMeaning(bindings, group, resource, verb);
    ViewMeaning(bindings, group, resource, verb);
  }

  /** Serving more never takes a grant away. */
  lemma {:induction false} GrantsAreMonotone(fewer: seq<Binding>, more: seq<Binding>, group: string,
      resource: string, verb: string)
    requires forall g :: IsServed(fewer, g) ==> IsServed(more, g)
    ensures Grants(Admin(fewer), group, resource, verb) ==> Grants(Admin(more), group, resource, verb)
    ensures Grants(View(fewer), group, resource, verb) ==> Grants(View(more), group, resource, verb)
  {
    forall g | g in Served(fewer) ensures g in Served(more) {
      ServedMeaning(fewer, g);
      ServedMeaning(more, g);
    }
    AdminMeaning(fewer, group, resource, verb);
    AdminMeaning(more, group, resource, verb);
    ViewMeaning(fewer, group, resource, verb);
    ViewMeaning(more, group, resource, verb);
  }

  /** The roles depend on which groups are served, not on how the bindings list them. */
  lemma {:induction false} RolesIgnoreOrder(a: seq<Binding>, b: seq<Binding>)
    requires forall g :: IsServed(a, g) <==> IsServed(b, g)
    ensures RolesFor(InStringOrder(Served(a))) == RolesFor(InStringOrder(Served(b)))
  {
    forall g ensures g in Served(a) <==> g in Served(b) {
      ServedMeaning(a, g);
      ServedMeaning(b, g);
    }
    assert Served(a) == Served(b);
  }
}
