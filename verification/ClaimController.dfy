/** The claim controller of `internal/capiexports`: discovering provider exports and keeping
    every export's claim list what the installation implies. The API server is a map. */
module ClaimController {
  import opened Options
  import opened Ordering
  import opened Claims

  const CONTRACT_LABEL := "cluster.x-k8s.io/provider-contract"
  const KNOWN_CONTRACTS: seq<Contract> := ["core", "bootstrap", "control-plane", "infrastructure"]

  datatype Published = Published(group: string, name: string)

  datatype Export = Export(
    name: string, labels: map<string, string>, identity: string, resources: seq<Published>, claims: seq<Claim>)

  /** The exports on the server, by name. */
  type Store = map<string, Export>

  predicate WellNamed(store: Store) { forall n :: n in store ==> store[n].name == n }

  // ----- Discovery -----

  function ContractOf(e: Export): Contract {
    if CONTRACT_LABEL in e.labels then e.labels[CONTRACT_LABEL] else ""
  }

  /** Labelled with a contract this project knows, and given an identity by the server. */
  predicate Discoverable(e: Export) { ContractOf(e) in KNOWN_CONTRACTS && e.identity != "" }

  function DiscoveryOf(e: Export): Discovered {
    Discovered(e.name, ContractOf(e), e.identity,
      seq(|e.resources|, i requires 0 <= i < |e.resources| => Resource(e.resources[i].group, e.resources[i].name, [])))
  }

  predicate ByExport(a: Discovered, b: Discovered) { Less(a.exportName, b.exportName) }

  lemma ByExportIsOrder()
    ensures StrictWeakOrder(ByExport)
  {
    LessIsOrder();
    forall x: Discovered, y: Discovered, z: Discovered | !ByExport(y, x) && !ByExport(z, y) ensures !ByExport(z, x) {
      assert x.exportName == y.exportName || Less(x.exportName, y.exportName);
      assert y.exportName == z.exportName || Less(y.exportName, z.exportName);
    }
  }

  /** The exports on the server in one of the orders a listing may come in. */
  ghost predicate Listing(store: Store, exports: seq<Export>) {
    && (forall e :: e in exports <==> e.name in store && store[e.name] == e)
    && (forall i, j :: 0 <= i < j < |exports| ==> exports[i].name != exports[j].name)
  }

  ghost function DiscoverableNames(store: Store): set<string> { set n | n in store && Discoverable(store[n]) }

  /** The discoverable exports of a store, in name order. */
  ghost function DiscoveredIn(store: Store): (r: seq<Discovered>)
    requires WellNamed(store)
  {
    var names := InStringOrder(DiscoverableNames(store));
    seq(|names|, i requires 0 <= i < |names| =>
      assert names[i] in DiscoverableNames(store); DiscoveryOf(store[names[i]]))
  }

  function Found(exports: seq<Export>): seq<Discovered> {
    if exports == [] then []
    else
      var e := exports[|exports| - 1];
      Found(exports[..|exports| - 1]) + if Discoverable(e) then [DiscoveryOf(e)] else []
  }

  method Discover(exports: seq<Export>, ghost store: Store) returns (r: seq<Discovered>)
    requires WellNamed(store) && Listing(store, exports)
    ensures r == DiscoveredIn(store)
  {
    var discovered: seq<Discovered> := [];
    for i := 0 to |exports|
      invariant discovered == Found(exports[..i])
    {
      var e := exports[i];
      assert exports[..i + 1][..i] == exports[..i];
      if ContractOf(e) in KNOWN_CONTRACTS {
        if e.identity != "" {
          discovered := discovered + [DiscoveryOf(e)];
        }
      }
    }
    assert exports[..|exports|] == exports;
    ByExportIsOrder();
    r := SortFunc(discovered, ByExport);
    SortedDiscovery(exports, store, r);
  }

  lemma {:induction false} InFound(exports: seq<Export>, d: Discovered)
    ensures d in Found(exports) <==> exists e :: e in exports && Discoverable(e) && d == DiscoveryOf(e)
  {
    if exports != [] {
      var init, last := exports[..|exports| - 1], exports[|exports| - 1];
      InFound(init, d);
      assert exports == init + [last] && last in exports;
    }
  }

  lemma {:induction false} FoundOnce(exports: seq<Export>, d: Discovered)
    requires forall i, j :: 0 <= i < j < |exports| ==> exports[i].name != exports[j].name
    ensures forall c :: c in Found(exports) && c.exportName == d.exportName ==> multiset(Found(exports))[c] == 1
    ensures forall c, c' :: c in Found(exports) && c' in Found(exports) && c.exportName == c'.exportName ==> c == c'
  {
    if exports != [] {
      var init, last := exports[..|exports| - 1], exports[|exports| - 1];
      FoundOnce(init, d);
      forall c | c in Found(init) ensures c.exportName != last.name {
        InFound(init, c);
      }
      assert DiscoveryOf(last) !in Found(init);
    }
  }

  lemma {:induction false} FoundInStore(exports: seq<Export>, store: Store, d: Discovered)
    requires WellNamed(store) && Listing(store, exports)
    ensures d in Found(exports) <==> d.exportName in DiscoverableNames(store) && d == DiscoveryOf(store[d.exportName])
  {
    InFound(exports, d);
    if d.exportName in DiscoverableNames(store) {
      assert store[d.exportName] in exports;
    }
  }

  lemma {:induction false} SortedStrictly(exports: seq<Export>, r: seq<Discovered>, i: nat, j: nat)
    requires forall k, l :: 0 <= k < l < |exports| ==> exports[k].name != exports[l].name
    requires multiset(r) == multiset(Found(exports)) && Sorted(ByExport, r) && i < j < |r|
    ensures Less(r[i].exportName, r[j].exportName)
  {
    SameMembers(r, Found(exports));
    FoundOnce(exports, r[i]);
    assert !ByExport(r[j], r[i]);
    LessTotal(r[i].exportName, r[j].exportName);
    assert r[i] in r && r[j] in r;
    OccursOnce(r, i, j);
  }

  function NamesOf(r: seq<Discovered>): (names: seq<string>)
    ensures |names| == |r| && forall i :: 0 <= i < |r| ==> names[i] == r[i].exportName
  {
    seq(|r|, i requires 0 <= i < |r| => r[i].exportName)
  }

  lemma {:induction false} DiscoveredNames(exports: seq<Export>, store: Store, r: seq<Discovered>)
    requires WellNamed(store) && Listing(store, exports)
    requires multiset(r) == multiset(Found(exports)) && Sorted(ByExport, r)
    ensures NamesOf(r) == InStringOrder(DiscoverableNames(store))
  {
    var names := NamesOf(r);
    SameMembers(r, Found(exports));
    forall i, j | 0 <= i < j < |names| ensures Less(names[i], names[j]) {
      SortedStrictly(exports, r, i, j);
    }
    forall n ensures n in names <==> n in DiscoverableNames(store) {
      if n in DiscoverableNames(store) {
        FoundInStore(exports, store, DiscoveryOf(store[n]));
        var j :| 0 <= j < |r| && r[j] == DiscoveryOf(store[n]);
        assert names[j] == n;
      }
      if n in names {
        var j :| 0 <= j < |r| && names[j] == n;
        assert r[j] in r;
        FoundInStore(exports, store, r[j]);
      }
    }
    LessIsOrder();
    SortedIsInOrder(Less, names, DiscoverableNames(store));
  }

  lemma {:induction false} SortedDiscovery(exports: seq<Export>, store: Store, r: seq<Discovered>)
    requires WellNamed(store) && Listing(store, exports)
    requires multiset(r) == multiset(Found(exports)) && Sorted(ByExport, r)
    ensures r == DiscoveredIn(store)
  {
    DiscoveredNames(exports, store, r);
    SameMembers(r, Found(exports));
    forall i | 0 <= i < |r| ensures r[i] == DiscoveredIn(store)[i] {
      assert r[i] in r;
      FoundInStore(exports, store, r[i]);
    }
  }

  function IdentitiesOf(discovered: seq<Discovered>): map<string, string> {
    if discovered == [] then map[]
    else IdentitiesOf(discovered[..|discovered| - 1])
         [discovered[|discovered| - 1].exportName := discovered[|discovered| - 1].identity]
  }

  method Identities(discovered: seq<Discovered>) returns (identities: map<string, string>)
    ensures identities == IdentitiesOf(discovered)
  {
    identities := map[];
    for i := 0 to |discovered|
      invariant identities == IdentitiesOf(discovered[..i])
    {
      assert discovered[..i + 1][..i] == discovered[..i];
      identities := identities[discovered[i].exportName := discovered[i].identity];
    }
    assert discovered[..|discovered|] == discovered;
  }

  lemma {:induction false} IdentitiesMeaning(discovered: seq<Discovered>, e: string)
    ensures e in IdentitiesOf(discovered) <==> exists d :: d in discovered && d.exportName == e
    ensures e in IdentitiesOf(discovered) ==>
            exists d :: d in discovered && d.exportName == e && d.identity == IdentitiesOf(discovered)[e]
  {
    if discovered != [] {
      var init, last := discovered[..|discovered| - 1], discovered[|discovered| - 1];
      IdentitiesMeaning(init, e);
      assert discovered == init + [last];
      assert last in discovered;
    }
  }

  // ----- Reconciling -----

  /** The claim list the export of a provider should carry, given what is on the server. */
  ghost function Desired(p: Provider, store: Store): seq<Claim>
    requires WellNamed(store)
  {
    WantedClaims(p, IdentitiesOf(DiscoveredIn(store)), DiscoveredIn(store))
  }

  datatype Want = Want(exportName: string, claims: seq<Claim>)

  ghost function WantsOf(providers: seq<Provider>, store: Store): (wants: seq<Want>)
    requires WellNamed(store)
    ensures |wants| == |providers|
    ensures forall i :: 0 <= i < |wants| ==> wants[i] == Want(providers[i].exportName, Desired(providers[i], store))
  {
    seq(|providers|, i requires 0 <= i < |providers| => Want(providers[i].exportName, Desired(providers[i], store)))
  }

  datatype Pass = Pass(store: Store, updated: seq<string>, missing: Option<string>)

  /** One pass: each export in turn is rewritten if it differs from what is wanted of it,
      up to the first export the server does not have. */
  function PassOver(store: Store, wants: seq<Want>): Pass {
    if wants == [] then Pass(store, [], None)
    else
      var before := PassOver(store, wants[..|wants| - 1]);
      var want := wants[|wants| - 1];
      if before.missing.Some? then before
      else if want.exportName !in before.store then Pass(before.store, before.updated, Some(want.exportName))
      else if before.store[want.exportName].claims == want.claims then before
      else
        Pass(before.store[want.exportName := before.store[want.exportName].(claims := want.claims)],
             before.updated + [want.exportName], None)
  }

  class Server {
    var exports: Store

    method List() returns (listing: seq<Export>)
      requires WellNamed(exports)
      ensures Listing(exports, listing)
    {
      listing := [];
      var rest := exports.Keys;
      while rest != {}
        invariant rest <= exports.Keys
        invariant forall e :: e in listing <==> e.name in exports.Keys - rest && exports[e.name] == e
        invariant forall i, j :: 0 <= i < j < |listing| ==> listing[i].name != listing[j].name
        decreases rest
      {
        var n :| n in rest;
        assert forall i :: 0 <= i < |listing| ==> listing[i] in listing;
        rest := rest - {n};
        listing := listing + [exports[n]];
      }
    }

    /** Reads the export, compares, and writes only what differs. */
    method SetClaims(name: string, claims: seq<Claim>) returns (found: bool, changed: bool)
      modifies this
      ensures found <==> name in old(exports)
      ensures changed <==> found && old(exports)[name].claims != claims
      ensures exports == if changed then old(exports)[name := old(exports)[name].(claims := claims)] else old(exports)
    {
      if name !in exports {
        return false, false;
      }
      if exports[name].claims == claims {
        return true, false;
      }
      exports := exports[name := exports[name].(claims := claims)];
      return true, true;
    }

    /** Brings every provider's export to its claims, in turn. */
    method SetAllClaims(providers: seq<Provider>, identities: map<string, string>, discovered: seq<Discovered>,
                        ghost wants: seq<Want>)
      returns (updated: seq<string>, missing: Option<string>)
      requires |wants| == |providers|
      requires forall i :: 0 <= i < |wants| ==>
        wants[i] == Want(providers[i].exportName, WantedClaims(providers[i], identities, discovered))
      modifies this
      ensures Pass(exports, updated, missing) == PassOver(old(exports), wants)
    {
      ghost var before := exports;
      updated, missing := [], None;
      for i := 0 to |providers|
        invariant Pass(exports, updated, None) == PassOver(before, wants[..i])
      {
        assert wants[..i + 1][..i] == wants[..i];
        var claims := ClaimsFor(providers[i], identities, discovered);
        assert wants[i] == Want(providers[i].exportName, claims);
        var found, changed := SetClaims(providers[i].exportName, claims);
        if !found {
          PassStops(before, wants, i);
          return updated, Some(providers[i].exportName);
        }
        if changed {
          updated := updated + [providers[i].exportName];
        }
      }
      assert wants[..|wants|] == wants;
    }

    /** Discovers once, from what is on the server before anything is written. */
    method ReconcileClaims(providers: seq<Provider>) returns (updated: seq<string>, missing: Option<string>)
      requires WellNamed(exports)
      modifies this
      ensures Pass(exports, updated, missing) == PassOver(old(exports), WantsOf(providers, old(exports)))
    {
      var listing := List();
      var discovered := Discover(listing, exports);
      var identities := Identities(discovered);
      updated, missing := SetAllClaims(providers, identities, discovered, WantsOf(providers, exports));
    }
  }

  lemma {:induction false} PassStops(store: Store, wants: seq<Want>, i: nat)
    requires i < |wants| && PassOver(store, wants[..i + 1]).missing.Some?
    ensures PassOver(store, wants) == PassOver(store, wants[..i + 1])
    decreases |wants|
  {
    if i == |wants| - 1 {
      assert wants[..i + 1] == wants;
    } else {
      var init := wants[..|wants| - 1];
      assert init[..i + 1] == wants[..i + 1];
      PassStops(store, init, i);
    }
  }

  // ----- What reconciling amounts to -----

  ghost predicate Distinct(wants: seq<Want>) {
    forall i, j :: 0 <= i < j < |wants| ==> wants[i].exportName != wants[j].exportName
  }

  /** No two wants for one export differ in the claims. */
  ghost predicate Consistent(wants: seq<Want>) {
    forall v, w :: v in wants && w in wants && v.exportName == w.exportName ==> v.claims == w.claims
  }

  ghost predicate AllPresent(store: Store, wants: seq<Want>) {
    forall w :: w in wants ==> w.exportName in store
  }

  ghost predicate Wanted(wants: seq<Want>, n: string) { exists w :: w in wants && w.exportName == n }

  /** after is before with exactly the wanted exports carrying exactly the wanted claims. */
  ghost predicate Overlaid(before: Store, wants: seq<Want>, after: Store) {
    && after.Keys == before.Keys
    && (forall w :: w in wants && w.exportName in before ==>
            after[w.exportName] == before[w.exportName].(claims := w.claims))
    && (forall n :: n in before && !Wanted(wants, n) ==> after[n] == before[n])
  }

  lemma {:induction false} OverlayStep(store: Store, init: seq<Want>, last: Want, after: Store)
    requires Overlaid(store, init, after) && last.exportName in store && Consistent(init + [last])
    ensures Overlaid(store, init + [last], after[last.exportName := after[last.exportName].(claims := last.claims)])
  {
    var wants, n := init + [last], last.exportName;
    assert forall w :: w in wants <==> w in init || w == last;
    assert forall m :: Wanted(wants, m) <==> Wanted(init, m) || m == n;
    assert after[n].(claims := last.claims) == store[n].(claims := last.claims) by {
      if Wanted(init, n) {
        var w :| w in init && w.exportName == n;
      }
    }
    assert forall w :: w in init && w.exportName == n ==> w.claims == last.claims;
  }

  lemma {:induction false} Rewriting(store: Store, n: string)
    requires n in store
    ensures store[n := store[n].(claims := store[n].claims)] == store
  {
  }

  /** A pass over present exports, consistently wanted, gives each its claims and changes nothing else. */
  lemma {:induction false} PassOverlays(store: Store, wants: seq<Want>)
    requires Consistent(wants) && AllPresent(store, wants)
    ensures PassOver(store, wants).missing == None
    ensures Overlaid(store, wants, PassOver(store, wants).store)
  {
    if wants != [] {
      var init, last := wants[..|wants| - 1], wants[|wants| - 1];
      assert wants == init + [last];
      assert last in wants && forall w :: w in init ==> w in wants;
      PassOverlays(store, init);
      var after := PassOver(store, init).store;
      OverlayStep(store, init, last, after);
      Rewriting(after, last.exportName);
    }
  }

  /** The exports whose claims differ from what is wanted of them, in the order of the wants. */
  function Differing(store: Store, wants: seq<Want>): seq<string> {
    if wants == [] then []
    else
      var w := wants[|wants| - 1];
      Differing(store, wants[..|wants| - 1]) +
      if w.exportName in store && store[w.exportName].claims != w.claims then [w.exportName] else []
  }

  lemma {:induction false} DifferingMeaning(store: Store, wants: seq<Want>, n: string)
    ensures n in Differing(store, wants) <==>
              exists w :: w in wants && w.exportName == n && n in store && store[n].claims != w.claims
  {
    if wants != [] {
      var init, last := wants[..|wants| - 1], wants[|wants| - 1];
      DifferingMeaning(store, init, n);
      assert wants == init + [last];
      assert last in wants;
    }
  }

  /** A pass leaves an export alone until its turn. */
  lemma {:induction false} NotYetTouched(store: Store, wants: seq<Want>, n: string)
    requires !Wanted(wants, n)
    ensures n in PassOver(store, wants).store <==> n in store
    ensures n in store ==> PassOver(store, wants).store[n] == store[n]
  {
    if wants != [] {
      var init, last := wants[..|wants| - 1], wants[|wants| - 1];
      assert last in wants && forall w :: w in init ==> w in wants;
      NotYetTouched(store, init, n);
    }
  }

  /** A pass reports exactly the exports whose claims it found to differ. */
  lemma {:induction false} PassReports(store: Store, wants: seq<Want>)
    requires Distinct(wants) && AllPresent(store, wants)
    ensures PassOver(store, wants).updated == Differing(store, wants)
  {
    if wants != [] {
      var init, last := wants[..|wants| - 1], wants[|wants| - 1];
      assert wants == init + [last];
      assert last in wants;
      PassReports(store, init);
      PassFailsOnAbsence(store, init);
      assert forall w :: w in init ==> w.exportName != last.exportName;
      NotYetTouched(store, init, last.exportName);
    }
  }

  /** When some wanted export is absent, a pass ends at the first that is, with the store and the
      report of the wants before it. */
  lemma {:induction false} PassEndsAtFirstAbsent(store: Store, wants: seq<Want>) returns (i: nat)
    requires !AllPresent(store, wants)
    ensures i < |wants| && wants[i].exportName !in store && AllPresent(store, wants[..i])
    ensures PassOver(store, wants) ==
              Pass(PassOver(store, wants[..i]).store, PassOver(store, wants[..i]).updated, Some(wants[i].exportName))
  {
    i := 0;
    while wants[i].exportName in store
      invariant i < |wants| && AllPresent(store, wants[..i])
      decreases |wants| - i
    {
      assert wants[..i + 1] == wants[..i] + [wants[i]];
      i := i + 1;
    }
    AbsentEnds(store, wants, i);
    PassStops(store, wants, i);
  }

  lemma {:induction false} AbsentEnds(store: Store, wants: seq<Want>, i: nat)
    requires i < |wants| && wants[i].exportName !in store && AllPresent(store, wants[..i])
    ensures PassOver(store, wants[..i + 1]) ==
              Pass(PassOver(store, wants[..i]).store, PassOver(store, wants[..i]).updated, Some(wants[i].exportName))
  {
    assert wants[..i + 1][..i] == wants[..i];
    PassFailsOnAbsence(store, wants[..i]);
  }

  /** A pass stops with an error exactly when some wanted export is absent. */
  lemma {:induction false} PassFailsOnAbsence(store: Store, wants: seq<Want>)
    ensures PassOver(store, wants).missing.Some? <==> !AllPresent(store, wants)
    ensures PassOver(store, wants).store.Keys == store.Keys
  {
    if wants != [] {
      var init, last := wants[..|wants| - 1], wants[|wants| - 1];
      assert wants == init + [last];
      assert last in wants;
      PassFailsOnAbsence(store, init);
    }
  }

  /** A pass succeeds and writes nothing exactly when every wanted export is there with its claims. */
  lemma {:induction false} QuietExactlyWhen(store: Store, wants: seq<Want>)
    ensures PassOver(store, wants) == Pass(store, [], None) <==>
              forall w :: w in wants ==> w.exportName in store && store[w.exportName].claims == w.claims
    ensures PassOver(store, wants).updated == [] ==> PassOver(store, wants).store == store
  {
    if wants != [] {
      var init, last := wants[..|wants| - 1], wants[|wants| - 1];
      assert wants == init + [last];
      assert last in wants && forall w :: w in wants <==> w in init || w == last;
      QuietExactlyWhen(store, init);
    }
  }

  /** Two stores that differ, if at all, in the claims on their exports. */
  ghost predicate SameButClaims(a: Store, b: Store) {
    && a.Keys == b.Keys
    && forall n :: n in a ==> a[n].(claims := []) == b[n].(claims := [])
  }

  lemma {:induction false} DiscoveryIgnoresClaims(a: Export, b: Export)
    requires a.(claims := []) == b.(claims := [])
    ensures Discoverable(a) == Discoverable(b) && DiscoveryOf(a) == DiscoveryOf(b)
    ensures forall claims :: a.(claims := claims) == b.(claims := claims)
  {
    assert a == b.(claims := a.claims);
  }

  lemma {:induction false} ClaimsDoNotFeedDiscovery(a: Store, b: Store)
    requires WellNamed(a) && WellNamed(b) && SameButClaims(a, b)
    ensures DiscoveredIn(a) == DiscoveredIn(b)
  {
    forall n | n in a ensures Discoverable(a[n]) == Discoverable(b[n]) { DiscoveryIgnoresClaims(a[n], b[n]); }
    assert DiscoverableNames(a) == DiscoverableNames(b);
    var names := InStringOrder(DiscoverableNames(a));
    assert |DiscoveredIn(a)| == |names| == |DiscoveredIn(b)|;
    forall i | 0 <= i < |names| ensures DiscoveredIn(a)[i] == DiscoveredIn(b)[i] {
      assert names[i] in DiscoverableNames(a);
      DiscoveryIgnoresClaims(a[names[i]], b[names[i]]);
    }
  }

  /** Whatever is wanted, and whether or not it succeeds, a pass changes nothing but claims. */
  lemma {:induction false} PassChangesOnlyClaims(store: Store, wants: seq<Want>)
    requires WellNamed(store)
    ensures SameButClaims(store, PassOver(store, wants).store) && WellNamed(PassOver(store, wants).store)
  {
    if wants != [] {
      PassChangesOnlyClaims(store, wants[..|wants| - 1]);
    }
  }

  /** After a successful pass the exports carry what is wanted of them exactly when the wants are
      consistent: of two that differ, only the later can still be there. */
  lemma {:induction false} CarriedExactlyWhen(store: Store, wants: seq<Want>, after: Store)
    requires AllPresent(store, wants) && after == PassOver(store, wants).store
    ensures (forall w :: w in wants ==> w.exportName in after && after[w.exportName].claims == w.claims) <==>
              Consistent(wants)
  {
    if Consistent(wants) {
      PassOverlays(store, wants);
    }
  }

  /** Reconciling leaves the server at a fixpoint, where the next pass finds the same wants,
      succeeds and writes nothing, exactly when every wanted export is there and no two wants
      for one export differ. Then the listed exports have their claims and nothing else has
      changed. */
  lemma {:induction false} ReconcileReachesAFixpoint(providers: seq<Provider>, store: Store)
    requires WellNamed(store)
    ensures var wants := WantsOf(providers, store);
      var pass := PassOver(store, wants);
      && SameButClaims(store, pass.store) && WellNamed(pass.store)
      && WantsOf(providers, pass.store) == wants
      && (PassOver(pass.store, wants) == Pass(pass.store, [], None) <==> AllPresent(store, wants) && Consistent(wants))
      && (AllPresent(store, wants) && Consistent(wants) ==> pass.missing == None && Overlaid(store, wants, pass.store))
  {
    var wants := WantsOf(providers, store);
    var after := PassOver(store, wants).store;
    PassChangesOnlyClaims(store, wants);
    ClaimsDoNotFeedDiscovery(store, after);
    assert WantsOf(providers, after) == wants;
    QuietExactlyWhen(after, wants);
    PassFailsOnAbsence(after, wants);
    if AllPresent(store, wants) {
      CarriedExactlyWhen(store, wants, after);
      if Consistent(wants) { PassOverlays(store, wants); }
    }
  }

  /** Two that differ are rewritten twice by every later pass. */
  lemma {:induction false} ConflictingWantsAreRewritten(store: Store, n: string, one: seq<Claim>, other: seq<Claim>)
    requires n in store && one != other
    ensures var wants := [Want(n, one), Want(n, other)];
            PassOver(PassOver(store, wants).store, wants).updated == [n, n]
  {
    var first, wants := [Want(n, one)], [Want(n, one), Want(n, other)];
    assert wants[..1] == first && first[..0] == [];
    assert forall s: Store :: PassOver(s, []) == Pass(s, [], None);
    var after := PassOver(store, wants).store;
    assert PassOver(store, first).missing == None && n in PassOver(store, first).store;
    assert n in after && after[n].claims == other;
    assert PassOver(after, first).updated == [n];
  }

  /** From stores that differ only in claims, and with the providers in any order, a pass
      gives every listed export the same state, whatever an earlier, interrupted or foreign
      write had left on it. */
  lemma {:induction false} ReconcileIsSelfStabilising(providers: seq<Provider>, store: Store,
      others: seq<Provider>, prior: Store)
    requires WellNamed(store) && WellNamed(prior) && SameButClaims(store, prior)
    requires forall p :: p in providers <==> p in others
    requires Consistent(WantsOf(providers, store)) && AllPresent(store, WantsOf(providers, store))
    ensures var wants := WantsOf(providers, store);
      var one, two := PassOver(store, wants), PassOver(prior, WantsOf(others, prior));
      && one.missing == None && two.missing == None
      && (forall n :: Wanted(wants, n) ==> n in one.store && n in two.store && one.store[n] == two.store[n])
      && ((forall n :: n in store && !Wanted(wants, n) ==> store[n] == prior[n]) ==> one.store == two.store)
  {
    var wants, wants' := WantsOf(providers, store), WantsOf(others, prior);
    ClaimsDoNotFeedDiscovery(store, prior);
    forall w ensures w in wants <==> w in wants' { SameWants(providers, store, others, prior, w); }
    PassOverlays(store, wants);
    assert AllPresent(prior, wants');
    PassOverlays(prior, wants');
    SameOverlays(store, wants, PassOver(store, wants).store, prior, wants', PassOver(prior, wants').store);
  }

  lemma {:induction false} SameOverlays(a: Store, wants: seq<Want>, one: Store, b: Store, wants': seq<Want>, two: Store)
    requires SameButClaims(a, b) && AllPresent(a, wants)
    requires Overlaid(a, wants, one) && Overlaid(b, wants', two)
    requires forall w :: w in wants <==> w in wants'
    ensures forall n :: Wanted(wants, n) ==> n in one && n in two && one[n] == two[n]
    ensures (forall n :: n in a && !Wanted(wants, n) ==> a[n] == b[n]) ==> one == two
  {
    forall n | Wanted(wants, n) ensures n in one && n in two && one[n] == two[n] {
      var w :| w in wants && w.exportName == n;
      DiscoveryIgnoresClaims(a[n], b[n]);
      assert one[n] == a[n].(claims := w.claims) == b[n].(claims := w.claims) == two[n];
    }
    forall n ensures Wanted(wants, n) <==> Wanted(wants', n) {}
  }

  lemma {:induction false} SameWants(providers: seq<Provider>, store: Store, others: seq<Provider>,
      prior: Store, w: Want)
    requires WellNamed(store) && WellNamed(prior) && DiscoveredIn(store) == DiscoveredIn(prior)
    requires forall p :: p in providers <==> p in others
    ensures w in WantsOf(providers, store) <==> w in WantsOf(others, prior)
  {
    if w in WantsOf(providers, store) { WantsCarryOver(providers, store, others, prior, w); }
    if w in WantsOf(others, prior) { WantsCarryOver(others, prior, providers, store, w); }
  }

  lemma {:induction false} WantsCarryOver(providers: seq<Provider>, store: Store, others: seq<Provider>,
      prior: Store, w: Want)
    requires WellNamed(store) && WellNamed(prior) && DiscoveredIn(store) == DiscoveredIn(prior)
    requires forall p :: p in providers ==> p in others
    requires w in WantsOf(providers, store)
    ensures w in WantsOf(others, prior)
  {
    var i :| 0 <= i < |providers| && WantsOf(providers, store)[i] == w;
    assert providers[i] in others;
    var j :| 0 <= j < |others| && others[j] == providers[i];
    assert WantsOf(others, prior)[j] == w;
  }

  // ----- Where a claim comes from -----

  lemma {:induction false} InDiscovered(store: Store, d: Discovered)
    requires WellNamed(store)
    ensures d in DiscoveredIn(store) <==>
              d.exportName in DiscoverableNames(store) && d == DiscoveryOf(store[d.exportName])
  {
    var names := InStringOrder(DiscoverableNames(store));
    if d.exportName in DiscoverableNames(store) {
      assert d.exportName in names;
      var i :| 0 <= i < |names| && names[i] == d.exportName;
      assert DiscoveredIn(store)[i] == DiscoveryOf(store[d.exportName]);
    }
    if d in DiscoveredIn(store) {
      var i :| 0 <= i < |names| && DiscoveredIn(store)[i] == d;
      assert names[i] in DiscoverableNames(store);
    }
  }

  lemma {:induction false} IdentityOf(store: Store, e: string)
    requires WellNamed(store)
    ensures var ids := IdentitiesOf(DiscoveredIn(store));
      && (Known(ids, e) <==> e in DiscoverableNames(store))
      && (e in DiscoverableNames(store) ==> ids[e] == store[e].identity)
  {
    var found := DiscoveredIn(store);
    IdentitiesMeaning(found, e);
    if e in DiscoverableNames(store) {
      InDiscovered(store, DiscoveryOf(store[e]));
    }
    if e in IdentitiesOf(found) {
      var d :| d in found && d.exportName == e && d.identity == IdentitiesOf(found)[e];
      InDiscovered(store, d);
    }
  }

  /** A claim is there because somebody contributed its key. */
  lemma {:induction false} ClaimHasAReason(p: Provider, identities: map<string, string>,
      discovered: seq<Discovered>, claim: Claim)
    returns (c: Contribution)
    requires claim in WantedClaims(p, identities, discovered)
    ensures c.key == claim.KeyOf() && Wants(p, identities, discovered, c)
  {
    var cs := Contributions(p, identities, discovered);
    ClaimIsForItsKey(Collect(map[], cs), claim);
    CollectMeaning(map[], cs, claim.KeyOf());
    c :| c in cs && c.key == claim.KeyOf();
    ContributionsAreWants(p, identities, discovered, c);
  }

  /** The key of a contribution from a discovered export carries that export's identity. */
  lemma {:induction false} FoundIdentity(p: Provider, f: Discovered, c: Contribution)
    requires c in FromFound(p, f)
    ensures c.key.identity == f.identity && f.exportName != p.exportName
  {
  }

  // ----- What is claimed, in terms of the server -----

  /** The export is one of a provider the project knows, of this contract, with an identity. */
  predicate Provides(store: Store, n: string, contract: Contract) {
    && n in store && store[n].identity != "" && "cluster.x-k8s.io/provider-contract" in store[n].labels
    && store[n].labels["cluster.x-k8s.io/provider-contract"] == contract
    && contract in ["core", "bootstrap", "control-plane", "infrastructure"]
  }

  predicate Publishes(e: Export, group: string, resource: string) {
    exists i :: 0 <= i < |e.resources| && e.resources[i].group == group && e.resources[i].name == resource
  }

  lemma {:induction false} ProvidesMeaning(store: Store, n: string)
    ensures n in DiscoverableNames(store) <==> exists c :: Provides(store, n, c)
    ensures n in DiscoverableNames(store) ==> Provides(store, n, ContractOf(store[n]))
    ensures forall c :: Provides(store, n, c) ==> c == ContractOf(store[n])
  {
    if n in DiscoverableNames(store) { assert Provides(store, n, ContractOf(store[n])); }
  }

  lemma {:induction false} PublishedMeaning(e: Export, group: string, resource: string)
    ensures (exists r :: r in DiscoveryOf(e).resources && IsOf(r, group, resource)) <==> Publishes(e, group, resource)
  {
    var listed := DiscoveryOf(e).resources;
    forall i | 0 <= i < |listed| ensures listed[i] == Resource(e.resources[i].group, e.resources[i].name, []) {}
    if r :| r in listed && IsOf(r, group, resource) {
      var i :| 0 <= i < |listed| && listed[i] == r;
      assert e.resources[i].group == group;
    }
    if i :| 0 <= i < |e.resources| && e.resources[i].group == group && e.resources[i].name == resource {
      assert IsOf(listed[i], group, resource) && listed[i] in listed;
    }
  }

  /** Discovered are exactly the provider exports, each with what the server says of it. */
  lemma {:induction false} DiscoveryMeaning(store: Store, d: Discovered)
    requires WellNamed(store) && d in DiscoveredIn(store)
    ensures Provides(store, d.exportName, d.contract) && d.identity == store[d.exportName].identity
    ensures forall group, resource :: (exists r :: r in d.resources && IsOf(r, group, resource)) <==>
              Publishes(store[d.exportName], group, resource)
  {
    InDiscovered(store, d);
    ProvidesMeaning(store, d.exportName);
    forall group, resource
      ensures (exists r :: r in d.resources && IsOf(r, group, resource)) <==>
                Publishes(store[d.exportName], group, resource)
    {
      PublishedMeaning(store[d.exportName], group, resource);
    }
  }

  lemma {:induction false} EveryProviderIsDiscovered(store: Store, n: string, contract: Contract)
    returns (d: Discovered)
    requires WellNamed(store) && Provides(store, n, contract)
    ensures d in DiscoveredIn(store) && d.exportName == n && d.contract == contract
  {
    ProvidesMeaning(store, n);
    d := DiscoveryOf(store[n]);
    InDiscovered(store, d);
  }

  /** A core claim lists the resource with the verb; or an export the provider names, which the server
      has given this identity, has it so listed; or another provider export of this identity
      publishes it, and its contract's resources are claimed for the verb. */
  ghost predicate AskedOf(p: Provider, store: Store, key: Key, verb: string) {
    || (key.identity == "" && exists r :: r in p.coreClaims && IsOf(r, key.group, key.resource) && verb in r.verbs)
    || (exists e, c, r :: e in p.providerClaims && Provides(store, e, c) && store[e].identity == key.identity
          && r in p.providerClaims[e] && IsOf(r, key.group, key.resource) && verb in r.verbs)
    || (exists n, c :: n != p.exportName && Provides(store, n, c) && store[n].identity == key.identity
          && c in p.discoveredClaims && verb in p.discoveredClaims[c] && Publishes(store[n], key.group, key.resource))
  }

  lemma {:induction false} AskedOfServer(p: Provider, store: Store, key: Key, verb: string)
    requires WellNamed(store)
    ensures Asked(p, IdentitiesOf(DiscoveredIn(store)), DiscoveredIn(store), key, verb) <==>
              AskedOf(p, store, key, verb)
  {
    var found := DiscoveredIn(store);
    var ids := IdentitiesOf(found);
    forall e, r | e in p.providerClaims && r in p.providerClaims[e]
      ensures (e in ids && ids[e] == key.identity != "") <==>
                exists c :: Provides(store, e, c) && store[e].identity == key.identity
    {
      IdentityOf(store, e);
      ProvidesMeaning(store, e);
    }
    forall f, r | f in found && r in f.resources && IsOf(r, key.group, key.resource)
      ensures Provides(store, f.exportName, f.contract) && f.identity == store[f.exportName].identity
      ensures Publishes(store[f.exportName], key.group, key.resource)
    {
      DiscoveryMeaning(store, f);
    }
    forall n, c | Provides(store, n, c) && Publishes(store[n], key.group, key.resource)
      ensures exists f, r :: f in found && f.exportName == n && f.contract == c && f.identity == store[n].identity
                && r in f.resources && IsOf(r, key.group, key.resource)
    {
      var f := EveryProviderIsDiscovered(store, n, c);
      DiscoveryMeaning(store, f);
      var r :| r in f.resources && IsOf(r, key.group, key.resource);
    }
  }

  /** What a claim on the export of a provider grants, from what is on the server. */
  lemma {:induction false} DesiredMeaning(p: Provider, store: Store, claim: Claim, verb: string)
    requires WellNamed(store) && claim in Desired(p, store)
    ensures Claims.Grants(claim.verbs, verb) <==>
              || AskedOf(p, store, claim.KeyOf(), verb) || AskedOf(p, store, claim.KeyOf(), "*")
              || forall v :: !AskedOf(p, store, claim.KeyOf(), v)
  {
    var found := DiscoveredIn(store);
    GrantedAsAsked(p, IdentitiesOf(found), found, claim, verb);
    AskedOfServer(p, store, claim.KeyOf(), verb);
    AskedOfServer(p, store, claim.KeyOf(), "*");
    NothingAsked(p, store, claim.KeyOf());
  }

  lemma {:induction false} NothingAsked(p: Provider, store: Store, key: Key)
    requires WellNamed(store)
    ensures (forall v :: !Asked(p, IdentitiesOf(DiscoveredIn(store)), DiscoveredIn(store), key, v)) <==>
              forall v :: !AskedOf(p, store, key, v)
  {
    if v :| AskedOf(p, store, key, v) {
      AskedOfServer(p, store, key, v);
      assert Asked(p, IdentitiesOf(DiscoveredIn(store)), DiscoveredIn(store), key, v);
    }
    if v :| Asked(p, IdentitiesOf(DiscoveredIn(store)), DiscoveredIn(store), key, v) {
      AskedOfServer(p, store, key, v);
      assert AskedOf(p, store, key, v);
    }
  }

  /** Whatever is asked for is claimed. */
  lemma {:induction false} AskedIsClaimed(p: Provider, store: Store, key: Key, verb: string)
    requires WellNamed(store) && AskedOf(p, store, key, verb)
    ensures exists claim :: claim in Desired(p, store) && claim.KeyOf() == key && Claims.Grants(claim.verbs, verb)
  {
    var found := DiscoveredIn(store);
    AskedOfServer(p, store, key, verb);
    ClaimsMeaning(p, IdentitiesOf(found), found, key);
    assert Mentioned(p, IdentitiesOf(found), found, key);
    var claim :| claim in Desired(p, store) && claim.KeyOf() == key;
    DesiredMeaning(p, store, claim, verb);
  }

  /** After a successful pass over consistent wants, the claims on the export of a provider grant what
      the core claims, the named exports and the other providers on the server ask for, no less and,
      but for defaults, no more. */
  lemma {:induction false} ReconciledClaims(providers: seq<Provider>, store: Store, p: Provider)
    requires WellNamed(store) && p in providers
    requires AllPresent(store, WantsOf(providers, store)) && Consistent(WantsOf(providers, store))
    ensures var after := PassOver(store, WantsOf(providers, store)).store;
      && p.exportName in after && after[p.exportName].claims == Desired(p, store)
    ensures forall claim, verb :: claim in Desired(p, store) ==>
              (Claims.Grants(claim.verbs, verb) <==>
                || AskedOf(p, store, claim.KeyOf(), verb) || AskedOf(p, store, claim.KeyOf(), "*")
                || forall v :: !AskedOf(p, store, claim.KeyOf(), v))
  {
    var wants := WantsOf(providers, store);
    PassOverlays(store, wants);
    var i :| 0 <= i < |providers| && providers[i] == p;
    assert wants[i] in wants && wants[i] == Want(p.exportName, Desired(p, store));
    forall claim, verb | claim in Desired(p, store)
      ensures Claims.Grants(claim.verbs, verb) <==>
                || AskedOf(p, store, claim.KeyOf(), verb) || AskedOf(p, store, claim.KeyOf(), "*")
                || forall v :: !AskedOf(p, store, claim.KeyOf(), v)
    {
      DesiredMeaning(p, store, claim, verb);
    }
  }

  /** Only what a provider claims of the types every workspace serves has no identity. */
  lemma {:induction false} EmptyIdentityIsCore(p: Provider, store: Store, claim: Claim)
    requires WellNamed(store) && claim in Desired(p, store) && claim.identity == ""
    ensures exists r :: r in p.coreClaims && r.group == claim.group && r.resource == claim.resource
  {
    var found := DiscoveredIn(store);
    var c := ClaimHasAReason(p, IdentitiesOf(found), found, claim);
    if f :| f in found && c in FromFound(p, f) {
      FoundIdentity(p, f, c);
      InDiscovered(store, f);
    }
    InUnder(p.coreClaims, "", c);
  }

  ghost predicate IdentitiesInjective(store: Store) {
    forall m, n | m in DiscoverableNames(store) && n in DiscoverableNames(store) ::
      store[m].identity == store[n].identity ==> m == n
  }

  /** With identities told apart, an export that does not name itself claims nothing of its own. */
  lemma {:induction false} NoClaimOnOneself(p: Provider, store: Store, claim: Claim)
    requires WellNamed(store) && IdentitiesInjective(store)
    requires p.exportName in DiscoverableNames(store) && p.exportName !in p.providerClaims
    requires claim in Desired(p, store)
    ensures claim.identity != store[p.exportName].identity
  {
    var found := DiscoveredIn(store);
    var ids := IdentitiesOf(found);
    var c := ClaimHasAReason(p, ids, found, claim);
    if e :| e in p.providerClaims && c in FromNamed(p, ids, e) {
      IdentityOf(store, e);
    } else if f :| f in found && c in FromFound(p, f) {
      FoundIdentity(p, f, c);
      InDiscovered(store, f);
    }
  }

  // ----- Installing another provider -----

  /** Every verb list that can contribute says something. */
  ghost predicate VerbsGiven(p: Provider) {
    && (forall r :: r in p.coreClaims ==> r.verbs != [])
    && (forall e, r :: e in p.providerClaims && r in p.providerClaims[e] ==> r.verbs != [])
    && (forall k :: k in p.discoveredClaims ==> p.discoveredClaims[k] != [])
  }

  lemma {:induction false} ContributionsGiveVerbs(p: Provider, identities: map<string, string>,
      discovered: seq<Discovered>, c: Contribution)
    requires VerbsGiven(p) && Wants(p, identities, discovered, c)
    ensures c.verbs != []
  {
    InUnder(p.coreClaims, "", c);
    if e :| e in p.providerClaims && c in FromNamed(p, identities, e) {
      InUnder(p.providerClaims[e], identities[e], c);
    }
  }

  lemma {:induction false} NamedSurvives(p: Provider, store: Store, e: Export, n: string, c: Contribution)
    requires WellNamed(store) && e.name !in store
    requires c in FromNamed(p, IdentitiesOf(DiscoveredIn(store)), n)
    ensures c in FromNamed(p, IdentitiesOf(DiscoveredIn(store[e.name := e])), n)
  {
    IdentityOf(store, n);
    IdentityOf(store[e.name := e], n);
  }

  lemma {:induction false} FoundSurvives(store: Store, e: Export, f: Discovered)
    requires WellNamed(store) && e.name !in store && f in DiscoveredIn(store)
    ensures f in DiscoveredIn(store[e.name := e])
  {
    InDiscovered(store, f);
    InDiscovered(store[e.name := e], f);
  }

  lemma {:induction false} WantsSurvive(p: Provider, store: Store, e: Export, c: Contribution)
    requires WellNamed(store) && e.name !in store
    requires Wants(p, IdentitiesOf(DiscoveredIn(store)), DiscoveredIn(store), c)
    ensures var after := store[e.name := e]; Wants(p, IdentitiesOf(DiscoveredIn(after)), DiscoveredIn(after), c)
  {
    var ids := IdentitiesOf(DiscoveredIn(store));
    if n :| n in p.providerClaims && c in FromNamed(p, ids, n) {
      NamedSurvives(p, store, e, n, c);
    } else if f :| f in DiscoveredIn(store) && c in FromFound(p, f) {
      FoundSurvives(store, e, f);
    }
  }

  lemma {:induction false} ContributionsSurvive(p: Provider, store: Store, e: Export)
    requires WellNamed(store) && e.name !in store
    ensures forall c :: c in ContributionsIn(p, store) ==> c in ContributionsIn(p, store[e.name := e])
  {
    var after := store[e.name := e];
    forall c | c in ContributionsIn(p, store) ensures c in ContributionsIn(p, after) {
      ContributionsAreWants(p, IdentitiesOf(DiscoveredIn(store)), DiscoveredIn(store), c);
      WantsSurvive(p, store, e, c);
      ContributionsAreWants(p, IdentitiesOf(DiscoveredIn(after)), DiscoveredIn(after), c);
    }
  }

  ghost function ContributionsIn(p: Provider, store: Store): seq<Contribution>
    requires WellNamed(store)
  {
    Contributions(p, IdentitiesOf(DiscoveredIn(store)), DiscoveredIn(store))
  }

  lemma {:induction false} GivenVerbsAreCollected(cs: seq<Contribution>, c: Contribution)
    requires c in cs && c.verbs != []
    ensures VerbsFor(Collect(map[], cs), c.key) != {}
  {
    CollectMeaning(map[], cs, c.key);
    assert c.verbs[0] in c.verbs;
    assert Names(c, c.key, c.verbs[0]);
    assert c.verbs[0] in VerbsFor(Collect(map[], cs), c.key);
  }

  lemma {:induction false} CollectAbsorbs(cs: seq<Contribution>, more: seq<Contribution>)
    requires forall c :: c in cs ==> c in more
    ensures Collect(map[], cs + more) == Collect(map[], more)
  {
    CollectIgnoresOrder(cs + more, more);
  }

  lemma {:induction false} ClaimGivesVerbs(p: Provider, store: Store, claim: Claim)
    requires WellNamed(store) && VerbsGiven(p) && claim in Desired(p, store)
    ensures VerbsFor(Collect(map[], ContributionsIn(p, store)), claim.KeyOf()) != {}
  {
    var found := DiscoveredIn(store);
    var c := ClaimHasAReason(p, IdentitiesOf(found), found, claim);
    ContributionsGiveVerbs(p, IdentitiesOf(found), found, c);
    ContributionsAreWants(p, IdentitiesOf(found), found, c);
    GivenVerbsAreCollected(ContributionsIn(p, store), c);
  }

  lemma {:induction false} WiderClaim(cs: seq<Contribution>, more: seq<Contribution>, claim: Claim)
    returns (wider: Claim)
    requires claim in ClaimsOf(Collect(map[], cs)) && VerbsFor(Collect(map[], cs), claim.KeyOf()) != {}
    requires Collect(map[], cs + more) == Collect(map[], more)
    ensures wider in ClaimsOf(Collect(map[], more)) && wider.KeyOf() == claim.KeyOf()
    ensures forall verb :: Grants(claim.verbs, verb) ==> Grants(wider.verbs, verb)
  {
    ClaimIsForItsKey(Collect(map[], cs), claim);
    MoreReasonsNarrowOnlyDefaults(cs, more, claim.KeyOf());
    EveryKeyIsClaimed(Collect(map[], more), claim.KeyOf());
    wider := ClaimFor(Collect(map[], more), claim.KeyOf());
  }

  lemma {:induction false} WiderIn(p: Provider, store: Store, after: Store, claim: Claim) returns (wider: Claim)
    requires WellNamed(store) && WellNamed(after) && VerbsGiven(p) && claim in Desired(p, store)
    requires forall c :: c in ContributionsIn(p, store) ==> c in ContributionsIn(p, after)
    ensures wider in Desired(p, after) && wider.KeyOf() == claim.KeyOf()
    ensures forall verb :: Grants(claim.verbs, verb) ==> Grants(wider.verbs, verb)
  {
    CollectAbsorbs(ContributionsIn(p, store), ContributionsIn(p, after));
    ClaimGivesVerbs(p, store, claim);
    wider := WiderClaim(ContributionsIn(p, store), ContributionsIn(p, after), claim);
  }

  /** Publishing one more export drops no claim and narrows none, as long as every
      contributing verb list says something. */
  lemma {:induction false} AnotherExportNarrowsNothing(p: Provider, store: Store, e: Export, claim: Claim)
    returns (wider: Claim)
    requires WellNamed(store) && e.name !in store && VerbsGiven(p)
    requires claim in Desired(p, store)
    ensures wider in Desired(p, store[e.name := e]) && wider.KeyOf() == claim.KeyOf()
    ensures forall verb :: Grants(claim.verbs, verb) ==> Grants(wider.verbs, verb)
  {
    ContributionsSurvive(p, store, e);
    wider := WiderIn(p, store, store[e.name := e], claim);
  }
}
