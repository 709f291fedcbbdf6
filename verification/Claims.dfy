/** Permission claims of `internal/capiexports`: verb sets in normal form, and the claim list
    an export should carry given the providers an installation turns out to have. */
module Claims {
  import opened Ordering

  // ----- Verb sets -----

  const VERB_ORDER: seq<string> :=
    ["*", "get", "list", "watch", "create", "update", "patch", "delete", "deletecollection"]

  function Kept(order: seq<string>, seen: set<string>): seq<string> {
    if order == [] then []
    else Kept(order[..|order| - 1], seen) + if order[|order| - 1] in seen then [order[|order| - 1]] else []
  }

  lemma {:induction false} KeptElements(order: seq<string>, seen: set<string>)
    ensures forall v :: v in Kept(order, seen) <==> v in order && v in seen
  {
    if order != [] {
      var init, last := order[..|order| - 1], order[|order| - 1];
      KeptElements(init, seen);
      assert order == init + [last];
    }
  }

  /** The one way a set of verbs is written: `*` alone if it is there; otherwise the known
      verbs in lifecycle order, then the unknown ones in string order. */
  ghost function Normal(verbs: set<string>): seq<string> {
    if "*" in verbs then ["*"]
    else Kept(VERB_ORDER, verbs) + InStringOrder(verbs - Elements(VERB_ORDER))
  }

  lemma {:induction false} NormalElements(verbs: set<string>)
    ensures Elements(Normal(verbs)) == if "*" in verbs then {"*"} else verbs
    ensures Normal(verbs) == [] <==> verbs == {}
  {
    KeptElements(VERB_ORDER, verbs);
    if "*" !in verbs {
      var r := Normal(verbs);
      assert forall v :: v in r <==> v in verbs;
      assert |r| > 0 ==> r[0] in r;
      assert forall v :: v in verbs ==> v in r;
    }
  }

  /** The rank of a verb: the known ones in the order of what is done to an object, then all others. */
  function Rank(v: string): nat {
    if v == "*" then 0 else if v == "get" then 1 else if v == "list" then 2 else if v == "watch" then 3
    else if v == "create" then 4 else if v == "update" then 5 else if v == "patch" then 6
    else if v == "delete" then 7 else if v == "deletecollection" then 8 else 9
  }

  lemma {:induction false} KeptInOrder(order: seq<string>, seen: set<string>)
    requires forall i, j :: 0 <= i < j < |order| ==> Rank(order[i]) < Rank(order[j])
    ensures forall i, j :: 0 <= i < j < |Kept(order, seen)| ==>
              Rank(Kept(order, seen)[i]) < Rank(Kept(order, seen)[j])
  {
    if order != [] {
      var init, last := order[..|order| - 1], order[|order| - 1];
      KeptInOrder(init, seen);
      forall v | v in Kept(init, seen) ensures Rank(v) < Rank(last) {
        KeptElements(init, seen);
        var i :| 0 <= i < |init| && init[i] == v;
        assert order[i] == v;
      }
    }
  }

  lemma {:induction false} RankIsAtMostNine(v: string)
    ensures Rank(v) <= 9
  {}

  lemma {:induction false} KnownRank(v: string)
    ensures v in VERB_ORDER <==> Rank(v) < 9
  {
    if Rank(v) < 9 { assert VERB_ORDER[Rank(v)] == v; }
  }

  predicate Precedes(a: string, b: string) { Rank(a) < Rank(b) || (Rank(a) == Rank(b) == 9 && Less(a, b)) }

  lemma {:induction false} PartsInOrder(known: seq<string>, unknown: seq<string>)
    requires forall i, j :: 0 <= i < j < |known| ==> Rank(known[i]) < Rank(known[j])
    requires forall v :: v in known ==> Rank(v) < 9
    requires StrictlySorted(Less, unknown) && forall v :: v in unknown ==> Rank(v) == 9
    ensures forall i, j :: 0 <= i < j < |known + unknown| ==> Precedes((known + unknown)[i], (known + unknown)[j])
  {
    forall i, j | 0 <= i < j < |known + unknown| ensures Precedes((known + unknown)[i], (known + unknown)[j]) {
      var a, b := (known + unknown)[i], (known + unknown)[j];
      assert i < |known| ==> a in known;
      assert i >= |known| ==> a == unknown[i - |known|] && a in unknown;
      assert j >= |known| ==> b == unknown[j - |known|] && b in unknown;
    }
  }

  lemma VerbOrderIsByRank()
    ensures forall i, j :: 0 <= i < j < |VERB_ORDER| ==> Rank(VERB_ORDER[i]) < Rank(VERB_ORDER[j])
  {
    assert forall i :: 0 <= i < |VERB_ORDER| ==> Rank(VERB_ORDER[i]) == i;
  }

  lemma {:induction false} KnownAndUnknown(order: seq<string>, verbs: set<string>)
    requires forall v :: v in order <==> Rank(v) < 9
    ensures forall v :: v in Kept(order, verbs) ==> Rank(v) < 9
    ensures forall v :: v in InStringOrder(verbs - Elements(order)) ==> Rank(v) == 9
  {
    KeptElements(order, verbs);
    forall v | v in InStringOrder(verbs - Elements(order)) ensures Rank(v) == 9 {
      assert v !in order;
      RankIsAtMostNine(v);
    }
  }

  lemma {:induction false} NormalByRank(order: seq<string>, verbs: set<string>, r: seq<string>)
    requires forall v :: v in order <==> Rank(v) < 9
    requires forall i, j :: 0 <= i < j < |order| ==> Rank(order[i]) < Rank(order[j])
    requires r == Kept(order, verbs) + InStringOrder(verbs - Elements(order))
    ensures forall i, j :: 0 <= i < j < |r| ==> Precedes(r[i], r[j])
  {
    KeptInOrder(order, verbs);
    KnownAndUnknown(order, verbs);
    PartsInOrder(Kept(order, verbs), InStringOrder(verbs - Elements(order)));
  }

  /** Normal form lists each verb once, by rank, and the unknown ones by name. */
  lemma {:induction false} NormalInOrder(verbs: set<string>, r: seq<string>)
    requires r == Normal(verbs)
    ensures forall i, j :: 0 <= i < j < |r| ==> Precedes(r[i], r[j])
  {
    if "*" !in verbs {
      VerbOrderIsByRank();
      forall v ensures v in VERB_ORDER <==> Rank(v) < 9 { KnownRank(v); }
      NormalByRank(VERB_ORDER, verbs, r);
    }
  }

  /** A set that has been through normal form contributes what it contributed before. */
  lemma {:induction false} NormalAbsorbs(verbs: set<string>, more: set<string>)
    ensures Normal(Elements(Normal(verbs)) + more) == Normal(verbs + more)
  {
    NormalElements(verbs);
  }

  ghost function Union(a: seq<string>, b: seq<string>): seq<string> {
    Normal(Elements(a) + Elements(b))
  }

  method UnionVerbs(a: seq<string>, b: seq<string>) returns (r: seq<string>)
    ensures r == Union(a, b)
  {
    var seen: set<string> := {};
    for i := 0 to |a|
      invariant seen == Elements(a[..i])
    {
      assert a[..i + 1] == a[..i] + [a[i]];
      seen := seen + {a[i]};
    }
    assert a[..|a|] == a;
    for i := 0 to |b|
      invariant seen == Elements(a) + Elements(b[..i])
    {
      assert b[..i + 1] == b[..i] + [b[i]];
      seen := seen + {b[i]};
    }
    assert b[..|b|] == b;
    if "*" in seen {
      return ["*"];
    }
    var verbs: seq<string> := [];
    var unknown := seen;
    for i := 0 to |VERB_ORDER|
      invariant verbs == Kept(VERB_ORDER[..i], seen)
      invariant unknown == seen - Elements(VERB_ORDER[..i])
    {
      assert VERB_ORDER[..i + 1] == VERB_ORDER[..i] + [VERB_ORDER[i]];
      assert VERB_ORDER[..i + 1][..i] == VERB_ORDER[..i];
      if VERB_ORDER[i] in seen {
        verbs := verbs + [VERB_ORDER[i]];
        unknown := unknown - {VERB_ORDER[i]};
      }
    }
    assert VERB_ORDER[..|VERB_ORDER|] == VERB_ORDER;
    var rest := SortedStrings(unknown);
    return verbs + rest;
  }

  /** An operation that forgets its arguments' form is associative and idempotent. */
  lemma {:induction false} AbsorbingLaws(norm: set<string> -> seq<string>, a: set<string>, b: set<string>,
      c: set<string>)
    requires forall s, t :: norm(Elements(norm(s)) + t) == norm(s + t)
    ensures norm(Elements(norm(a + b)) + c) == norm(a + Elements(norm(b + c)))
    ensures norm(Elements(norm(a + b)) + Elements(norm(a + b))) == norm(a + b)
  {
    assert a + Elements(norm(b + c)) == Elements(norm(b + c)) + a;
    assert (a + b) + c == (b + c) + a;
    assert (a + b) + Elements(norm(a + b)) == Elements(norm(a + b)) + (a + b);
    assert (a + b) + (a + b) == a + b;
  }

  lemma {:induction false} UnionLaws(a: seq<string>, b: seq<string>, c: seq<string>)
    ensures Union(a, b) == Union(b, a)
    ensures Union(Union(a, b), c) == Union(a, Union(b, c))
    ensures Union(Union(a, b), Union(a, b)) == Union(a, b)
    ensures "*" in a ==> Union(a, b) == ["*"]
  {
    assert Elements(a) + Elements(b) == Elements(b) + Elements(a);
    forall s, t ensures Normal(Elements(Normal(s)) + t) == Normal(s + t) { NormalAbsorbs(s, t); }
    AbsorbingLaws(Normal, Elements(a), Elements(b), Elements(c));
  }

  // ----- Claims -----

  type Contract = string

  datatype Resource = Resource(group: string, resource: string, verbs: seq<string>)

  datatype Provider = Provider(
    exportName: string,
    coreClaims: seq<Resource>,
    providerClaims: map<string, seq<Resource>>,
    discoveredClaims: map<Contract, seq<string>>)

  datatype Discovered = Discovered(exportName: string, contract: Contract, identity: string, resources: seq<Resource>)

  datatype Key = Key(group: string, resource: string, identity: string)

  datatype Claim = Claim(group: string, resource: string, identity: string, verbs: seq<string>) {
    function KeyOf(): Key { Key(group, resource, identity) }
  }

  predicate KeyLess(a: Key, b: Key) {
    if a.group != b.group then Less(a.group, b.group)
    else if a.resource != b.resource then Less(a.resource, b.resource)
    else Less(a.identity, b.identity)
  }

  lemma {:induction false} KeyLessTransitive(a: Key, b: Key, c: Key)
    requires KeyLess(a, b) && KeyLess(b, c)
    ensures KeyLess(a, c)
  {
    LessLaws(a.group, b.group, c.group);
    LessLaws(a.resource, b.resource, c.resource);
    LessLaws(a.identity, b.identity, c.identity);
  }

  lemma {:induction false} LessLaws(a: string, b: string, c: string)
    ensures Less(a, b) && Less(b, c) ==> Less(a, c)
    ensures !(Less(a, b) && Less(b, a))
  {
    if Less(a, b) && Less(b, c) { LessTransitive(a, b, c); }
    LessAsymmetric(a, b);
  }

  lemma {:induction false} KeyLessTotal(a: Key, b: Key)
    ensures !KeyLess(a, a)
    ensures a == b || KeyLess(a, b) || KeyLess(b, a)
  {
    LessIrreflexive(a.identity);
    LessTotal(a.group, b.group);
    LessTotal(a.resource, b.resource);
    LessTotal(a.identity, b.identity);
  }

  lemma KeyLessIsOrder()
    ensures StrictTotalOrder(KeyLess)
  {
    forall a, b, c | KeyLess(a, b) && KeyLess(b, c) ensures KeyLess(a, c) { KeyLessTransitive(a, b, c); }
    forall a, b ensures !KeyLess(a, a) && (a != b ==> KeyLess(a, b) || KeyLess(b, a)) { KeyLessTotal(a, b); }
  }

  ghost function KeysInOrder(keys: set<Key>): (r: seq<Key>)
    ensures forall k :: k in r <==> k in keys
  {
    KeyLessIsOrder();
    InOrder(KeyLess, keys)
  }

  lemma {:induction false} KeysInOrderAreSorted(keys: set<Key>)
    ensures StrictlySorted(KeyLess, KeysInOrder(keys))
  {
    KeyLessIsOrder();
  }

  lemma {:induction false} KeysInOrderUnique(keys: set<Key>, r: seq<Key>)
    requires StrictlySorted(KeyLess, r) && forall k :: k in r <==> k in keys
    ensures r == KeysInOrder(keys)
  {
    KeyLessIsOrder();
    SortedIsInOrder(KeyLess, r, keys);
  }

  method SortedClaimKeys(keys: set<Key>) returns (r: seq<Key>)
    ensures r == KeysInOrder(keys)
  {
    KeyLessIsOrder();
    r := SortedKeys(keys, KeyLess);
  }

  /** One reason to claim a resource: the key it is claimed under and the verbs wanted. */
  datatype Contribution = Contribution(key: Key, verbs: seq<string>)

  /** Every key somebody wants, with all the verbs anybody wants on it. */
  type Reasons = map<Key, set<string>>

  ghost function VerbsFor(rs: Reasons, key: Key): set<string> {
    if key in rs then rs[key] else {}
  }

  ghost function Adding(rs: Reasons, c: Contribution): Reasons {
    rs[c.key := VerbsFor(rs, c.key) + Elements(c.verbs)]
  }

  ghost function Collect(rs: Reasons, cs: seq<Contribution>): Reasons {
    if cs == [] then rs else Adding(Collect(rs, cs[..|cs| - 1]), cs[|cs| - 1])
  }

  lemma {:induction false} CollectStep(rs: Reasons, cs: seq<Contribution>, i: nat)
    requires i < |cs|
    ensures Collect(rs, cs[..i + 1]) == Adding(Collect(rs, cs[..i]), cs[i])
  {
    assert cs[..i + 1][..i] == cs[..i];
  }

  lemma {:induction false} CollectAppend(rs: Reasons, a: seq<Contribution>, b: seq<Contribution>)
    ensures Collect(Collect(rs, a), b) == Collect(rs, a + b)
  {
    if b == [] {
      assert a + b == a;
    } else {
      CollectAppend(rs, a, b[..|b| - 1]);
      assert (a + b)[..|a + b| - 1] == a + b[..|b| - 1];
    }
  }

  /** c contributes the key, and the verb. */
  predicate Names(c: Contribution, key: Key, verb: string) { c.key == key && verb in c.verbs }

  lemma {:induction false} CollectedKey(rs: Reasons, cs: seq<Contribution>, key: Key)
    ensures key in Collect(rs, cs) <==> key in rs || exists c :: c in cs && c.key == key
  {
    if cs != [] {
      var init, last := cs[..|cs| - 1], cs[|cs| - 1];
      CollectedKey(rs, init, key);
      assert cs == init + [last];
      assert last in cs;
    }
  }

  lemma {:induction false} CollectedVerb(rs: Reasons, cs: seq<Contribution>, key: Key, verb: string)
    ensures verb in VerbsFor(Collect(rs, cs), key) <==>
              verb in VerbsFor(rs, key) || exists c :: c in cs && Names(c, key, verb)
  {
    if cs != [] {
      var init, last := cs[..|cs| - 1], cs[|cs| - 1];
      CollectedVerb(rs, init, key, verb);
      assert cs == init + [last];
      assert last in cs;
    }
  }

  lemma {:induction false} CollectMeaning(rs: Reasons, cs: seq<Contribution>, key: Key)
    ensures key in Collect(rs, cs) <==> key in rs || exists c :: c in cs && c.key == key
    ensures forall verb :: verb in VerbsFor(Collect(rs, cs), key) <==>
      verb in VerbsFor(rs, key) || exists c :: c in cs && Names(c, key, verb)
  {
    CollectedKey(rs, cs, key);
    forall verb
      ensures verb in VerbsFor(Collect(rs, cs), key) <==>
                verb in VerbsFor(rs, key) || exists c :: c in cs && Names(c, key, verb)
    {
      CollectedVerb(rs, cs, key, verb);
    }
  }

  /** What is collected depends only on which contributions there are: not on their order,
      and not on how often each is made. */
  lemma {:induction false} CollectIgnoresOrder(a: seq<Contribution>, b: seq<Contribution>)
    requires forall c :: c in a <==> c in b
    ensures Collect(map[], a) == Collect(map[], b)
  {
    forall key
      ensures key in Collect(map[], a) <==> key in Collect(map[], b)
      ensures VerbsFor(Collect(map[], a), key) == VerbsFor(Collect(map[], b), key)
    {
      CollectMeaning(map[], a, key);
      CollectMeaning(map[], b, key);
    }
    assert forall key :: key in Collect(map[], a) ==>
      Collect(map[], a)[key] == VerbsFor(Collect(map[], a), key) ==
        VerbsFor(Collect(map[], b), key) == Collect(map[], b)[key];
  }

  ghost function ClaimFor(rs: Reasons, key: Key): Claim {
    var verbs := VerbsFor(rs, key);
    Claim(key.group, key.resource, key.identity, if verbs == {} then ["*"] else Normal(verbs))
  }

  ghost function ClaimsOf(rs: Reasons): (r: seq<Claim>)
    ensures |r| == |KeysInOrder(rs.Keys)|
    ensures forall i :: 0 <= i < |r| ==> r[i] == ClaimFor(rs, KeysInOrder(rs.Keys)[i])
  {
    var keys := KeysInOrder(rs.Keys);
    seq(|keys|, i requires 0 <= i < |keys| => ClaimFor(rs, keys[i]))
  }

  /** Sorted by key, no key twice, exactly the keys somebody wanted, each with all the
      verbs anybody wanted, written in normal form. */
  ghost predicate Canonical(claims: seq<Claim>, rs: Reasons) {
    && (forall i, j :: 0 <= i < j < |claims| ==> KeyLess(claims[i].KeyOf(), claims[j].KeyOf()))
    && (forall k :: k in rs <==> exists i :: 0 <= i < |claims| && claims[i].KeyOf() == k)
    && (forall i :: 0 <= i < |claims| ==> claims[i] == ClaimFor(rs, claims[i].KeyOf()))
  }

  lemma {:induction false} ClaimsAreCanonical(rs: Reasons)
    ensures Canonical(ClaimsOf(rs), rs)
  {
    var keys, claims := KeysInOrder(rs.Keys), ClaimsOf(rs);
    KeysInOrderAreSorted(rs.Keys);
    assert forall i :: 0 <= i < |claims| ==> claims[i].KeyOf() == keys[i];
    forall k ensures k in rs <==> exists i :: 0 <= i < |claims| && claims[i].KeyOf() == k {
      assert k in rs.Keys <==> k in keys;
      if k in rs {
        var i :| 0 <= i < |keys| && keys[i] == k;
        assert claims[i].KeyOf() == k;
      }
    }
  }

  function KeysOf(claims: seq<Claim>): (keys: seq<Key>)
    ensures |keys| == |claims| && forall i :: 0 <= i < |keys| ==> keys[i] == claims[i].KeyOf()
  {
    seq(|claims|, i requires 0 <= i < |claims| => claims[i].KeyOf())
  }

  lemma {:induction false} SortedKeysAreUnique(keys: set<Key>, claims: seq<Claim>)
    requires forall i, j :: 0 <= i < j < |claims| ==> KeyLess(claims[i].KeyOf(), claims[j].KeyOf())
    requires forall k :: k in keys <==> exists i :: 0 <= i < |claims| && claims[i].KeyOf() == k
    ensures KeysOf(claims) == KeysInOrder(keys)
  {
    var listed := KeysOf(claims);
    forall k ensures k in listed <==> k in keys {
      if k in keys {
        var i :| 0 <= i < |claims| && claims[i].KeyOf() == k;
        assert listed[i] == k;
      }
      if k in listed {
        var i :| 0 <= i < |listed| && listed[i] == k;
        assert claims[i].KeyOf() == k;
      }
    }
    KeysInOrderUnique(keys, listed);
  }

  /** No other list is canonical. */
  lemma {:induction false} CanonicalIsUnique(rs: Reasons, claims: seq<Claim>)
    requires Canonical(claims, rs)
    ensures claims == ClaimsOf(rs)
  {
    assert forall k :: k in rs <==> k in rs.Keys;
    SortedKeysAreUnique(rs.Keys, claims);
    var keys := KeysInOrder(rs.Keys);
    forall i | 0 <= i < |claims| ensures claims[i] == ClaimsOf(rs)[i] {
      assert claims[i].KeyOf() == keys[i];
    }
  }

  lemma {:induction false} ClaimIsForItsKey(rs: Reasons, claim: Claim)
    requires claim in ClaimsOf(rs)
    ensures claim.KeyOf() in rs && claim == ClaimFor(rs, claim.KeyOf())
  {
    ClaimsAreCanonical(rs);
    var i :| 0 <= i < |ClaimsOf(rs)| && ClaimsOf(rs)[i] == claim;
  }

  lemma {:induction false} EveryKeyIsClaimed(rs: Reasons, key: Key)
    requires key in rs
    ensures ClaimFor(rs, key) in ClaimsOf(rs)
  {
    ClaimsAreCanonical(rs);
    var i :| 0 <= i < |ClaimsOf(rs)| && ClaimsOf(rs)[i].KeyOf() == key;
    assert ClaimsOf(rs)[i] == ClaimFor(rs, key);
  }

  // ----- What an export asks for -----

  predicate Known(identities: map<string, string>, e: string) {
    e in identities && identities[e] != ""
  }

  function Under(resources: seq<Resource>, identity: string): (cs: seq<Contribution>)
    ensures |cs| == |resources|
    ensures forall i :: 0 <= i < |cs| ==>
      cs[i] == Contribution(Key(resources[i].group, resources[i].resource, identity), resources[i].verbs)
  {
    seq(|resources|, i requires 0 <= i < |resources| =>
      Contribution(Key(resources[i].group, resources[i].resource, identity), resources[i].verbs))
  }

  function To(r: Resource, verbs: seq<string>): Resource { r.(verbs := verbs) }

  function Retargeted(resources: seq<Resource>, verbs: seq<string>): seq<Resource> {
    seq(|resources|, i requires 0 <= i < |resources| => To(resources[i], verbs))
  }

  /** What the provider claims from one export it names. */
  function FromNamed(p: Provider, identities: map<string, string>, e: string): seq<Contribution> {
    if e in p.providerClaims && Known(identities, e) then Under(p.providerClaims[e], identities[e]) else []
  }

  /** What it claims from one export that was discovered: nothing of its own, and nothing
      from a contract it has no use for. */
  function FromFound(p: Provider, found: Discovered): seq<Contribution> {
    if found.exportName == p.exportName || found.contract !in p.discoveredClaims then []
    else Under(Retargeted(found.resources, p.discoveredClaims[found.contract]), found.identity)
  }

  function AllNamed(p: Provider, identities: map<string, string>, exports: seq<string>): seq<Contribution> {
    if exports == [] then []
    else AllNamed(p, identities, exports[..|exports| - 1]) + FromNamed(p, identities, exports[|exports| - 1])
  }

  function AllFound(p: Provider, discovered: seq<Discovered>): seq<Contribution> {
    if discovered == [] then []
    else AllFound(p, discovered[..|discovered| - 1]) + FromFound(p, discovered[|discovered| - 1])
  }

  ghost function Contributions(p: Provider, identities: map<string, string>,
      discovered: seq<Discovered>): seq<Contribution> {
    Under(p.coreClaims, "") + AllNamed(p, identities, InStringOrder(p.providerClaims.Keys)) + AllFound(p, discovered)
  }

  /** c is one of the provider's reasons: a type every workspace serves, a resource of an
      export it names whose identity is known, or one of a discovered export. */
  ghost predicate Wants(p: Provider, identities: map<string, string>, discovered: seq<Discovered>, c: Contribution) {
    || c in Under(p.coreClaims, "")
    || (exists e :: e in p.providerClaims && c in FromNamed(p, identities, e))
    || (exists f :: f in discovered && c in FromFound(p, f))
  }

  lemma {:induction false} InAllNamed(p: Provider, identities: map<string, string>, exports: seq<string>,
      c: Contribution)
    ensures c in AllNamed(p, identities, exports) <==> exists e :: e in exports && c in FromNamed(p, identities, e)
  {
    if exports != [] {
      var init, last := exports[..|exports| - 1], exports[|exports| - 1];
      InAllNamed(p, identities, init, c);
      assert exports == init + [last] && last in exports;
    }
  }

  lemma {:induction false} InAllFound(p: Provider, discovered: seq<Discovered>, c: Contribution)
    ensures c in AllFound(p, discovered) <==> exists f :: f in discovered && c in FromFound(p, f)
  {
    if discovered != [] {
      var init, last := discovered[..|discovered| - 1], discovered[|discovered| - 1];
      InAllFound(p, init, c);
      assert discovered == init + [last] && last in discovered;
    }
  }

  lemma {:induction false} ContributionsAreWants(p: Provider, identities: map<string, string>,
      discovered: seq<Discovered>, c: Contribution)
    ensures c in Contributions(p, identities, discovered) <==> Wants(p, identities, discovered, c)
  {
    var exports := InStringOrder(p.providerClaims.Keys);
    InAllNamed(p, identities, exports, c);
    InAllFound(p, discovered, c);
    assert forall e :: e in exports <==> e in p.providerClaims;
  }

  /** The claim list of a provider, as the source promises it. */
  ghost function WantedClaims(p: Provider, identities: map<string, string>, discovered: seq<Discovered>): seq<Claim> {
    ClaimsOf(Collect(map[], Contributions(p, identities, discovered)))
  }

  /** The map the source fills holds the normal form of what has been collected. */
  ghost predicate Gathered(m: map<Key, seq<string>>, rs: Reasons) {
    m.Keys == rs.Keys && forall k :: k in m ==> m[k] == Normal(rs[k])
  }

  method Gather(m: map<Key, seq<string>>, c: Contribution, ghost rs: Reasons) returns (r: map<Key, seq<string>>)
    requires Gathered(m, rs)
    ensures Gathered(r, Adding(rs, c))
  {
    var union := UnionVerbs(if c.key in m then m[c.key] else [], c.verbs);
    r := m[c.key := union];
    GatheredVerbs(m, rs, c);
  }

  lemma {:induction false} GatheredVerbs(m: map<Key, seq<string>>, rs: Reasons, c: Contribution)
    requires Gathered(m, rs)
    ensures Normal(Elements(if c.key in m then m[c.key] else []) + Elements(c.verbs)) == Normal(Adding(rs, c)[c.key])
  {
    NormalAbsorbs(VerbsFor(rs, c.key), Elements(c.verbs));
    assert Elements<string>([]) + Elements(c.verbs) == {} + Elements(c.verbs);
  }

  method GatherAll(m: map<Key, seq<string>>, resources: seq<Resource>, identity: string, ghost rs: Reasons)
    returns (r: map<Key, seq<string>>)
    requires Gathered(m, rs)
    ensures Gathered(r, Collect(rs, Under(resources, identity)))
  {
    r := m;
    ghost var cs := Under(resources, identity);
    for i := 0 to |resources|
      invariant Gathered(r, Collect(rs, cs[..i]))
    {
      CollectStep(rs, cs, i);
      var x := resources[i];
      r := Gather(r, Contribution(Key(x.group, x.resource, identity), x.verbs), Collect(rs, cs[..i]));
    }
    assert cs[..|cs|] == cs;
  }

  /** What a provider claims of one named export, once that export has an identity. */
  method GatherFrom(m: map<Key, seq<string>>, p: Provider, identities: map<string, string>, e: string,
      ghost rs: Reasons)
    returns (r: map<Key, seq<string>>)
    requires Gathered(m, rs) && e in p.providerClaims
    ensures Gathered(r, Collect(rs, FromNamed(p, identities, e)))
  {
    r := m;
    if Known(identities, e) {
      r := GatherAll(r, p.providerClaims[e], identities[e], rs);
    }
  }

  lemma {:induction false} CollectNamedStep(rs: Reasons, p: Provider, identities: map<string, string>,
      exports: seq<string>, i: nat)
    requires i < |exports| && forall e :: e in exports ==> e in p.providerClaims
    ensures Collect(rs, AllNamed(p, identities, exports[..i + 1]))
         == Collect(Collect(rs, AllNamed(p, identities, exports[..i])), FromNamed(p, identities, exports[i]))
  {
    assert exports[..i + 1][..i] == exports[..i];
    CollectAppend(rs, AllNamed(p, identities, exports[..i]), FromNamed(p, identities, exports[i]));
  }

  method GatherEach(m: map<Key, seq<string>>, p: Provider, identities: map<string, string>, exports: seq<string>,
                    ghost rs: Reasons)
    returns (r: map<Key, seq<string>>)
    requires Gathered(m, rs) && forall e :: e in exports ==> e in p.providerClaims
    ensures Gathered(r, Collect(rs, AllNamed(p, identities, exports)))
  {
    r := m;
    for i := 0 to |exports|
      invariant Gathered(r, Collect(rs, AllNamed(p, identities, exports[..i])))
    {
      CollectNamedStep(rs, p, identities, exports, i);
      r := GatherFrom(r, p, identities, exports[i], Collect(rs, AllNamed(p, identities, exports[..i])));
    }
    assert exports[..|exports|] == exports;
  }

  method GatherNamed(m: map<Key, seq<string>>, p: Provider, identities: map<string, string>, ghost rs: Reasons)
    returns (r: map<Key, seq<string>>)
    requires Gathered(m, rs)
    ensures Gathered(r, Collect(rs, AllNamed(p, identities, InStringOrder(p.providerClaims.Keys))))
  {
    var exports := SortedStrings(p.providerClaims.Keys);
    r := GatherEach(m, p, identities, exports, rs);
  }

  method GatherFound(m: map<Key, seq<string>>, p: Provider, discovered: seq<Discovered>, ghost rs: Reasons)
    returns (r: map<Key, seq<string>>)
    requires Gathered(m, rs)
    ensures Gathered(r, Collect(rs, AllFound(p, discovered)))
  {
    r := m;
    for i := 0 to |discovered|
      invariant Gathered(r, Collect(rs, AllFound(p, discovered[..i])))
    {
      var found := discovered[i];
      ghost var sofar := Collect(rs, AllFound(p, discovered[..i]));
      assert discovered[..i + 1][..i] == discovered[..i];
      CollectAppend(rs, AllFound(p, discovered[..i]), FromFound(p, found));
      if found.exportName != p.exportName && found.contract in p.discoveredClaims {
        r := GatherAll(r, Retargeted(found.resources, p.discoveredClaims[found.contract]), found.identity, sofar);
      }
    }
    assert discovered[..|discovered|] == discovered;
  }

  /** `Provider.Claims`; the three sources are gathered by the three methods above. */
  method ClaimsFor(p: Provider, identities: map<string, string>, discovered: seq<Discovered>) returns (r: seq<Claim>)
    ensures r == WantedClaims(p, identities, discovered)
    ensures forall key :: ClaimedAsAsked(r, p, identities, discovered, key)
  {
    ghost var core := Under(p.coreClaims, "");
    ghost var named := AllNamed(p, identities, InStringOrder(p.providerClaims.Keys));
    var m := GatherAll(map[], p.coreClaims, "", map[]);
    m := GatherNamed(m, p, identities, Collect(map[], core));
    CollectAppend(map[], core, named);
    m := GatherFound(m, p, discovered, Collect(map[], core + named));
    CollectAppend(map[], core + named, AllFound(p, discovered));
    r := Written(m, Collect(map[], Contributions(p, identities, discovered)));
    forall key ensures ClaimedAsAsked(r, p, identities, discovered, key) {
      ClaimsMeaning(p, identities, discovered, key);
    }
  }

  /** The claim for one entry of the map; an empty verb set becomes every verb. */
  function ClaimAt(m: map<Key, seq<string>>, key: Key): Claim
    requires key in m
  {
    Claim(key.group, key.resource, key.identity, if |m[key]| == 0 then ["*"] else m[key])
  }

  lemma {:induction false} GatheredClaim(m: map<Key, seq<string>>, rs: Reasons, key: Key)
    requires Gathered(m, rs) && key in m
    ensures ClaimFor(rs, key) == ClaimAt(m, key)
  {
    NormalElements(rs[key]);
  }

  method WrittenFor(m: map<Key, seq<string>>, keys: seq<Key>) returns (r: seq<Claim>)
    requires forall i :: 0 <= i < |keys| ==> keys[i] in m
    ensures |r| == |keys| && forall i :: 0 <= i < |keys| ==> r[i] == ClaimAt(m, keys[i])
  {
    r := [];
    for i := 0 to |keys|
      invariant |r| == i && forall j :: 0 <= j < i ==> r[j] == ClaimAt(m, keys[j])
    {
      var key := keys[i];
      var verbs := m[key];
      if |verbs| == 0 {
        verbs := ["*"];
      }
      r := r + [Claim(key.group, key.resource, key.identity, verbs)];
    }
  }

  /** The gathered map, written out in key order. */
  method Written(m: map<Key, seq<string>>, ghost rs: Reasons) returns (r: seq<Claim>)
    requires Gathered(m, rs)
    ensures r == ClaimsOf(rs)
  {
    var keys := SortedClaimKeys(m.Keys);
    assert forall k :: k in keys <==> k in m.Keys;
    r := WrittenFor(m, keys);
    forall i | 0 <= i < |keys| ensures r[i] == ClaimsOf(rs)[i] {
      assert keys[i] in keys;
      GatheredClaim(m, rs, keys[i]);
    }
  }

  /** The same reasons for claiming, however they are listed or repeated. */
  ghost predicate SameReasons(p: Provider, discovered: seq<Discovered>, q: Provider, others: seq<Discovered>) {
    && p.exportName == q.exportName && p.discoveredClaims == q.discoveredClaims
    && (forall r :: r in p.coreClaims <==> r in q.coreClaims)
    && p.providerClaims.Keys == q.providerClaims.Keys
    && (forall e, r :: e in p.providerClaims ==> (r in p.providerClaims[e] <==> r in q.providerClaims[e]))
    && (forall f :: f in discovered <==> f in others)
  }

  lemma {:induction false} WantsIgnoreOrder(p: Provider, identities: map<string, string>, discovered: seq<Discovered>,
                                            q: Provider, others: seq<Discovered>, c: Contribution)
    requires SameReasons(p, discovered, q, others) && Wants(p, identities, discovered, c)
    ensures Wants(q, identities, others, c)
  {
    InUnder(p.coreClaims, "", c);
    InUnder(q.coreClaims, "", c);
    if e :| e in p.providerClaims && c in FromNamed(p, identities, e) {
      if Known(identities, e) {
        InUnder(p.providerClaims[e], identities[e], c);
        InUnder(q.providerClaims[e], identities[e], c);
        assert c in FromNamed(q, identities, e);
      }
    } else if f :| f in discovered && c in FromFound(p, f) {
      assert f in others && c in FromFound(q, f);
    }
  }

  /** Two providers with the same reasons get the same claim list. */
  lemma {:induction false} ClaimsIgnoreOrder(p: Provider, identities: map<string, string>, discovered: seq<Discovered>,
                          q: Provider, others: seq<Discovered>)
    requires SameReasons(p, discovered, q, others)
    ensures WantedClaims(p, identities, discovered) == WantedClaims(q, identities, others)
  {
    forall c ensures c in Contributions(p, identities, discovered) <==> c in Contributions(q, identities, others) {
      ContributionsAreWants(p, identities, discovered, c);
      ContributionsAreWants(q, identities, others, c);
      if Wants(p, identities, discovered, c) { WantsIgnoreOrder(p, identities, discovered, q, others, c); }
      if Wants(q, identities, others, c) { WantsIgnoreOrder(q, identities, others, p, discovered, c); }
    }
    CollectIgnoresOrder(Contributions(p, identities, discovered), Contributions(q, identities, others));
  }

  lemma {:induction false} InUnder(resources: seq<Resource>, identity: string, c: Contribution)
    ensures c in Under(resources, identity) <==>
      exists r :: r in resources && c == Contribution(Key(r.group, r.resource, identity), r.verbs)
  {
    if r :| r in resources && c == Contribution(Key(r.group, r.resource, identity), r.verbs) {
      var i :| 0 <= i < |resources| && resources[i] == r;
      assert Under(resources, identity)[i] == c;
    }
    if c in Under(resources, identity) {
      var i :| 0 <= i < |resources| && Under(resources, identity)[i] == c;
      assert resources[i] in resources;
    }
  }

  method MissingIdentities(p: Provider, identities: map<string, string>) returns (missing: seq<string>)
    ensures missing == InStringOrder(set e | e in p.providerClaims && !Known(identities, e))
  {
    var names: set<string> := {};
    var rest := p.providerClaims.Keys;
    while rest != {}
      invariant rest <= p.providerClaims.Keys
      invariant names == set e | e in p.providerClaims.Keys - rest && !Known(identities, e)
      decreases rest
    {
      var e :| e in rest;
      rest := rest - {e};
      if !Known(identities, e) {
        names := names + {e};
      }
    }
    assert names == set e | e in p.providerClaims && !Known(identities, e);
    missing := SortedStrings(names);
  }

  // ----- What a claim grants -----

  predicate Grants(verbs: seq<string>, verb: string) { "*" in verbs || verb in verbs }

  /** r is the resource of the group. */
  predicate IsOf(r: Resource, group: string, resource: string) { r.group == group && r.resource == resource }

  /** A core claim lists the resource; a named export that has this identity has it listed; or
      another export with this identity, of a contract there is a use for, publishes it. */
  ghost predicate Mentioned(p: Provider, identities: map<string, string>, discovered: seq<Discovered>, key: Key) {
    || (key.identity == "" && exists r :: r in p.coreClaims && IsOf(r, key.group, key.resource))
    || (exists e, r :: e in p.providerClaims && e in identities && identities[e] == key.identity != ""
          && r in p.providerClaims[e] && IsOf(r, key.group, key.resource))
    || (exists f, r :: f in discovered && f.exportName != p.exportName && f.identity == key.identity
          && f.contract in p.discoveredClaims && r in f.resources && IsOf(r, key.group, key.resource))
  }

  /** And it is listed with the verb, or the contract's resources are claimed for it. */
  ghost predicate Asked(p: Provider, identities: map<string, string>, discovered: seq<Discovered>, key: Key,
      verb: string)
  {
    || (key.identity == "" && exists r :: r in p.coreClaims && IsOf(r, key.group, key.resource) && verb in r.verbs)
    || (exists e, r :: e in p.providerClaims && e in identities && identities[e] == key.identity != ""
          && r in p.providerClaims[e] && IsOf(r, key.group, key.resource) && verb in r.verbs)
    || (exists f, r :: f in discovered && f.exportName != p.exportName && f.identity == key.identity
          && f.contract in p.discoveredClaims && r in f.resources && IsOf(r, key.group, key.resource)
          && verb in p.discoveredClaims[f.contract])
  }

  lemma {:induction false} NamesUnder(resources: seq<Resource>, identity: string, key: Key, verb: string)
    ensures (exists c :: c in Under(resources, identity) && c.key == key) <==>
              key.identity == identity && exists r :: r in resources && IsOf(r, key.group, key.resource)
    ensures (exists c :: c in Under(resources, identity) && Names(c, key, verb)) <==>
              key.identity == identity
              && exists r :: r in resources && IsOf(r, key.group, key.resource) && verb in r.verbs
  {
    if c :| c in Under(resources, identity) && c.key == key {
      InUnder(resources, identity, c);
    }
    if c :| c in Under(resources, identity) && Names(c, key, verb) {
      InUnder(resources, identity, c);
    }
    forall r | r in resources && IsOf(r, key.group, key.resource) && key.identity == identity
      ensures exists c :: c in Under(resources, identity) && c.key == key && c.verbs == r.verbs
    {
      var c := Contribution(Key(r.group, r.resource, identity), r.verbs);
      InUnder(resources, identity, c);
    }
  }

  lemma {:induction false} InRetargeted(resources: seq<Resource>, verbs: seq<string>, r: Resource)
    ensures r in Retargeted(resources, verbs) <==>
              r.verbs == verbs && exists x :: x in resources && IsOf(x, r.group, r.resource)
  {
    var all := Retargeted(resources, verbs);
    if r in all {
      var i :| 0 <= i < |all| && all[i] == r;
      assert resources[i] in resources;
    }
    if x :| r.verbs == verbs && x in resources && IsOf(x, r.group, r.resource) {
      var i :| 0 <= i < |resources| && resources[i] == x;
      assert all[i] == r;
    }
  }

  lemma {:induction false} NamesRetargeted(resources: seq<Resource>, verbs: seq<string>, group: string,
      resource: string, verb: string)
    ensures (exists r :: r in Retargeted(resources, verbs) && IsOf(r, group, resource)) <==>
              exists x :: x in resources && IsOf(x, group, resource)
    ensures (exists r :: r in Retargeted(resources, verbs) && IsOf(r, group, resource) && verb in r.verbs) <==>
              verb in verbs && exists x :: x in resources && IsOf(x, group, resource)
  {
    InRetargeted(resources, verbs, Resource(group, resource, verbs));
    forall r | r in Retargeted(resources, verbs) && IsOf(r, group, resource)
      ensures r.verbs == verbs && exists x :: x in resources && IsOf(x, group, resource)
    {
      InRetargeted(resources, verbs, r);
    }
    assert IsOf(Resource(group, resource, verbs), group, resource);
  }

  lemma {:induction false} NamesNamed(p: Provider, identities: map<string, string>, e: string, key: Key, verb: string)
    requires e in p.providerClaims
    ensures (exists c :: c in FromNamed(p, identities, e) && c.key == key) <==>
              && e in identities && identities[e] == key.identity != ""
              && exists r :: r in p.providerClaims[e] && IsOf(r, key.group, key.resource)
    ensures (exists c :: c in FromNamed(p, identities, e) && Names(c, key, verb)) <==>
              && e in identities && identities[e] == key.identity != ""
              && exists r :: r in p.providerClaims[e] && IsOf(r, key.group, key.resource) && verb in r.verbs
  {
    if e in identities { NamesUnder(p.providerClaims[e], identities[e], key, verb); }
  }

  lemma {:induction false} NamesFound(p: Provider, f: Discovered, key: Key, verb: string)
    ensures (exists c :: c in FromFound(p, f) && c.key == key) <==>
              && f.exportName != p.exportName && f.identity == key.identity && f.contract in p.discoveredClaims
              && exists r :: r in f.resources && IsOf(r, key.group, key.resource)
    ensures (exists c :: c in FromFound(p, f) && Names(c, key, verb)) <==>
              && f.exportName != p.exportName && f.identity == key.identity && f.contract in p.discoveredClaims
              && verb in p.discoveredClaims[f.contract]
              && exists r :: r in f.resources && IsOf(r, key.group, key.resource)
  {
    if f.contract in p.discoveredClaims {
      var verbs := p.discoveredClaims[f.contract];
      NamesUnder(Retargeted(f.resources, verbs), f.identity, key, verb);
      NamesRetargeted(f.resources, verbs, key.group, key.resource, verb);
    }
  }

  lemma {:induction false} MentionsAreWants(p: Provider, identities: map<string, string>, discovered: seq<Discovered>,
      key: Key)
    ensures (exists c :: Wants(p, identities, discovered, c) && c.key == key) <==>
              Mentioned(p, identities, discovered, key)
  {
    NamesUnder(p.coreClaims, "", key, "");
    forall e | e in p.providerClaims
      ensures (exists c :: c in FromNamed(p, identities, e) && c.key == key) <==>
              && e in identities && identities[e] == key.identity != ""
              && exists r :: r in p.providerClaims[e] && IsOf(r, key.group, key.resource)
    {
      NamesNamed(p, identities, e, key, "");
    }
    forall f | f in discovered
      ensures (exists c :: c in FromFound(p, f) && c.key == key) <==>
              && f.exportName != p.exportName && f.identity == key.identity && f.contract in p.discoveredClaims
              && exists r :: r in f.resources && IsOf(r, key.group, key.resource)
    {
      NamesFound(p, f, key, "");
    }
  }

  lemma {:induction false} AskedAreWants(p: Provider, identities: map<string, string>, discovered: seq<Discovered>,
      key: Key, verb: string)
    ensures (exists c :: Wants(p, identities, discovered, c) && Names(c, key, verb)) <==>
              Asked(p, identities, discovered, key, verb)
  {
    NamesUnder(p.coreClaims, "", key, verb);
    forall e | e in p.providerClaims
      ensures (exists c :: c in FromNamed(p, identities, e) && Names(c, key, verb)) <==>
              && e in identities && identities[e] == key.identity != ""
              && exists r :: r in p.providerClaims[e] && IsOf(r, key.group, key.resource) && verb in r.verbs
    {
      NamesNamed(p, identities, e, key, verb);
    }
    forall f | f in discovered
      ensures (exists c :: c in FromFound(p, f) && Names(c, key, verb)) <==>
              && f.exportName != p.exportName && f.identity == key.identity && f.contract in p.discoveredClaims
              && verb in p.discoveredClaims[f.contract]
              && exists r :: r in f.resources && IsOf(r, key.group, key.resource)
    {
      NamesFound(p, f, key, verb);
    }
  }

  /** What is gathered under a key: exactly the verbs somebody asks for there. */
  lemma {:induction false} GatheredMeaning(p: Provider, identities: map<string, string>, discovered: seq<Discovered>,
      key: Key)
    ensures var rs := Collect(map[], Contributions(p, identities, discovered));
      && (key in rs <==> Mentioned(p, identities, discovered, key))
      && forall verb :: verb in VerbsFor(rs, key) <==> Asked(p, identities, discovered, key, verb)
  {
    var cs := Contributions(p, identities, discovered);
    CollectMeaning(map[], cs, key);
    forall c ensures c in cs <==> Wants(p, identities, discovered, c) {
      ContributionsAreWants(p, identities, discovered, c);
    }
    MentionsAreWants(p, identities, discovered, key);
    forall verb
      ensures verb in VerbsFor(Collect(map[], cs), key) <==> Asked(p, identities, discovered, key, verb)
    {
      AskedAreWants(p, identities, discovered, key, verb);
    }
  }

  /** An empty verb set is written as every verb; otherwise a claim grants what was asked. */
  lemma {:induction false} ClaimGrants(rs: Reasons, key: Key, verb: string)
    ensures Grants(ClaimFor(rs, key).verbs, verb) <==>
      VerbsFor(rs, key) == {} || "*" in VerbsFor(rs, key) || verb in VerbsFor(rs, key)
  {
    var verbs := VerbsFor(rs, key);
    NormalElements(verbs);
    assert forall v :: v in Normal(verbs) <==> v in Elements(Normal(verbs));
  }

  /** What the claims on a key should come to: one exactly when somebody mentions the key, granting
      exactly what somebody asks for there, or everything when nobody asks for anything or somebody
      does. */
  ghost predicate ClaimedAsAsked(claims: seq<Claim>, p: Provider, identities: map<string, string>,
      discovered: seq<Discovered>, key: Key)
  {
    && ((exists c :: c in claims && c.KeyOf() == key) <==> Mentioned(p, identities, discovered, key))
    && forall c, verb :: c in claims && c.KeyOf() == key ==>
         (Grants(c.verbs, verb) <==>
           || Asked(p, identities, discovered, key, verb) || Asked(p, identities, discovered, key, "*")
           || forall v :: !Asked(p, identities, discovered, key, v))
  }

  /** The claim list in terms of the lists it comes from. */
  lemma {:induction false} ClaimsMeaning(p: Provider, identities: map<string, string>, discovered: seq<Discovered>,
      key: Key)
    ensures ClaimedAsAsked(WantedClaims(p, identities, discovered), p, identities, discovered, key)
  {
    var rs := Collect(map[], Contributions(p, identities, discovered));
    GatheredMeaning(p, identities, discovered, key);
    if key in rs { EveryKeyIsClaimed(rs, key); }
    forall c | c in ClaimsOf(rs) && c.KeyOf() == key ensures key in rs && c == ClaimFor(rs, key) {
      ClaimIsForItsKey(rs, c);
    }
    forall verb ensures Grants(ClaimFor(rs, key).verbs, verb) <==>
        Asked(p, identities, discovered, key, verb) || Asked(p, identities, discovered, key, "*")
        || forall v :: !Asked(p, identities, discovered, key, v) {
      ClaimGrants(rs, key, verb);
      assert VerbsFor(rs, key) == {} <==> forall v :: v !in VerbsFor(rs, key);
    }
  }

  lemma {:induction false} GrantedAsAsked(p: Provider, identities: map<string, string>, discovered: seq<Discovered>,
      c: Claim, verb: string)
    requires c in WantedClaims(p, identities, discovered)
    ensures Grants(c.verbs, verb) <==>
              || Asked(p, identities, discovered, c.KeyOf(), verb) || Asked(p, identities, discovered, c.KeyOf(), "*")
              || forall v :: !Asked(p, identities, discovered, c.KeyOf(), v)
  {
    ClaimsMeaning(p, identities, discovered, c.KeyOf());
  }

  lemma {:induction false} FreshVerb(verbs: set<string>) returns (verb: string)
    ensures verb !in verbs && forall v :: v in verbs ==> |v| < |verb|
    decreases verbs
  {
    if verbs == {} {
      verb := "x";
    } else {
      var v :| v in verbs;
      var rest := FreshVerb(verbs - {v});
      verb := if |v| < |rest| then rest else v + "x";
      assert forall w :: w in verbs ==> w == v || w in verbs - {v};
    }
  }

  /** More reasons never drop a claim, and narrow what one grants in exactly one case: the
      claim had no verbs, and so every verb by default, and now has some but not `*`. */
  lemma {:induction false} MoreReasonsNarrowOnlyDefaults(cs: seq<Contribution>, more: seq<Contribution>, key: Key)
    requires key in Collect(map[], cs)
    ensures key in Collect(map[], cs + more)
    ensures var before, after, added := Collect(map[], cs), Collect(map[], cs + more),
        VerbsFor(Collect(map[], more), key);
      (forall verb :: Grants(ClaimFor(before, key).verbs, verb) ==> Grants(ClaimFor(after, key).verbs, verb))
      <==> !(VerbsFor(before, key) == {} && added != {} && "*" !in added)
  {
    var before, after := Collect(map[], cs), Collect(map[], cs + more);
    var added := VerbsFor(Collect(map[], more), key);
    CollectMeaning(map[], cs, key);
    CollectMeaning(map[], more, key);
    CollectMeaning(map[], cs + more, key);
    VerbsOfBoth(cs, more, key);
    if VerbsFor(before, key) == {} && added != {} && "*" !in added {
      var verb := FreshVerb(added);
      ClaimGrants(before, key, verb);
      ClaimGrants(after, key, verb);
      assert Grants(ClaimFor(before, key).verbs, verb) && !Grants(ClaimFor(after, key).verbs, verb);
    } else {
      forall verb | Grants(ClaimFor(before, key).verbs, verb) ensures Grants(ClaimFor(after, key).verbs, verb) {
        ClaimGrants(before, key, verb);
        ClaimGrants(after, key, verb);
      }
    }
  }

  /** Claimed without verbs, a resource may be watched; once somebody asks to get it, it may only
      be got. */
  lemma {:induction false} AnotherReasonNarrowsADefault(key: Key)
    ensures var before, after := Collect(map[], [Contribution(key, [])]),
                                 Collect(map[], [Contribution(key, [])] + [Contribution(key, ["get"])]);
      Grants(ClaimFor(before, key).verbs, "watch") && !Grants(ClaimFor(after, key).verbs, "watch")
  {
    var none, get := Contribution(key, []), Contribution(key, ["get"]);
    var before, after := Collect(map[], [none]), Collect(map[], [none] + [get]);
    CollectMeaning(map[], [none], key);
    CollectMeaning(map[], [none] + [get], key);
    assert Names(get, key, "get") && get in [none] + [get];
    assert forall verb :: Names(none, key, verb) ==> false;
    assert VerbsFor(before, key) == {};
    assert VerbsFor(after, key) == {"get"};
    ClaimGrants(before, key, "watch");
    ClaimGrants(after, key, "watch");
  }

  lemma {:induction false} VerbsOfBoth(cs: seq<Contribution>, more: seq<Contribution>, key: Key)
    ensures VerbsFor(Collect(map[], cs + more), key) ==
              VerbsFor(Collect(map[], cs), key) + VerbsFor(Collect(map[], more), key)
  {
    CollectMeaning(map[], cs, key);
    CollectMeaning(map[], more, key);
    CollectMeaning(map[], cs + more, key);
  }
}
