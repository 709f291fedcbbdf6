/** Orders and sorting, as the Go standard library gives them to this repository:
    string comparison, `slices.Sort`/`slices.SortFunc`, and sorted map keys. */
module Ordering {

  // ----- Orders as comparison functions -----

  ghost predicate StrictTotalOrder<T(!new)>(less: (T, T) -> bool) {
    && (forall x :: !less(x, x))
    && (forall x, y, z :: less(x, y) && less(y, z) ==> less(x, z))
    && (forall x, y :: x != y ==> less(x, y) || less(y, x))
  }

  /** What `slices.SortFunc` asks of a comparison that may call distinct elements equal. */
  ghost predicate StrictWeakOrder<T(!new)>(less: (T, T) -> bool) {
    && (forall x :: !less(x, x))
    && (forall x, y, z :: less(x, y) && less(y, z) ==> less(x, z))
    && (forall x, y, z :: !less(y, x) && !less(z, y) ==> !less(z, x))
  }

  lemma {:induction false} StrictIsWeak<T(!new)>(less: (T, T) -> bool)
    requires StrictTotalOrder(less)
    ensures StrictWeakOrder(less)
  {
    forall x, y, z | !less(y, x) && !less(z, y) ensures !less(z, x) {
      assert x == y || less(x, y);
      assert y == z || less(y, z);
    }
  }

  ghost predicate StrictlySorted<T>(less: (T, T) -> bool, s: seq<T>) {
    forall i, j :: 0 <= i < j < |s| ==> less(s[i], s[j])
  }

  ghost predicate Sorted<T>(less: (T, T) -> bool, s: seq<T>) {
    forall i, j :: 0 <= i < j < |s| ==> !less(s[j], s[i])
  }

  ghost function Elements<T>(s: seq<T>): set<T> {
    set x | x in s
  }

  /** Strictly sorted sequences are determined by their elements. */
  lemma {:induction false} StrictlySortedUnique<T(!new)>(less: (T, T) -> bool, a: seq<T>, b: seq<T>)
    requires StrictWeakOrder(less)
    requires StrictlySorted(less, a) && StrictlySorted(less, b)
    requires forall x :: x in a <==> x in b
    ensures a == b
    decreases |a|
  {
    if a == [] {
      assert forall i :: 0 <= i < |b| ==> b[i] in b;
    } else {
      assert a[0] in b;
      assert b[0] in a;
      assert a[0] == b[0];
      assert forall x :: x in a[1..] <==> x in a && x != a[0];
      assert forall x :: x in b[1..] <==> x in b && x != b[0];
      StrictlySortedUnique(less, a[1..], b[1..]);
    }
  }

  lemma {:induction false} LeastExists<T(!new)>(less: (T, T) -> bool, s: set<T>) returns (m: T)
    requires StrictTotalOrder(less) && s != {}
    ensures m in s && forall x :: x in s && x != m ==> less(m, x)
    decreases s
  {
    var y :| y in s;
    if s == {y} {
      m := y;
    } else {
      var k := LeastExists(less, s - {y});
      m := if less(k, y) then k else y;
      assert forall x :: x in s ==> x == y || x in s - {y};
    }
  }

  /** The elements of a finite set in increasing order. */
  ghost function InOrder<T(!new)>(less: (T, T) -> bool, s: set<T>): (r: seq<T>)
    requires StrictTotalOrder(less)
    ensures StrictlySorted(less, r)
    ensures forall x :: x in r <==> x in s
    ensures |r| == |s|
    decreases s
  {
    if s == {} then []
    else
      assert exists m :: m in s && forall x :: x in s && x != m ==> less(m, x) by {
        var m := LeastExists(less, s);
      }
      var m :| m in s && forall x :: x in s && x != m ==> less(m, x);
      [m] + InOrder(less, s - {m})
  }

  /** Distinct elements in sorted order are the ordered listing of their set. */
  lemma {:induction false} SortedIsInOrder<T(!new)>(less: (T, T) -> bool, r: seq<T>, s: set<T>)
    requires StrictTotalOrder(less) && StrictlySorted(less, r)
    requires forall x :: x in r <==> x in s
    ensures r == InOrder(less, s)
  {
    StrictIsWeak(less);
    StrictlySortedUnique(less, r, InOrder(less, s));
  }

  // ----- Sorting -----

  lemma {:induction false} InsertSorted<T(!new)>(less: (T, T) -> bool, r: seq<T>, k: nat, x: T)
    requires StrictWeakOrder(less) && Sorted(less, r) && k <= |r|
    requires forall j :: 0 <= j < k ==> !less(x, r[j])
    requires k < |r| ==> less(x, r[k])
    ensures Sorted(less, r[..k] + [x] + r[k..])
    ensures multiset(r[..k] + [x] + r[k..]) == multiset(r) + multiset{x}
  {
    var t := r[..k] + [x] + r[k..];
    forall j | k <= j < |r| ensures !less(r[j], x) {
      assert !less(r[k], x);
      if j > k { assert !less(r[j], r[k]); }
    }
    forall i, j | 0 <= i < j < |t| ensures !less(t[j], t[i]) {
      assert t[i] == if i < k then r[i] else if i == k then x else r[i - 1];
      assert t[j] == if j < k then r[j] else if j == k then x else r[j - 1];
    }
    InsertCount(r, k, x);
  }

  lemma {:induction false} InsertCount<T>(r: seq<T>, k: nat, x: T)
    requires k <= |r|
    ensures multiset(r[..k] + [x] + r[k..]) == multiset(r) + multiset{x}
  {
    assert r == r[..k] + r[k..];
  }

  /** `slices.SortFunc`. The library sort is not stable, so callers may rely on
      nothing beyond "a sorted permutation". */
  method SortFunc<T(==,!new)>(s: seq<T>, less: (T, T) -> bool) returns (r: seq<T>)
    requires StrictWeakOrder(less)
    ensures Sorted(less, r)
    ensures multiset(r) == multiset(s)
    ensures |r| == |s|
  {
    r := [];
    for i := 0 to |s|
      invariant Sorted(less, r)
      invariant multiset(r) == multiset(s[..i])
      invariant |r| == i
    {
      var k := 0;
      while k < |r| && !less(s[i], r[k])
        invariant 0 <= k <= |r|
        invariant forall j :: 0 <= j < k ==> !less(s[i], r[j])
      {
        k := k + 1;
      }
      InsertSorted(less, r, k, s[i]);
      assert s[..i + 1] == s[..i] + [s[i]];
      r := r[..k] + [s[i]] + r[k..];
    }
    assert s[..|s|] == s;
  }

  /** A permutation has the same length and members. */
  lemma {:induction false} SameMembers<T>(a: seq<T>, b: seq<T>)
    requires multiset(a) == multiset(b)
    ensures |a| == |b| && forall x :: x in a <==> x in b
  {
    assert |multiset(a)| == |a| && |multiset(b)| == |b|;
    assert forall x :: x in a <==> x in multiset(a);
    assert forall x :: x in b <==> x in multiset(b);
  }

  lemma {:induction false} OccursOnce<T>(r: seq<T>, i: nat, j: nat)
    requires i < j < |r| && multiset(r)[r[i]] == 1
    ensures r[i] != r[j]
  {
    assert r == r[..i] + [r[i]] + r[i + 1..j] + [r[j]] + r[j + 1..];
    assert multiset(r) == multiset(r[..i]) + multiset{r[i]} +
      multiset(r[i + 1..j]) + multiset{r[j]} + multiset(r[j + 1..]);
  }

  ghost predicate AllDistinct<T>(s: seq<T>) {
    forall i, j :: 0 <= i < j < |s| ==> s[i] != s[j]
  }

  lemma {:induction false} DistinctOnce<T>(s: seq<T>, x: T)
    requires AllDistinct(s) && x in s
    ensures multiset(s)[x] == 1
  {
    var i :| 0 <= i < |s| && s[i] == x;
    assert s == s[..i] + [x] + s[i + 1..];
    assert x !in s[..i] && x !in s[i + 1..];
  }

  /** Sorting distinct keys lists their set in order. */
  lemma {:induction false} SortedDistinct<T(!new)>(less: (T, T) -> bool, s: seq<T>, r: seq<T>, keys: set<T>)
    requires StrictTotalOrder(less) && Sorted(less, r) && multiset(r) == multiset(s)
    requires AllDistinct(s) && forall x :: x in s <==> x in keys
    ensures r == InOrder(less, keys)
  {
    assert forall x :: x in r <==> x in multiset(r);
    assert forall x :: x in s <==> x in multiset(s);
    forall i, j | 0 <= i < j < |r| ensures less(r[i], r[j]) {
      assert r[i] in r;
      DistinctOnce(s, r[i]);
      OccursOnce(r, i, j);
      assert !less(r[j], r[i]);
    }
    SortedIsInOrder(less, r, keys);
  }

  /** `slices.Sorted(maps.Keys(m))`: a set of keys, met in any order, in increasing order. */
  method SortedKeys<T(==,!new)>(keys: set<T>, less: (T, T) -> bool) returns (r: seq<T>)
    requires StrictTotalOrder(less)
    ensures r == InOrder(less, keys)
  {
    r := [];
    var rest := keys;
    while rest != {}
      invariant rest <= keys
      invariant forall x :: x in r <==> x in keys - rest
      invariant StrictlySorted(less, r)
      decreases rest
    {
      var x :| x in rest;
      rest := rest - {x};
      var k := 0;
      while k < |r| && less(r[k], x)
        invariant 0 <= k <= |r|
        invariant forall j :: 0 <= j < k ==> less(r[j], x)
      {
        k := k + 1;
      }
      assert k < |r| ==> less(x, r[k]) by {
        if k < |r| { assert r[k] in r; assert r[k] != x; }
      }
      assert forall y :: y in r <==> y in r[..k] || y in r[k..] by {
        assert r == r[..k] + r[k..];
      }
      r := r[..k] + [x] + r[k..];
    }
    SortedIsInOrder(less, r, keys);
  }

  // ----- Strings -----

  /** Go's `<` on strings. */
  predicate Less(a: string, b: string) {
    if b == "" then false
    else if a == "" then true
    else a[0] < b[0] || (a[0] == b[0] && Less(a[1..], b[1..]))
  }

  /** a and b first differ at i, where a has the smaller character. */
  predicate DifferAt(a: string, b: string, i: int) {
    0 <= i < |a| && i < |b| && a[..i] == b[..i] && a[i] < b[i]
  }

  lemma {:induction false} DifferLater(a: string, b: string, i: int)
    requires a != "" && b != "" && a[0] == b[0]
    ensures DifferAt(a, b, i) <==> DifferAt(a[1..], b[1..], i - 1)
  {
    if 0 < i < |a| && i < |b| {
      assert a[..i] == [a[0]] + a[1..][..i - 1] && b[..i] == [b[0]] + b[1..][..i - 1];
      assert a[..i][1..] == a[1..][..i - 1] && b[..i][1..] == b[1..][..i - 1];
    }
  }

  lemma {:induction false} CutOffLater(a: string, b: string)
    requires a != "" && b != "" && a[0] == b[0]
    ensures a < b <==> a[1..] < b[1..]
  {
    assert a == [a[0]] + a[1..] && b == [b[0]] + b[1..];
  }

  /** That is: a is cut off from b, or the first characters in which they differ are in order. */
  lemma {:induction false} LessMeaning(a: string, b: string)
    ensures Less(a, b) <==> a < b || exists i :: DifferAt(a, b, i)
  {
    if a != "" && b != "" && a[0] == b[0] {
      LessMeaning(a[1..], b[1..]);
      CutOffLater(a, b);
      if i :| DifferAt(a, b, i) { DifferLater(a, b, i); }
      if i :| DifferAt(a[1..], b[1..], i) { DifferLater(a, b, i + 1); }
    } else if a != "" && b != "" {
      forall i | i > 0 ensures !DifferAt(a, b, i) { Differently(a, b, i); }
      assert DifferAt(a, b, 0) <==> a[0] < b[0];
    }
  }

  lemma {:induction false} Differently(a: string, b: string, i: int)
    requires a != "" && b != "" && a[0] != b[0] && i > 0
    ensures !DifferAt(a, b, i)
  {
    if i < |a| && i < |b| { assert a[..i][0] != b[..i][0]; }
  }

  lemma {:induction false} LessIrreflexive(a: string)
    ensures !Less(a, a)
  {
    if a != "" { LessIrreflexive(a[1..]); }
  }

  lemma {:induction false} LessTransitive(a: string, b: string, c: string)
    requires Less(a, b) && Less(b, c)
    ensures Less(a, c)
  {
    if a != "" && a[0] == b[0] && b[0] == c[0] { LessTransitive(a[1..], b[1..], c[1..]); }
  }

  lemma {:induction false} LessAsymmetric(a: string, b: string)
    ensures !(Less(a, b) && Less(b, a))
  {
    if Less(a, b) && Less(b, a) {
      LessTransitive(a, b, a);
      LessIrreflexive(a);
    }
  }

  lemma {:induction false} LessTotal(a: string, b: string)
    ensures a == b || Less(a, b) || Less(b, a)
  {
    if a != "" && b != "" && a[0] == b[0] {
      LessTotal(a[1..], b[1..]);
      assert a == [a[0]] + a[1..] && b == [b[0]] + b[1..];
    }
  }

  lemma LessIsOrder()
    ensures StrictTotalOrder(Less)
  {
    forall x ensures !Less(x, x) { LessIrreflexive(x); }
    forall x, y, z | Less(x, y) && Less(y, z) ensures Less(x, z) { LessTransitive(x, y, z); }
    forall x, y | x != y ensures Less(x, y) || Less(y, x) { LessTotal(x, y); }
  }

  ghost function InStringOrder(s: set<string>): (r: seq<string>)
    ensures StrictlySorted(Less, r)
    ensures forall x :: x in r <==> x in s
    ensures |r| == |s|
  {
    LessIsOrder();
    InOrder(Less, s)
  }

  method SortedStrings(keys: set<string>) returns (r: seq<string>)
    ensures r == InStringOrder(keys)
  {
    LessIsOrder();
    r := SortedKeys(keys, Less);
  }
}
