/** Sums over sequences, and the facts about them that do not depend on what is summed. */
module Sums {

  /** Sum of u(x) * v(x) over a sequence. */
  function Inner<T>(s: seq<T>, u: T -> real, v: T -> real): real {
    if s == [] then 0.0
    else Inner(s[..|s| - 1], u, v) + u(s[|s| - 1]) * v(s[|s| - 1])
  }

  lemma {:induction false} InnerStep<T>(s: seq<T>, i: nat, u: T -> real, v: T -> real)
    requires i < |s|
    ensures Inner(s[..i + 1], u, v) == Inner(s[..i], u, v) + u(s[i]) * v(s[i])
  {
    assert s[..i + 1][..i] == s[..i];
  }

  lemma {:induction false} InnerSymmetric<T>(s: seq<T>, u: T -> real, v: T -> real)
    ensures Inner(s, u, v) == Inner(s, v, u)
  {
    if s != [] { InnerSymmetric(s[..|s| - 1], u, v); }
  }

  lemma {:induction false} InnerOfSum<T(!new)>(s: seq<T>, w: T -> real, u: T -> real, v: T -> real)
    requires forall x :: w(x) == u(x) + v(x)
    ensures Inner(s, w, w) == Inner(s, u, u) + 2.0 * Inner(s, u, v) + Inner(s, v, v)
  {
    if s != [] {
      InnerOfSum(s[..|s| - 1], w, u, v);
      SquareOfSum(u(s[|s| - 1]), v(s[|s| - 1]));
    }
  }

  /** Sums are linear in their first argument. */
  lemma {:induction false} InnerLinear<T(!new)>(s: seq<T>, w: T -> real, h: T -> real,
    a: real, u: T -> real, b: real, v: T -> real, c: real, z: T -> real)
    requires forall x :: w(x) == a * u(x) + b * v(x) + c * z(x)
    ensures Inner(s, w, h) == a * Inner(s, u, h) + b * Inner(s, v, h) + c * Inner(s, z, h)
  {
    if s != [] {
      var init, x := s[..|s| - 1], s[|s| - 1];
      InnerLinear(init, w, h, a, u, b, v, c, z);
      assert w(x) == a * u(x) + b * v(x) + c * z(x);
      LinearStep(w(x), h(x), a, u(x), Inner(init, u, h), b, v(x), Inner(init, v, h), c, z(x), Inner(init, z, h));
    } else {
      assert Inner(s, w, h) == Inner(s, u, h) == Inner(s, v, h) == Inner(s, z, h) == 0.0;
      LinearZero(a, b, c);
    }
  }

  lemma LinearStep(
    w: real, h: real, a: real, u: real, iu: real, b: real, v: real, iv: real, c: real, z: real, iz: real)
    requires w == a * u + b * v + c * z
    ensures a * iu + b * iv + c * iz + w * h == a * (iu + u * h) + b * (iv + v * h) + c * (iz + z * h)
  {
    Distribute(a, u, iu, h);
    Distribute(b, v, iv, h);
    Distribute(c, z, iz, h);
    SumTimes(a * u, b * v, c * z, h);
  }

  lemma LinearZero(a: real, b: real, c: real)
    ensures a * 0.0 + b * 0.0 + c * 0.0 == 0.0
  {
  }

  lemma SumTimes(a: real, b: real, c: real, h: real)
    ensures (a + b + c) * h == a * h + b * h + c * h
  {
  }

  lemma Distribute(a: real, u: real, rest: real, h: real)
    ensures a * (rest + u * h) == a * rest + a * u * h
  {
  }

  lemma SquareOfSum(a: real, b: real)
    ensures (a + b) * (a + b) == a * a + 2.0 * (a * b) + b * b
  {
  }

  /** A sum of squares vanishes exactly when every term does. */
  lemma {:induction false} InnerSquare<T(!new)>(s: seq<T>, u: T -> real)
    ensures Inner(s, u, u) >= 0.0
    ensures Inner(s, u, u) == 0.0 <==> forall x :: x in s ==> u(x) == 0.0
  {
    if s == [] {
      assert Inner(s, u, u) == 0.0;
    } else {
      var init, last := s[..|s| - 1], s[|s| - 1];
      InnerSquare(init, u);
      SquareSign(u(last));
      assert s == init + [last];
      assert forall x :: x in s <==> x in init || x == last;
    }
  }

  lemma SquareSign(a: real)
    ensures a * a >= 0.0
    ensures a * a == 0.0 <==> a == 0.0
  {
    if a != 0.0 {
      assert (a * a) / a == a;
    }
  }

  /** Sum of t(x) over a sequence. */
  function Total<T>(s: seq<T>, t: T -> real): real {
    if s == [] then 0.0 else Total(s[..|s| - 1], t) + t(s[|s| - 1])
  }

  function Product<T>(u: T -> real, v: T -> real): T -> real { (x: T) => u(x) * v(x) }

  lemma {:induction false} InnerIsTotal<T>(s: seq<T>, u: T -> real, v: T -> real)
    ensures Inner(s, u, v) == Total(s, Product(u, v))
  {
    if s != [] { InnerIsTotal(s[..|s| - 1], u, v); }
  }

  lemma {:induction false} TotalWithout<T>(s: seq<T>, i: nat, t: T -> real)
    requires i < |s|
    ensures Total(s, t) == Total(s[..i] + s[i + 1..], t) + t(s[i])
  {
    var n := |s| - 1;
    if i < n {
      TotalWithout(s[..n], i, t);
      WithoutEarlier(s, i);
    } else {
      assert s[..i] + s[i + 1..] == s[..n];
    }
  }

  lemma {:induction false} WithoutEarlier<T>(s: seq<T>, i: nat)
    requires i < |s| - 1
    ensures var rest, init := s[..i] + s[i + 1..], s[..|s| - 1];
            rest != [] && rest[..|rest| - 1] == init[..i] + init[i + 1..] && rest[|rest| - 1] == s[|s| - 1]
  {
  }

  lemma {:induction false} EmptyPermutation<T>(s: seq<T>)
    requires multiset(s) == multiset{}
    ensures s == []
  {
    assert |multiset(s)| == |s|;
  }

  /** A permutation of init + [last], with last taken out, is a permutation of init. */
  lemma {:induction false} RemoveFromPermutation<T>(init: seq<T>, last: T, b: seq<T>) returns (i: nat)
    requires multiset(init + [last]) == multiset(b)
    ensures i < |b| && b[i] == last
    ensures multiset(b[..i] + b[i + 1..]) == multiset(init)
  {
    assert last in multiset(b);
    i :| 0 <= i < |b| && b[i] == last;
    var before, after := b[..i], b[i + 1..];
    assert b == before + [last] + after;
    assert multiset(before + [last] + after) == multiset(before) + multiset{last} + multiset(after);
    assert multiset(before + after) == multiset(init + [last]) - multiset{last};
    assert multiset(init) == multiset(init + [last]) - multiset{last};
  }

  lemma {:induction false} TotalPermuted<T>(a: seq<T>, b: seq<T>, t: T -> real)
    requires multiset(a) == multiset(b)
    ensures Total(a, t) == Total(b, t)
  {
    if a == [] {
      EmptyPermutation(b);
    } else {
      var init, last := a[..|a| - 1], a[|a| - 1];
      assert a == init + [last];
      var i := RemoveFromPermutation(init, last, b);
      TotalPermuted(init, b[..i] + b[i + 1..], t);
      TotalWithout(b, i, t);
    }
  }

  /** Sums do not depend on the order of their terms. */
  lemma {:induction false} InnerPermuted<T>(a: seq<T>, b: seq<T>, u: T -> real, v: T -> real)
    requires multiset(a) == multiset(b)
    ensures Inner(a, u, v) == Inner(b, u, v)
  {
    InnerIsTotal(a, u, v);
    InnerIsTotal(b, u, v);
    TotalPermuted(a, b, Product(u, v));
  }

  function Map<A, B>(s: seq<A>, f: A -> B): (r: seq<B>)
    ensures |r| == |s| && forall i :: 0 <= i < |s| ==> r[i] == f(s[i])
  {
    seq(|s|, i requires 0 <= i < |s| => f(s[i]))
  }

  lemma {:induction false} MapPermuted<A, B>(a: seq<A>, b: seq<A>, f: A -> B)
    requires multiset(a) == multiset(b)
    ensures multiset(Map(a, f)) == multiset(Map(b, f))
  {
    if a == [] {
      EmptyPermutation(b);
    } else {
      var init, last := a[..|a| - 1], a[|a| - 1];
      assert a == init + [last];
      var i := RemoveFromPermutation(init, last, b);
      MapPermuted(init, b[..i] + b[i + 1..], f);
      assert b == b[..i] + ([last] + b[i + 1..]);
      MapAppend(init, [last], f);
      MapAppend(b[..i], [last] + b[i + 1..], f);
      MapAppend([last], b[i + 1..], f);
      MapAppend(b[..i], b[i + 1..], f);
    }
  }

  lemma {:induction false} MapAppend<A, B>(a: seq<A>, b: seq<A>, f: A -> B)
    ensures Map(a + b, f) == Map(a, f) + Map(b, f)
    ensures multiset(Map(a + b, f)) == multiset(Map(a, f)) + multiset(Map(b, f))
  {
    assert Map(a + b, f) == Map(a, f) + Map(b, f);
  }
}
