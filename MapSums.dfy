/** Sums of the real values a map holds for a set of keys: the model of
    `sum(d.values())` over Python dictionaries, whose order does not matter
    for exact arithmetic. */
module MapSums {
  import opened Seqs

  ghost function SumOver<K>(ks: set<K>, m: map<K, real>): real
    requires ks <= m.Keys
    decreases ks
  {
    if ks == {} then 0.0 else var k :| k in ks; m[k] + SumOver(ks - {k}, m)
  }

  /** The sum of all values of a map. */
  ghost function SumValues<K>(m: map<K, real>): real {
    SumOver(m.Keys, m)
  }

  /** Any key can be split off first. */
  lemma {:induction false} SumOverRemove<K>(ks: set<K>, m: map<K, real>, k: K)
    requires ks <= m.Keys && k in ks
    ensures SumOver(ks, m) == m[k] + SumOver(ks - {k}, m)
    decreases ks
  {
    var j :| j in ks && SumOver(ks, m) == m[j] + SumOver(ks - {j}, m);
    if j != k {
      SumOverRemove(ks - {j}, m, k);
      SumOverRemove(ks - {k}, m, j);
      assert ks - {j} - {k} == ks - {k} - {j};
    }
  }

  lemma SumOverAdd<K>(ks: set<K>, m: map<K, real>, k: K)
    requires ks <= m.Keys && k in m && k !in ks
    ensures SumOver(ks + {k}, m) == SumOver(ks, m) + m[k]
  {
    SumOverRemove(ks + {k}, m, k);
    assert ks + {k} - {k} == ks;
  }

  /** Only the values of the summed keys matter. */
  lemma {:induction false} SumOverAgree<K>(ks: set<K>, m1: map<K, real>, m2: map<K, real>)
    requires ks <= m1.Keys && ks <= m2.Keys
    requires forall k :: k in ks ==> m1[k] == m2[k]
    ensures SumOver(ks, m1) == SumOver(ks, m2)
    decreases ks
  {
    if ks != {} {
      var k :| k in ks;
      SumOverRemove(ks, m1, k);
      SumOverRemove(ks, m2, k);
      SumOverAgree(ks - {k}, m1, m2);
    }
  }

  /** Summing over a union of disjoint key sets. */
  lemma {:induction false} SumOverSplit<K>(a: set<K>, b: set<K>, m: map<K, real>)
    requires a <= m.Keys && b <= m.Keys && a !! b
    ensures SumOver(a + b, m) == SumOver(a, m) + SumOver(b, m)
    decreases b
  {
    if b != {} {
      var k :| k in b;
      SumOverRemove(a + b, m, k);
      SumOverRemove(b, m, k);
      assert a + b - {k} == a + (b - {k});
      SumOverSplit(a, b - {k}, m);
    } else {
      assert a + b == a;
    }
  }

  /** `n` equal amounts `c` added one after the other. */
  function Times(n: nat, c: real): real {
    if n == 0 then 0.0 else Times(n - 1, c) + c
  }

  lemma {:induction false} TimesIsProduct(n: nat, c: real)
    ensures Times(n, c) == n as real * c
  {
    if n > 0 {
      TimesIsProduct(n - 1, c);
    }
  }

  lemma {:induction false} TimesPlus(n: nat, a: real, b: real)
    ensures Times(n, a) + Times(n, b) == Times(n, a + b)
  {
    if n > 0 {
      TimesPlus(n - 1, a, b);
    }
  }

  /** Adding n times the n-th part of x gives x back. */
  lemma TimesPart(n: nat, x: real)
    requires n > 0
    ensures Times(n, x / n as real) == x
  {
    TimesIsProduct(n, x / n as real);
  }

  lemma {:induction false} TimesZero(n: nat)
    ensures Times(n, 0.0) == 0.0
  {
    if n > 0 {
      TimesZero(n - 1);
    }
  }

  lemma {:induction false} TimesNonNegative(n: nat, c: real)
    requires c >= 0.0
    ensures Times(n, c) >= 0.0
  {
    if n > 0 {
      TimesNonNegative(n - 1, c);
    }
  }

  /** The sum of a constant is the constant added once per key. */
  lemma {:induction false} SumOverSame<K>(ks: set<K>, m: map<K, real>, c: real)
    requires ks <= m.Keys && forall k :: k in ks ==> m[k] == c
    ensures SumOver(ks, m) == Times(|ks|, c)
    decreases ks
  {
    if ks != {} {
      var k :| k in ks;
      SumOverRemove(ks, m, k);
      SumOverSame(ks - {k}, m, c);
    }
  }

  /** A sum of non-negative values is non-negative. */
  lemma {:induction false} SumOverNonNegative<K>(ks: set<K>, m: map<K, real>)
    requires ks <= m.Keys && forall k :: k in ks ==> m[k] >= 0.0
    ensures SumOver(ks, m) >= 0.0
    decreases ks
  {
    if ks != {} {
      var k :| k in ks;
      SumOverRemove(ks, m, k);
      SumOverNonNegative(ks - {k}, m);
    }
  }

  /** Summing `a[k] + b[k]` term by term. */
  lemma {:induction false} SumOverPlus<K>(ks: set<K>, r: map<K, real>, a: map<K, real>, b: map<K, real>)
    requires ks <= r.Keys && ks <= a.Keys && ks <= b.Keys
    requires forall k :: k in ks ==> r[k] == a[k] + b[k]
    ensures SumOver(ks, r) == SumOver(ks, a) + SumOver(ks, b)
    decreases ks
  {
    if ks != {} {
      var k :| k in ks;
      SumOverRemove(ks, r, k);
      SumOverRemove(ks, a, k);
      SumOverRemove(ks, b, k);
      SumOverPlus(ks - {k}, r, a, b);
    }
  }

  /** Summing `c * a[k]` term by term. */
  lemma SumOverScale<K>(ks: set<K>, r: map<K, real>, a: map<K, real>, c: real)
    requires ks <= r.Keys && ks <= a.Keys
    requires forall k :: k in ks ==> r[k] == c * a[k]
    ensures SumOver(ks, r) == c * SumOver(ks, a)
  {
    ScaleByAdditive(c);
    forall k | k in ks ensures r[k] == ScaleBy(c)(a[k]) {
      ScaleByAt(c, a[k]);
    }
    SumOverMapped(ks, r, a, ScaleBy(c));
    assert SumOver(ks, r) == ScaleBy(c)(SumOver(ks, a));
    ScaleByAt(c, SumOver(ks, a));
    assert ScaleBy(c)(SumOver(ks, a)) == c * SumOver(ks, a);
  }

  /** Multiplication by c, as a function. */
  function ScaleBy(c: real): real -> real {
    x => c * x
  }

  lemma ScaleByAt(c: real, x: real)
    ensures ScaleBy(c)(x) == c * x
  {
  }

  lemma ScaleByAdditive(c: real)
    ensures forall x: real, y: real :: ScaleBy(c)(Add(x, y)) == ScaleBy(c)(x) + ScaleBy(c)(y)
  {
    forall x: real, y: real ensures ScaleBy(c)(Add(x, y)) == ScaleBy(c)(x) + ScaleBy(c)(y) {
      ScaleByAt(c, x);
      ScaleByAt(c, y);
      ScaleByAt(c, Add(x, y));
      Distributes(c, x, y);
    }
  }

  lemma Distributes(c: real, x: real, y: real)
    ensures c * Add(x, y) == c * x + c * y
  {
  }

  function Add(x: real, y: real): (z: real)
    ensures z - y == x
  {
    x + y
  }

  /** Summing `f(a[k])` term by term, for an f that distributes over `+`. */
  lemma {:induction false} SumOverMapped<K>(ks: set<K>, r: map<K, real>, a: map<K, real>, f: real -> real)
    requires ks <= r.Keys && ks <= a.Keys
    requires forall x: real, y: real :: f(Add(x, y)) == f(x) + f(y)
    requires forall k :: k in ks ==> r[k] == f(a[k])
    ensures SumOver(ks, r) == f(SumOver(ks, a))
    decreases ks
  {
    if ks != {} {
      var k :| k in ks;
      SumOverRemove(ks, r, k);
      SumOverRemove(ks, a, k);
      SumOverMapped(ks - {k}, r, a, f);
      assert f(Add(a[k], SumOver(ks - {k}, a))) == f(a[k]) + f(SumOver(ks - {k}, a));
    } else {
      assert f(Add(0.0, 0.0)) == f(0.0) + f(0.0);
    }
  }

  /** `sum(cap for cap in d.values())`, adding the values one key at a time. */
  method Total<K>(m: map<K, real>) returns (s: real)
    ensures s == SumValues(m)
  {
    s := 0.0;
    var rest := m.Keys;
    while rest != {}
      invariant rest <= m.Keys
      invariant s == SumOver(m.Keys - rest, m)
      decreases |rest|
    {
      var k :| k in rest;
      SumOverTake(m, rest, k);
      s := s + m[k];
      rest := rest - {k};
    }
    assert m.Keys - rest == m.Keys;
  }

  /** Moving key k from the keys still to add to those added. */
  lemma SumOverTake<K>(m: map<K, real>, rest: set<K>, k: K)
    requires rest <= m.Keys && k in rest
    ensures SumOver(m.Keys - (rest - {k}), m) == SumOver(m.Keys - rest, m) + m[k]
  {
    SumOverAdd(m.Keys - rest, m, k);
    assert m.Keys - rest + {k} == m.Keys - (rest - {k});
  }

  /** The values of `m` at the keys `ks`, added in list order. */
  ghost function SumOn<K>(ks: seq<K>, m: map<K, real>): real
    requires forall k :: k in ks ==> k in m
  {
    if |ks| == 0 then 0.0 else SumOn(ks[..|ks| - 1], m) + m[ks[|ks| - 1]]
  }

  /** Adding in list order gives the sum over the listed keys, whatever
      the order of the list. */
  lemma {:induction false} SumOnIsSumOver<K>(ks: seq<K>, m: map<K, real>)
    requires forall k :: k in ks ==> k in m
    requires Distinct(ks)
    ensures Elems(ks) <= m.Keys
    ensures SumOn(ks, m) == SumOver(Elems(ks), m)
    decreases |ks|
  {
    if |ks| > 0 {
      var n := |ks| - 1;
      DistinctLast(ks);
      assert forall k :: k in ks[..n] ==> k in ks;
      SumOnIsSumOver(ks[..n], m);
      SumOverAdd(Elems(ks[..n]), m, ks[n]);
    } else {
      assert Elems(ks) == {};
    }
  }
}
