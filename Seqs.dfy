/** Sequence helpers shared by the model: real sums, Python slice
    semantics, strictly ascending integer sequences and their unions. */
module Seqs {

  /** The set of elements of a sequence. */
  function Elems<T>(s: seq<T>): set<T> {
    set x | x in s
  }

  lemma ElemsCons<T>(x: T, s: seq<T>)
    ensures Elems([x] + s) == {x} + Elems(s)
  {
    assert forall y :: y in [x] + s <==> y == x || y in s;
  }

  /** Sum of reals, accumulating from the left as Python's `sum` does. */
  function Sum(s: seq<real>): real {
    if |s| == 0 then 0.0 else Sum(s[..|s| - 1]) + s[|s| - 1]
  }

  lemma {:induction false} SumAppend(a: seq<real>, b: seq<real>)
    ensures Sum(a + b) == Sum(a) + Sum(b)
    decreases |b|
  {
    if |b| == 0 {
      assert a + b == a;
    } else {
      assert (a + b)[..|a + b| - 1] == a + b[..|b| - 1];
      SumAppend(a, b[..|b| - 1]);
    }
  }

  /** `[f(x) for x in s]`. */
  function Map<A, B>(s: seq<A>, f: A -> B): (r: seq<B>)
    ensures |r| == |s|
    ensures forall i :: 0 <= i < |s| ==> r[i] == f(s[i])
  {
    seq(|s|, i requires 0 <= i < |s| => f(s[i]))
  }

  /** Removing the element at index k removes one copy of it. */
  lemma RemoveAtMultiset<A>(t: seq<A>, k: nat)
    requires k < |t|
    ensures multiset(t[..k] + t[k + 1..]) == multiset(t) - multiset{t[k]}
  {
    assert t == t[..k] + [t[k]] + t[k + 1..];
    assert multiset(t) == multiset(t[..k]) + multiset{t[k]} + multiset(t[k + 1..]);
  }

  lemma MapRemoveAt<A, B>(t: seq<A>, k: nat, g: A -> B)
    requires k < |t|
    ensures multiset(Map(t, g)) == multiset(Map(t[..k] + t[k + 1..], g)) + multiset{g(t[k])}
  {
    var m := Map(t, g);
    assert Map(t[..k] + t[k + 1..], g) == m[..k] + m[k + 1..];
    RemoveAtMultiset(m, k);
  }

  /** Mapping two rearrangements of one sequence with pointwise equal
      functions gives rearrangements of one another. */
  lemma {:induction false} MapMultiset<A, B>(s: seq<A>, t: seq<A>, f: A -> B, g: A -> B)
    requires multiset(s) == multiset(t)
    requires forall x :: f(x) == g(x)
    ensures multiset(Map(s, f)) == multiset(Map(t, g))
    decreases |s|
  {
    if |s| == 0 {
      assert |t| == |multiset(t)| == 0;
    } else {
      var n := |s| - 1;
      var a := s[n];
      assert a in multiset(t);
      var k :| 0 <= k < |t| && t[k] == a;
      var t' := t[..k] + t[k + 1..];
      RemoveAtMultiset(s, n);
      assert s[..n] + s[n + 1..] == s[..n];
      RemoveAtMultiset(t, k);
      MapMultiset(s[..n], t', f, g);
      MapRemoveAt(s, n, f);
      MapRemoveAt(t, k, g);
    }
  }

  /** Cutting a rearrangement of s at n: what the prefix does not take
      of s is the suffix. */
  lemma SplitMultiset<T>(s: seq<T>, sorted: seq<T>, n: nat)
    requires multiset(sorted) == multiset(s) && n <= |sorted|
    ensures multiset(sorted[..n]) <= multiset(s)
    ensures multiset(s) - multiset(sorted[..n]) == multiset(sorted[n..])
  {
    assert sorted == sorted[..n] + sorted[n..];
    assert multiset(sorted) == multiset(sorted[..n]) + multiset(sorted[n..]);
  }

  /** Python's normalisation of a slice bound `i` on a sequence of length n:
      a negative bound counts from the end, both are clamped to [0, n]. */
  function PyIndex(n: nat, i: int): (r: nat)
    ensures r <= n
    ensures i >= 0 ==> r == if i <= n then i else n
    ensures i < 0 ==> r == if n + i >= 0 then n + i else 0
  {
    if i < 0 then (if n + i >= 0 then n + i else 0) else (if i <= n then i else n)
  }

  /** Python's `s[i:j]`: empty when the normalised start is past the stop. */
  function PySlice<T>(s: seq<T>, i: int, j: int): seq<T> {
    var lo := PyIndex(|s|, i);
    var hi := PyIndex(|s|, j);
    if lo <= hi then s[lo..hi] else []
  }

  /** Python's `s[:k]` (pandas `iloc[:k]`). */
  function PyPrefix<T>(s: seq<T>, k: int): seq<T> {
    s[..PyIndex(|s|, k)]
  }

  /** Python's `s[-k:]` (pandas `iloc[-k:]`); note that k = 0 keeps the
      whole sequence, because -0 == 0. */
  function PySuffix<T>(s: seq<T>, k: int): seq<T> {
    s[PyIndex(|s|, -k)..]
  }

  lemma PySuffixLength<T>(s: seq<T>, k: int)
    ensures 0 < k <= |s| ==> |PySuffix(s, k)| == k
    ensures k > |s| ==> PySuffix(s, k) == s
    ensures k == 0 ==> PySuffix(s, k) == s
  {
  }

  predicate StrictlyAscending(s: seq<int>) {
    forall i, j :: 0 <= i < j < |s| ==> s[i] < s[j]
  }

  /** The sorted, duplicate-free union of two strictly ascending sequences,
      i.e. `sorted(set(a + b))`. */
  function MergeUnion(a: seq<int>, b: seq<int>): (r: seq<int>)
    requires StrictlyAscending(a) && StrictlyAscending(b)
    ensures StrictlyAscending(r)
    ensures Elems(r) == Elems(a) + Elems(b)
    decreases |a| + |b|
  {
    if |a| == 0 then b
    else if |b| == 0 then a
    else if a[0] <= b[0] then
      var b' := if a[0] == b[0] then b[1..] else b;
      AscendingTail(a);
      AscendingTail(b);
      var t := MergeUnion(a[1..], b');
      MergeTakesA(a, b, b', t);
      [a[0]] + t
    else
      AscendingTail(b);
      var t := MergeUnion(a, b[1..]);
      MergeTakesB(a, b, t);
      [b[0]] + t
  }

  /** The merge starts with a's head when it is not after b's. */
  lemma MergeTakesA(a: seq<int>, b: seq<int>, b': seq<int>, t: seq<int>)
    requires StrictlyAscending(a) && StrictlyAscending(b) && |a| > 0 && |b| > 0 && a[0] <= b[0]
    requires b' == if a[0] == b[0] then b[1..] else b
    requires StrictlyAscending(t) && Elems(t) == Elems(a[1..]) + Elems(b')
    ensures StrictlyAscending([a[0]] + t) && Elems([a[0]] + t) == Elems(a) + Elems(b)
  {
    AscendingTail(a);
    AscendingTail(b);
    assert Elems(b) == Elems(b') + (if a[0] == b[0] then {b[0]} else {});
    forall x | x in Elems(b') ensures a[0] < x {
      if a[0] != b[0] {
        var k :| 0 <= k < |b| && b[k] == x;
        if k > 0 { assert b[0] < b[k]; }
      }
    }
    PrependAscending(a[0], t);
    ElemsCons(a[0], t);
  }

  /** The merge starts with b's head when it is before a's. */
  lemma MergeTakesB(a: seq<int>, b: seq<int>, t: seq<int>)
    requires StrictlyAscending(a) && StrictlyAscending(b) && |a| > 0 && |b| > 0 && b[0] < a[0]
    requires StrictlyAscending(t) && Elems(t) == Elems(a) + Elems(b[1..])
    ensures StrictlyAscending([b[0]] + t) && Elems([b[0]] + t) == Elems(a) + Elems(b)
  {
    AscendingTail(a);
    AscendingTail(b);
    PrependAscending(b[0], t);
    ElemsCons(b[0], t);
  }

  lemma AscendingTail(s: seq<int>)
    requires StrictlyAscending(s) && |s| > 0
    ensures StrictlyAscending(s[1..])
    ensures Elems(s) == {s[0]} + Elems(s[1..])
    ensures forall x :: x in Elems(s[1..]) ==> s[0] < x
  {
    assert s == [s[0]] + s[1..];
    ElemsCons(s[0], s[1..]);
    forall x | x in Elems(s[1..]) ensures s[0] < x {
      var k :| 0 <= k < |s[1..]| && s[1..][k] == x;
      assert s[k + 1] == x;
    }
  }

  lemma PrependAscending(x: int, t: seq<int>)
    requires StrictlyAscending(t)
    requires forall y :: y in Elems(t) ==> x < y
    ensures StrictlyAscending([x] + t)
  {
    forall i, j | 0 <= i < j < |[x] + t| ensures ([x] + t)[i] < ([x] + t)[j] {
      assert ([x] + t)[j] == t[j - 1];
      assert t[j - 1] in Elems(t);
      if i > 0 { assert ([x] + t)[i] == t[i - 1]; }
    }
  }

  lemma AppendAscending(t: seq<int>, x: int)
    requires StrictlyAscending(t)
    requires forall k :: 0 <= k < |t| ==> t[k] < x
    ensures StrictlyAscending(t + [x])
  {
    var r := t + [x];
    forall i, j | 0 <= i < j < |r| ensures r[i] < r[j] {
      assert r[i] == t[i];
      if j < |t| { assert r[j] == t[j]; }
    }
  }

  /** The days lo..hi (both included) that belong to `days`, ascending:
      `sorted(set(days) & set(date_range(lo, hi)))`. */
  function DaysIn(lo: int, hi: int, days: set<int>): (r: seq<int>)
    ensures StrictlyAscending(r)
    ensures Elems(r) == set d | d in days && lo <= d <= hi
    ensures forall k :: 0 <= k < |r| ==> lo <= r[k] <= hi
    decreases hi - lo
  {
    if hi < lo then []
    else
      var rest := DaysIn(lo + 1, hi, days);
      ElemsCons(lo, rest);
      assert forall y :: y in Elems(rest) ==> lo < y;
      PrependAscending(lo, rest);
      if lo in days then [lo] + rest else rest
  }

  /** `sorted(set(xs))` for integers (or dates): the distinct elements of
      xs, ascending. */
  function Ascending(xs: seq<int>): (r: seq<int>)
    ensures StrictlyAscending(r) && Elems(r) == Elems(xs)
  {
    if |xs| == 0 then []
    else
      var n := |xs| - 1;
      assert xs == xs[..n] + [xs[n]];
      assert Elems(xs) == Elems(xs[..n]) + {xs[n]};
      MergeUnion(Ascending(xs[..n]), [xs[n]])
  }

  /** No element occurs twice. */
  predicate Distinct<T(==)>(s: seq<T>) {
    forall i, j :: 0 <= i < j < |s| ==> s[i] != s[j]
  }

  /** Splitting the last element off a duplicate-free sequence. */
  lemma DistinctLast<T>(s: seq<T>)
    requires Distinct(s) && |s| > 0
    ensures Distinct(s[..|s| - 1])
    ensures s[|s| - 1] !in Elems(s[..|s| - 1])
    ensures Elems(s) == Elems(s[..|s| - 1]) + {s[|s| - 1]}
  {
    var n := |s| - 1;
    assert s == s[..n] + [s[n]];
  }

  /** A duplicate-free sequence has as many elements as its length. */
  lemma {:induction false} DistinctCard<T>(s: seq<T>)
    requires Distinct(s)
    ensures |Elems(s)| == |s|
    decreases |s|
  {
    if |s| > 0 {
      DistinctLast(s);
      DistinctCard(s[..|s| - 1]);
    } else {
      assert Elems(s) == {};
    }
  }
}
