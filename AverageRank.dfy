/** The pandas `Series.rank()` default: ascending rank, ties receive the
    average of the positions they occupy. */
module AverageRank {
  import opened Seqs

  datatype Cmp = Below | Equal | Above

  predicate Holds(c: Cmp, y: real, x: real) {
    match c
    case Below => y < x
    case Equal => y == x
    case Above => y > x
  }

  /** The number of elements y of v with `y c x`. */
  function Count(v: seq<real>, c: Cmp, x: real): (n: nat)
    ensures n <= |v|
  {
    if |v| == 0 then 0
    else Count(v[..|v| - 1], c, x) + (if Holds(c, v[|v| - 1], x) then 1 else 0)
  }

  /** The average rank of the value x among the values v: one more than the
      number of smaller values, plus half the number of other equal ones. */
  function RankOf(v: seq<real>, x: real): real {
    Count(v, Below, x) as real + (Count(v, Equal, x) as real + 1.0) / 2.0
  }

  /** `pd.Series(v).rank()`. */
  function Rank(v: seq<real>): (r: seq<real>)
    ensures |r| == |v|
    ensures forall i :: 0 <= i < |v| ==> r[i] == RankOf(v, v[i])
  {
    seq(|v|, i requires 0 <= i < |v| => RankOf(v, v[i]))
  }

  // ---- counting -------------------------------------------------------

  lemma {:induction false} CountAppend(a: seq<real>, b: seq<real>, c: Cmp, x: real)
    ensures Count(a + b, c, x) == Count(a, c, x) + Count(b, c, x)
    decreases |b|
  {
    if |b| == 0 {
      assert a + b == a;
    } else {
      assert (a + b)[..|a + b| - 1] == a + b[..|b| - 1];
      CountAppend(a, b[..|b| - 1], c, x);
    }
  }

  lemma CountRemoveAt(t: seq<real>, k: nat, c: Cmp, x: real)
    requires k < |t|
    ensures Count(t, c, x) == Count(t[..k] + t[k + 1..], c, x) + (if Holds(c, t[k], x) then 1 else 0)
  {
    assert t == t[..k] + [t[k]] + t[k + 1..];
    CountAppend(t[..k] + [t[k]], t[k + 1..], c, x);
    CountAppend(t[..k], [t[k]], c, x);
    CountAppend(t[..k], t[k + 1..], c, x);
    assert [t[k]][..0] == [];
  }

  /** Counts depend only on the multiset of values. */
  lemma {:induction false} CountMultiset(v: seq<real>, w: seq<real>, c: Cmp, x: real)
    requires multiset(v) == multiset(w)
    ensures Count(v, c, x) == Count(w, c, x)
    decreases |v|
  {
    if |v| == 0 {
      assert |w| == |multiset(w)| == 0;
    } else {
      var n := |v| - 1;
      assert v[n] in multiset(w);
      var k :| 0 <= k < |w| && w[k] == v[n];
      RemoveAtMultiset(v, n);
      assert v[..n] + v[n + 1..] == v[..n];
      RemoveAtMultiset(w, k);
      CountMultiset(v[..n], w[..k] + w[k + 1..], c, x);
      CountRemoveAt(w, k, c, x);
    }
  }

  /** Every value is below, equal to or above x. */
  lemma {:induction false} CountPartition(v: seq<real>, x: real)
    ensures Count(v, Below, x) + Count(v, Equal, x) + Count(v, Above, x) == |v|
  {
    if |v| > 0 {
      CountPartition(v[..|v| - 1], x);
    }
  }

  lemma {:induction false} CountBelowMono(v: seq<real>, x: real, y: real)
    requires x < y
    ensures Count(v, Below, y) >= Count(v, Below, x) + Count(v, Equal, x)
  {
    if |v| > 0 {
      CountBelowMono(v[..|v| - 1], x, y);
    }
  }

  lemma {:induction false} CountMember(v: seq<real>, i: nat)
    requires i < |v|
    ensures Count(v, Equal, v[i]) >= 1
  {
    var n := |v| - 1;
    if i < n {
      CountMember(v[..n], i);
    }
  }

  // ---- properties of the rank ------------------------------------------

  /** Rank order is value order, in both directions: equal values share a
      rank and a larger value has a strictly larger rank. */
  lemma RankOrder(v: seq<real>, i: nat, j: nat)
    requires i < |v| && j < |v|
    ensures v[i] < v[j] <==> Rank(v)[i] < Rank(v)[j]
    ensures v[i] == v[j] <==> Rank(v)[i] == Rank(v)[j]
  {
    if v[i] < v[j] {
      RankOfIncreasing(v, i, j);
    } else if v[j] < v[i] {
      RankOfIncreasing(v, j, i);
    }
  }

  lemma RankOfIncreasing(v: seq<real>, i: nat, j: nat)
    requires i < |v| && j < |v| && v[i] < v[j]
    ensures RankOf(v, v[i]) < RankOf(v, v[j])
  {
    CountBelowMono(v, v[i], v[j]);
    CountMember(v, i);
  }

  /** Every rank lies between 1 and the number of values. */
  lemma RankBounds(v: seq<real>, i: nat)
    requires i < |v|
    ensures 1.0 <= Rank(v)[i] <= |v| as real
  {
    CountMember(v, i);
    CountPartition(v, v[i]);
  }

  /** The rank of a value depends only on the multiset of values, so
      reordering the series moves the ranks with their values. */
  lemma RankPermutation(v: seq<real>, w: seq<real>, i: nat, j: nat)
    requires multiset(v) == multiset(w)
    requires i < |v| && j < |w| && v[i] == w[j]
    ensures Rank(v)[i] == Rank(w)[j]
  {
    RankOfMultiset(v, w, v[i]);
  }

  lemma RankOfMultiset(v: seq<real>, w: seq<real>, x: real)
    requires multiset(v) == multiset(w)
    ensures RankOf(v, x) == RankOf(w, x)
  {
    CountMultiset(v, w, Below, x);
    CountMultiset(v, w, Equal, x);
  }

  /** A series of one repeated value ranks every element (n + 1) / 2. */
  lemma {:induction false} RankConstant(v: seq<real>, c: real, i: nat)
    requires forall k :: 0 <= k < |v| ==> v[k] == c
    requires i < |v|
    ensures Rank(v)[i] == (|v| as real + 1.0) / 2.0
  {
    CountAllEqual(v, c);
  }

  lemma {:induction false} CountAllEqual(v: seq<real>, c: real)
    requires forall k :: 0 <= k < |v| ==> v[k] == c
    ensures Count(v, Below, c) == 0 && Count(v, Equal, c) == |v|
  {
    if |v| > 0 {
      CountAllEqual(v[..|v| - 1], c);
    }
  }

  /** Among the ranks, value v[i]'s rank has exactly as many smaller and
      equal ranks as v[i] has smaller and equal values. */
  lemma {:induction false} CountRanks(v: seq<real>, k: nat, i: nat, c: Cmp)
    requires k <= |v| && i < |v| && c != Above
    ensures Count(Rank(v)[..k], c, Rank(v)[i]) == Count(v[..k], c, v[i])
  {
    if k > 0 {
      var r := Rank(v);
      assert r[..k][..k - 1] == r[..k - 1];
      assert v[..k][..k - 1] == v[..k - 1];
      CountRanks(v, k - 1, i, c);
      RankOrder(v, k - 1, i);
    }
  }

  /** Ranking a series of ranks changes nothing. */
  lemma RankIdempotent(v: seq<real>)
    ensures Rank(Rank(v)) == Rank(v)
  {
    var r := Rank(v);
    forall i | 0 <= i < |v| ensures Rank(r)[i] == r[i] {
      CountRanks(v, |v|, i, Below);
      CountRanks(v, |v|, i, Equal);
      assert r[..|v|] == r && v[..|v|] == v;
    }
  }

  // ---- the sum of the ranks ----------------------------------------------

  /** Σ over x in u of Count(w, c, x). */
  function TotalCount(u: seq<real>, w: seq<real>, c: Cmp): int {
    if |u| == 0 then 0 else TotalCount(u[..|u| - 1], w, c) + Count(w, c, u[|u| - 1])
  }

  lemma {:induction false} TotalPartition(u: seq<real>, w: seq<real>)
    ensures TotalCount(u, w, Below) + TotalCount(u, w, Equal) + TotalCount(u, w, Above) == |u| * |w|
  {
    if |u| > 0 {
      TotalPartition(u[..|u| - 1], w);
      CountPartition(w, u[|u| - 1]);
      MulSucc(|u| - 1, |w|);
    }
  }

  lemma MulSucc(n: int, m: int)
    ensures (n + 1) * m == n * m + m
  {
  }

  lemma {:induction false} TotalAddAbove(w: seq<real>, u: seq<real>, a: real)
    ensures TotalCount(w, u + [a], Above) == TotalCount(w, u, Above) + Count(w, Below, a)
  {
    if |w| > 0 {
      var n := |w| - 1;
      TotalAddAbove(w[..n], u, a);
      assert (u + [a])[..|u|] == u;
    }
  }

  /** Counting ordered pairs from either side: Σ_{x∈u} #{y∈w | y < x} equals
      Σ_{y∈w} #{x∈u | x > y}. */
  lemma {:induction false} TotalSwap(u: seq<real>, w: seq<real>)
    ensures TotalCount(u, w, Below) == TotalCount(w, u, Above)
  {
    if |u| == 0 {
      TotalEmpty(w);
    } else {
      var n := |u| - 1;
      TotalSwap(u[..n], w);
      assert u == u[..n] + [u[n]];
      TotalAddAbove(w, u[..n], u[n]);
    }
  }

  lemma {:induction false} TotalEmpty(w: seq<real>)
    ensures TotalCount(w, [], Above) == 0
  {
    if |w| > 0 {
      TotalEmpty(w[..|w| - 1]);
    }
  }

  lemma {:induction false} SumRankOf(u: seq<real>, v: seq<real>)
    ensures 2.0 * Sum(Map(u, x => RankOf(v, x)))
         == 2.0 * TotalCount(u, v, Below) as real + TotalCount(u, v, Equal) as real + |u| as real
  {
    if |u| > 0 {
      var n := |u| - 1;
      SumRankOf(u[..n], v);
      assert Map(u, x => RankOf(v, x))[..n] == Map(u[..n], x => RankOf(v, x));
    }
  }

  /** The ranks of n values sum to n (n + 1) / 2. */
  lemma RankSum(v: seq<real>)
    ensures Sum(Rank(v)) == (|v| * (|v| + 1)) as real / 2.0
  {
    SumRankOf(v, v);
    assert Rank(v) == Map(v, x => RankOf(v, x));
    TotalPartition(v, v);
    TotalSwap(v, v);
  }
}
