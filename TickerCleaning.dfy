/** Removing excluded tickers from the ticker list of every period. The
    lists are changed in place, one `list.remove` at a time. */
module TickerCleaning {

  /** The first position of x in s, |s| when there is none. */
  function Find<T(==)>(s: seq<T>, x: T): (k: nat)
    ensures k <= |s|
    ensures k < |s| ==> s[k] == x
    ensures forall j :: 0 <= j < k ==> s[j] != x
    ensures k == |s| <==> x !in s
  {
    if |s| == 0 then 0
    else if s[0] == x then 0
    else 1 + Find(s[1..], x)
  }

  /** `list.remove(x)`: the list without the first occurrence of x, the
      list itself when x is absent (the `ValueError` that is ignored). */
  function RemoveFirst<T(==)>(s: seq<T>, x: T): (r: seq<T>)
  {
    var k := Find(s, x);
    if k == |s| then s else s[..k] + s[k + 1..]
  }

  /** The excluded tickers removed one after the other, in their order. */
  function RemoveEach<T(==)>(s: seq<T>, excluded: seq<T>): seq<T>
  {
    if |excluded| == 0 then s
    else RemoveFirst(RemoveEach(s, excluded[..|excluded| - 1]), excluded[|excluded| - 1])
  }

  /** A ticker list owned by one period. */
  class TickerList {
    var items: seq<string>

    constructor(items: seq<string>)
      ensures this.items == items
    {
      this.items := items;
    }

    /** `list.remove`: reports whether x was there, and takes out its first
        occurrence. */
    method Remove(x: string) returns (found: bool)
      modifies this
      ensures found <==> x in old(items)
      ensures items == RemoveFirst(old(items), x)
    {
      var k := 0;
      while k < |items| && items[k] != x
        invariant 0 <= k <= |items|
        invariant forall j :: 0 <= j < k ==> items[j] != x
      {
        k := k + 1;
      }
      assert k == Find(items, x) by {
        FindIsFirst(items, x, k);
      }
      found := k < |items|;
      if found {
        items := items[..k] + items[k + 1..];
      }
    }
  }

  lemma FindIsFirst<T>(s: seq<T>, x: T, k: nat)
    requires k <= |s| && (k < |s| ==> s[k] == x)
    requires forall j :: 0 <= j < k ==> s[j] != x
    ensures k == Find(s, x)
  {
    var f := Find(s, x);
    assert f < |s| ==> s[f] == x;
  }

  /** `clean_period_tickers`: every period's list loses the excluded
      tickers, and the result holds the same periods, in the same order,
      with the same (changed) list objects. */
  method CleanPeriodTickers(periods: seq<(string, TickerList)>, excluded: seq<string>)
    returns (cleaned: seq<(string, TickerList)>)
    requires forall i, j :: 0 <= i < j < |periods| ==> periods[i].1 != periods[j].1
    modifies set i | 0 <= i < |periods| :: periods[i].1
    ensures cleaned == periods
    ensures forall i :: 0 <= i < |periods| ==> periods[i].1.items == RemoveEach(old(periods[i].1.items), excluded)
  {
    cleaned := [];
    var i := 0;
    while i < |periods|
      invariant 0 <= i <= |periods| && cleaned == periods[..i]
      invariant forall k :: 0 <= k < i ==> periods[k].1.items == RemoveEach(old(periods[k].1.items), excluded)
      invariant forall k :: i <= k < |periods| ==> periods[k].1.items == old(periods[k].1.items)
    {
      var tickers := periods[i].1;
      var j := 0;
      while j < |excluded|
        invariant 0 <= j <= |excluded|
        invariant tickers.items == RemoveEach(old(tickers.items), excluded[..j])
        invariant forall k :: 0 <= k < i ==> periods[k].1.items == RemoveEach(old(periods[k].1.items), excluded)
        invariant forall k :: i < k < |periods| ==> periods[k].1.items == old(periods[k].1.items)
      {
        assert excluded[..j + 1][..j] == excluded[..j];
        var _ := tickers.Remove(excluded[j]);
        j := j + 1;
      }
      assert excluded[..j] == excluded;
      cleaned := cleaned + [periods[i]];
      i := i + 1;
    }
  }

  // ---------------------------------------------------------------------
  // What the removals leave

  /** Removing x takes exactly one copy of x out, if there is one. */
  lemma RemoveFirstMultiset<T>(s: seq<T>, x: T)
    ensures multiset(RemoveFirst(s, x)) == multiset(s) - multiset{x}
  {
    var k := Find(s, x);
    if k < |s| {
      assert s == s[..k] + [x] + s[k + 1..];
      DropOne(s[..k], x, s[k + 1..]);
    } else {
      DropAbsent(s, x);
    }
  }

  lemma DropOne<T>(a: seq<T>, x: T, b: seq<T>)
    ensures multiset(a + b) == multiset(a + [x] + b) - multiset{x}
  {
    assert multiset(a + [x] + b) == multiset(a) + multiset{x} + multiset(b);
  }

  lemma DropAbsent<T>(s: seq<T>, x: T)
    requires x !in s
    ensures multiset(s) == multiset(s) - multiset{x}
  {
    assert multiset(s)[x] == 0;
  }

  /** The cleaned list holds every ticker as often as before, less the
      number of times it is excluded: an excluded ticker present once is
      gone, an absent one changes nothing, and a ticker excluded twice
      loses two occurrences. */
  lemma {:induction false} RemoveEachMultiset<T>(s: seq<T>, excluded: seq<T>)
    ensures multiset(RemoveEach(s, excluded)) == multiset(s) - multiset(excluded)
  {
    if |excluded| > 0 {
      var n := |excluded| - 1;
      RemoveEachMultiset(s, excluded[..n]);
      RemoveFirstMultiset(RemoveEach(s, excluded[..n]), excluded[n]);
      SnocMultiset(excluded, n);
      MinusTwice(multiset(s), multiset(excluded[..n]), multiset{excluded[n]});
    }
  }

  lemma SnocMultiset<T>(s: seq<T>, n: nat)
    requires n + 1 == |s|
    ensures multiset(s) == multiset(s[..n]) + multiset{s[n]}
  {
    assert s == s[..n] + [s[n]];
  }

  lemma MinusTwice<T>(m: multiset<T>, a: multiset<T>, b: multiset<T>)
    ensures (m - a) - b == m - (a + b)
  {
    forall y ensures ((m - a) - b)[y] == (m - (a + b))[y] {
    }
  }

  /** The tickers of s outside a set, in order. */
  function Outside<T>(s: seq<T>, out: set<T>): (r: seq<T>)
    ensures forall t :: t in r ==> t in s && t !in out
  {
    if |s| == 0 then []
    else (if s[0] in out then [] else [s[0]]) + Outside(s[1..], out)
  }

  lemma {:induction false} OutsideAppend<T>(a: seq<T>, b: seq<T>, out: set<T>)
    ensures Outside(a + b, out) == Outside(a, out) + Outside(b, out)
  {
    if |a| > 0 {
      var h := if a[0] in out then [] else [a[0]];
      assert (a + b)[0] == a[0] && (a + b)[1..] == a[1..] + b;
      OutsideAppend(a[1..], b, out);
      assert Outside(a + b, out) == h + (Outside(a[1..], out) + Outside(b, out));
      assert Outside(a, out) == h + Outside(a[1..], out);
    } else {
      assert a + b == b;
    }
  }

  lemma RemoveFirstKeepsOthers<T>(s: seq<T>, x: T, out: set<T>)
    requires x in out
    ensures Outside(RemoveFirst(s, x), out) == Outside(s, out)
  {
    var k := Find(s, x);
    if k < |s| {
      assert s == s[..k] + ([x] + s[k + 1..]);
      OutsideAppend(s[..k], [x] + s[k + 1..], out);
      OutsideAppend([x], s[k + 1..], out);
      OutsideAppend(s[..k], s[k + 1..], out);
    }
  }

  /** The tickers that are not excluded stay, in their order. */
  lemma {:induction false} RemoveEachKeepsOthers<T>(s: seq<T>, excluded: seq<T>, out: set<T>)
    requires forall x :: x in excluded ==> x in out
    ensures Outside(RemoveEach(s, excluded), out) == Outside(s, out)
  {
    if |excluded| > 0 {
      var n := |excluded| - 1;
      assert forall x :: x in excluded[..n] ==> x in excluded;
      RemoveEachKeepsOthers(s, excluded[..n], out);
      RemoveFirstKeepsOthers(RemoveEach(s, excluded[..n]), excluded[n], out);
    }
  }

  /** The excluded tickers that occur in s, counted once per exclusion. */
  function Present<T(==)>(s: seq<T>, excluded: seq<T>): (n: nat)
    ensures n <= |excluded|
  {
    if |excluded| == 0 then 0
    else Present(s, excluded[..|excluded| - 1]) + (if excluded[|excluded| - 1] in s then 1 else 0)
  }

  /** In a list without repeated tickers, a ticker stays exactly when it is
      not excluded. */
  lemma RemoveEachMembers<T>(s: seq<T>, excluded: seq<T>, t: T)
    requires forall i, j :: 0 <= i < j < |s| ==> s[i] != s[j]
    ensures t in RemoveEach(s, excluded) <==> t in s && t !in excluded
  {
    RemoveEachMultiset(s, excluded);
    DistinctAtMostOnce(s, t);
    assert t in RemoveEach(s, excluded) <==> multiset(RemoveEach(s, excluded))[t] > 0;
    assert t in excluded <==> multiset(excluded)[t] > 0;
  }

  lemma RemoveFirstLength<T>(s: seq<T>, x: T)
    ensures |RemoveFirst(s, x)| == |s| - (if x in s then 1 else 0)
  {
  }

  /** Each list without repeated tickers shrinks by the number of distinct
      excluded tickers it holds. */
  lemma {:induction false} RemoveEachLength<T>(s: seq<T>, excluded: seq<T>)
    requires forall i, j :: 0 <= i < j < |excluded| ==> excluded[i] != excluded[j]
    requires forall i, j :: 0 <= i < j < |s| ==> s[i] != s[j]
    ensures |RemoveEach(s, excluded)| == |s| - Present(s, excluded)
  {
    if |excluded| > 0 {
      var n := |excluded| - 1;
      var x := excluded[n];
      RemoveEachLength(s, excluded[..n]);
      RemoveEachMembers(s, excluded[..n], x);
      RemoveFirstLength(RemoveEach(s, excluded[..n]), x);
      assert x !in excluded[..n];
    }
  }

  lemma DistinctAtMostOnce<T>(s: seq<T>, x: T)
    requires forall i, j :: 0 <= i < j < |s| ==> s[i] != s[j]
    ensures multiset(s)[x] == (if x in s then 1 else 0)
  {
    if x in s {
      var k :| 0 <= k < |s| && s[k] == x;
      assert s == s[..k] + [x] + s[k + 1..];
      assert x !in s[..k] && x !in s[k + 1..];
    }
  }
}
