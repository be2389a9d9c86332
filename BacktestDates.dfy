/** `get_backtest_dates`: every date on which the portfolio holds some
    stock, sorted and without duplicates. */
module BacktestDates {
  import opened Seqs
  import opened Calendar

  /** d is a membership date of some stock. */
  ghost predicate Listed(m: map<string, seq<Date>>, d: Date) {
    exists s :: s in m && d in m[s]
  }

  /** The dates gathered from the stocks in `done`. */
  ghost predicate Gathered(m: map<string, seq<Date>>, done: set<string>, dates: seq<Date>) {
    done <= m.Keys && forall d :: d in dates <==> exists s :: s in done && d in m[s]
  }

  /** The loop extends one list with every stock's dates (in the map's
      iteration order, which the result does not depend on) and returns the
      sorted set of them. */
  method GetBacktestDates(m: map<string, seq<Date>>) returns (r: seq<Date>)
    ensures StrictlyAscending(r)
    ensures forall d :: d in r <==> Listed(m, d)
    ensures forall s, d :: s in m && d in m[s] ==> d in r
    ensures |m| == 0 ==> r == []
  {
    var ptfDates: seq<Date> := [];
    var rest := m.Keys;
    while rest != {}
      invariant rest <= m.Keys
      invariant Gathered(m, m.Keys - rest, ptfDates)
      decreases |rest|
    {
      var s :| s in rest;
      ptfDates := ptfDates + m[s];
      rest := rest - {s};
    }
    assert m.Keys - rest == m.Keys;
    r := Ascending(ptfDates);
    forall d ensures d in r <==> Listed(m, d) {
      assert d in r <==> d in Elems(r);
      assert d in Elems(ptfDates) <==> d in ptfDates;
    }
    if |r| > 0 {
      assert r[0] in r;
    }
  }
}
