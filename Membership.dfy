/** Which stocks are in the portfolio on which days (`get_stocks_dates_in_ptf`
    of the monthly and the weekly plugin): per rank date, the eligible
    stocks are filtered and the top N by composite rank are picked; each pick
    holds the trading days of the following month (monthly) or of days
    +3 .. +7 (weekly); the days of every stock are merged over all periods. */
module Membership {
  import opened Wrappers
  import opened Seqs
  import opened Strings
  import opened Calendar
  import opened EsrRank

  datatype Frequency = Monthly | Weekly

  datatype Options = Options(numberOfTopStocks: int, rsLimited: bool, smaFiltered: bool, rsLimit: int)

  datatype Fault =
    | MissingSmaColumn(date: Date)   // `query('is_sma_below == 0')` on a table without that column
    | MissingPrices(ticker: string)  // `stocks_prices[stock]` raises KeyError

  // ---- ordering by rank ---------------------------------------------------

  predicate RankDescending(s: seq<RankedStock>) {
    forall i, j :: 0 <= i < j < |s| ==> s[i].rank >= s[j].rank
  }

  lemma ConsDescending(x: RankedStock, t: seq<RankedStock>)
    requires RankDescending(t)
    requires forall y :: y in t ==> x.rank >= y.rank
    ensures RankDescending([x] + t)
  {
    forall i, j | 0 <= i < j < |t| + 1 ensures ([x] + t)[i].rank >= ([x] + t)[j].rank {
      assert ([x] + t)[j] == t[j - 1];
      if i > 0 { assert ([x] + t)[i] == t[i - 1]; }
    }
  }

  function InsertByRank(x: RankedStock, s: seq<RankedStock>): (r: seq<RankedStock>)
    requires RankDescending(s)
    ensures RankDescending(r) && multiset(r) == multiset(s) + multiset{x}
  {
    if |s| == 0 then [x]
    else if x.rank > s[0].rank then
      AboveHead(x, s);
      [x] + s
    else
      DescendingTail(s);
      var t := InsertByRank(x, s[1..]);
      BelowHead(x, s, t);
      [s[0]] + t
  }

  lemma DescendingTail(s: seq<RankedStock>)
    requires RankDescending(s) && |s| > 0
    ensures RankDescending(s[1..])
  {
    forall i, j | 0 <= i < j < |s| - 1 ensures s[1..][i].rank >= s[1..][j].rank {
      assert s[1..][i] == s[i + 1] && s[1..][j] == s[j + 1];
    }
  }

  /** A row ranked above the head goes first. */
  lemma AboveHead(x: RankedStock, s: seq<RankedStock>)
    requires RankDescending(s) && |s| > 0 && x.rank > s[0].rank
    ensures RankDescending([x] + s)
  {
    forall y | y in s ensures x.rank >= y.rank {
      var j :| 0 <= j < |s| && s[j] == y;
    }
    ConsDescending(x, s);
  }

  /** Otherwise the head stays first, ahead of x inserted into the rest. */
  lemma BelowHead(x: RankedStock, s: seq<RankedStock>, t: seq<RankedStock>)
    requires RankDescending(s) && |s| > 0 && x.rank <= s[0].rank
    requires RankDescending(t) && multiset(t) == multiset(s[1..]) + multiset{x}
    ensures RankDescending([s[0]] + t) && multiset([s[0]] + t) == multiset(s) + multiset{x}
  {
    assert s == [s[0]] + s[1..];
    forall y | y in t ensures y.rank <= s[0].rank {
      assert y in multiset(t);
      if y != x {
        assert y in multiset(s[1..]);
        var j :| 0 <= j < |s[1..]| && s[1..][j] == y;
        assert s[j + 1] == y;
      }
    }
    ConsDescending(s[0], t);
  }

  /** `sort_values('rank', ascending=False)`. */
  function SortByRank(s: seq<RankedStock>): (r: seq<RankedStock>)
    ensures RankDescending(r) && multiset(r) == multiset(s)
  {
    if |s| == 0 then []
    else
      assert s == [s[0]] + s[1..];
      InsertByRank(s[0], SortByRank(s[1..]))
  }

  /** `sort_values('rank', ascending=False).iloc[:k]`: the k best-ranked rows
      (with Python's handling of a negative k), no row ranked below one that
      was left out. Which of several equally ranked rows survive a cut is
      not specified. */
  function TopByRank(s: seq<RankedStock>, k: int): (r: seq<RankedStock>)
    ensures |r| == PyIndex(|s|, k)
    ensures multiset(r) <= multiset(s)
    ensures forall x, y :: x in r && y in multiset(s) - multiset(r) ==> x.rank >= y.rank
  {
    var sorted := SortByRank(s);
    var n := PyIndex(|s|, k);
    PrefixOfDescending(s, sorted, n);
    sorted[..n]
  }

  lemma PrefixOfDescending(s: seq<RankedStock>, sorted: seq<RankedStock>, n: nat)
    requires RankDescending(sorted) && multiset(sorted) == multiset(s) && n <= |sorted|
    ensures multiset(sorted[..n]) <= multiset(s)
    ensures forall x, y :: x in sorted[..n] && y in multiset(s) - multiset(sorted[..n]) ==> x.rank >= y.rank
  {
    SplitMultiset(s, sorted, n);
    RanksAcross(sorted, n);
    forall x, y | x in sorted[..n] && y in multiset(s) - multiset(sorted[..n]) ensures x.rank >= y.rank {
      assert y in multiset(sorted[n..]);
    }
  }

  /** In a rank-descending list, a prefix ranks no lower than the rest. */
  lemma RanksAcross(sorted: seq<RankedStock>, n: nat)
    requires RankDescending(sorted) && n <= |sorted|
    ensures forall x, y :: x in sorted[..n] && y in sorted[n..] ==> x.rank >= y.rank
  {
    forall x, y | x in sorted[..n] && y in sorted[n..] ensures x.rank >= y.rank {
      var i :| 0 <= i < n && sorted[..n][i] == x;
      var j :| 0 <= j < |sorted| - n && sorted[n..][j] == y;
      assert sorted[i] == x && sorted[n + j] == y;
    }
  }

  // ---- filters ---------------------------------------------------------------

  predicate HasSmaColumn(rows: seq<RankedStock>) {
    exists i :: 0 <= i < |rows| && rows[i].factors.tech.Some?
  }

  /** `is_sma_below == 0`; a missing (NaN) value does not pass. */
  predicate SmaNotBelow(x: RankedStock) {
    x.factors.tech.Some? && x.factors.tech.value.isSmaBelow == Some(0.0)
  }

  /** `query('is_sma_below == 0')`, keeping the row order. */
  function FilterSma(s: seq<RankedStock>): (r: seq<RankedStock>)
    ensures forall x :: multiset(r)[x] == if SmaNotBelow(x) then multiset(s)[x] else 0
  {
    if |s| == 0 then []
    else
      assert s == [s[0]] + s[1..];
      (if SmaNotBelow(s[0]) then [s[0]] else []) + FilterSma(s[1..])
  }

  /** The rows left after the optional RS-limit and SMA filters. */
  function Eligible(date: Date, rows: seq<RankedStock>, opt: Options): Result<seq<RankedStock>, Fault> {
    if opt.smaFiltered && !HasSmaColumn(rows) then Err(MissingSmaColumn(date))
    else
      var limited := if opt.rsLimited then TopByRank(rows, opt.rsLimit - 1) else rows;
      Ok(if opt.smaFiltered then FilterSma(limited) else limited)
  }

  function Tickers(s: seq<RankedStock>): set<string> {
    set x | x in s :: x.ticker
  }

  /** The stocks picked on one rank date, sorted by name. */
  function Selection(date: Date, rows: seq<RankedStock>, opt: Options): (r: Result<seq<string>, Fault>)
    ensures r.Err? <==> opt.smaFiltered && !HasSmaColumn(rows)
    ensures r.Err? ==> r.error == MissingSmaColumn(date)
    ensures r.Ok? ==> StrictlySorted(r.value)
    ensures r.Ok? ==> Elems(r.value) == Tickers(TopByRank(Eligible(date, rows, opt).value, opt.numberOfTopStocks))
  {
    match Eligible(date, rows, opt)
    case Err(e) => Err(e)
    case Ok(eligible) => Ok(Sorted(Tickers(TopByRank(eligible, opt.numberOfTopStocks))))
  }

  // ---- windows ------------------------------------------------------------

  function WindowStart(freq: Frequency, rankDate: Date): Date {
    match freq
    case Monthly => MonthStart(MonthOf(rankDate) + 1)
    case Weekly => rankDate + 3
  }

  function WindowEnd(freq: Frequency, rankDate: Date): Date {
    match freq
    case Monthly => MonthEnd(MonthOf(rankDate) + 1)
    case Weekly => rankDate + 7
  }

  predicate InWindow(freq: Frequency, rankDate: Date, d: Date) {
    WindowStart(freq, rankDate) <= d <= WindowEnd(freq, rankDate)
  }

  /** The monthly window is the calendar month after the rank date's month;
      the rank date itself is never in it. */
  lemma MonthlyWindow(rankDate: Date, d: Date)
    ensures InWindow(Monthly, rankDate, d) <==> MonthOf(d) == MonthOf(rankDate) + 1
    ensures !InWindow(Monthly, rankDate, rankDate)
  {
    var k := MonthOf(rankDate) + 1;
    if InWindow(Monthly, rankDate, d) {
      MonthOfUnique(d, k);
    }
  }

  /** The weekly window is the five days rank date + 3 .. rank date + 7. */
  lemma WeeklyWindow(rankDate: Date, d: Date)
    ensures InWindow(Weekly, rankDate, d) <==> rankDate + 3 <= d <= rankDate + 7
    ensures !InWindow(Weekly, rankDate, rankDate)
  {
  }

  // ---- the per-stock day lists -----------------------------------------------

  /** The trading days of a stock in one window, ascending. */
  function WindowDays(freq: Frequency, rankDate: Date, days: set<Date>): (r: seq<Date>)
    ensures StrictlyAscending(r)
    ensures forall d :: d in r <==> d in days && InWindow(freq, rankDate, d)
  {
    var r := DaysIn(WindowStart(freq, rankDate), WindowEnd(freq, rankDate), days);
    assert forall d :: d in r <==> d in Elems(r);
    r
  }

  /** Storing a pick's window days: a new key gets them as they are, an
      existing list becomes `sorted(set(old + new))`. */
  function Incorporate(m: map<string, seq<Date>>, s: string, window: seq<Date>): (r: map<string, seq<Date>>)
    requires s in m ==> StrictlyAscending(m[s])
    requires StrictlyAscending(window)
    ensures r.Keys == m.Keys + {s}
    ensures StrictlyAscending(r[s])
    ensures forall d :: d in r[s] <==> (s in m && d in m[s]) || d in window
    ensures forall t :: t in m && t != s ==> r[t] == m[t]
  {
    if s in m then
      var u := MergeUnion(m[s], window);
      assert forall d :: d in u <==> d in Elems(u);
      m[s := u]
    else m[s := window]
  }

  /** Day d of stock s is covered by the picks recorded so far. */
  ghost predicate Covered(freq: Frequency, periods: seq<(Date, seq<RankedStock>)>, picks: seq<seq<string>>, s: string, d: Date) {
    exists k :: 0 <= k < |picks| && k < |periods| && s in picks[k] && InWindow(freq, periods[k].0, d)
  }

  lemma CoveredSnoc(freq: Frequency, periods: seq<(Date, seq<RankedStock>)>, picks: seq<seq<string>>, sel: seq<string>, s: string, d: Date)
    requires |picks| < |periods|
    ensures Covered(freq, periods, picks + [sel], s, d)
        <==> Covered(freq, periods, picks, s, d) || (s in sel && InWindow(freq, periods[|picks|].0, d))
  {
    var p := picks + [sel];
    if Covered(freq, periods, p, s, d) {
      var k :| 0 <= k < |p| && k < |periods| && s in p[k] && InWindow(freq, periods[k].0, d);
      if k < |picks| {
        assert p[k] == picks[k];
      }
    }
    if Covered(freq, periods, picks, s, d) {
      var k :| 0 <= k < |picks| && k < |periods| && s in picks[k] && InWindow(freq, periods[k].0, d);
      assert p[k] == picks[k];
    }
    if s in sel && InWindow(freq, periods[|picks|].0, d) {
      assert p[|picks|] == sel;
    }
  }

  /** The list of stock s is ascending and holds exactly its trading days
      covered by the picks. */
  ghost predicate Stored(freq: Frequency, periods: seq<(Date, seq<RankedStock>)>, prices: map<string, set<Date>>,
                         picks: seq<seq<string>>, m: map<string, seq<Date>>, s: string)
    requires s in m
  {
    s in prices && StrictlyAscending(m[s]) &&
    forall d :: d in m[s] <==> d in prices[s] && Covered(freq, periods, picks, s, d)
  }

  /** The table m is the one built from the picks so far. */
  ghost predicate Tabled(freq: Frequency, periods: seq<(Date, seq<RankedStock>)>, prices: map<string, set<Date>>,
                         picks: seq<seq<string>>, m: map<string, seq<Date>>)
  {
    (forall s :: s in m <==> Picked(picks, s)) &&
    forall s :: s in m ==> Stored(freq, periods, prices, picks, m, s)
  }

  lemma PeriodStep(freq: Frequency, periods: seq<(Date, seq<RankedStock>)>, prices: map<string, set<Date>>,
                   picks: seq<seq<string>>, m: map<string, seq<Date>>, sel: seq<string>, m': map<string, seq<Date>>)
    requires |picks| < |periods|
    requires Tabled(freq, periods, prices, picks, m)
    requires StoredPicks(freq, periods[|picks|].0, sel, prices, m, m')
    ensures Tabled(freq, periods, prices, picks + [sel], m')
  {
    var date := periods[|picks|].0;
    forall s ensures Picked(picks + [sel], s) <==> Picked(picks, s) || s in sel {
      PickedSnoc(picks, sel, s);
    }
    forall s | s in m' ensures Stored(freq, periods, prices, picks + [sel], m', s) {
      assert s in prices by {
        if s in m { assert Stored(freq, periods, prices, picks, m, s); }
      }
      forall d ensures d in m'[s] <==> d in prices[s] && Covered(freq, periods, picks + [sel], s, d) {
        CoveredSnoc(freq, periods, picks, sel, s, d);
        assert d in m'[s] <==> Expected(freq, date, sel, prices, m, s, d);
        if s in m {
          assert Stored(freq, periods, prices, picks, m, s);
        }
      }
    }
  }

  /** Period k is the first one that fails, and it fails with error e. */
  ghost predicate FirstFailure(periods: seq<(Date, seq<RankedStock>)>, prices: map<string, set<Date>>, opt: Options, k: int, e: Fault) {
    0 <= k < |periods| && !PeriodOk(periods, prices, opt, k) &&
    (forall j :: 0 <= j < k ==> PeriodOk(periods, prices, opt, j)) &&
    match Selection(periods[k].0, periods[k].1, opt)
    case Err(f) => e == f
    case Ok(sel) => e.MissingPrices? && e.ticker in sel && e.ticker !in prices
  }

  ghost predicate Picked(picks: seq<seq<string>>, s: string) {
    exists k :: 0 <= k < |picks| && s in picks[k]
  }

  ghost predicate PeriodOk(periods: seq<(Date, seq<RankedStock>)>, prices: map<string, set<Date>>, opt: Options, k: nat)
    requires k < |periods|
  {
    var sel := Selection(periods[k].0, periods[k].1, opt);
    sel.Ok? && forall s :: s in sel.value ==> s in prices
  }

  /** Day d belongs to stock s after the picks `done` of one rank date
      were stored into m. */
  predicate Expected(freq: Frequency, date: Date, done: seq<string>, prices: map<string, set<Date>>,
                     m: map<string, seq<Date>>, s: string, d: Date)
  {
    (s in m && d in m[s]) || (s in done && s in prices && d in prices[s] && InWindow(freq, date, d))
  }

  /** The lists of acc hold the old days and the window days of the picks
      `done` of one rank date. */
  ghost predicate StoredPicks(freq: Frequency, date: Date, done: seq<string>, prices: map<string, set<Date>>,
                              m: map<string, seq<Date>>, acc: map<string, seq<Date>>)
  {
    (forall s :: s in done ==> s in prices) &&
    acc.Keys == m.Keys + Elems(done) &&
    (forall s :: s in acc ==> StrictlyAscending(acc[s])) &&
    forall s, d :: s in acc ==> (d in acc[s] <==> Expected(freq, date, done, prices, m, s, d))
  }

  lemma StoredPicksStep(freq: Frequency, date: Date, done: seq<string>, prices: map<string, set<Date>>,
                        m: map<string, seq<Date>>, acc: map<string, seq<Date>>, stock: string)
    requires StoredPicks(freq, date, done, prices, m, acc)
    requires stock in prices && stock !in done
    ensures StoredPicks(freq, date, done + [stock], prices, m,
                        Incorporate(acc, stock, WindowDays(freq, date, prices[stock])))
  {
    var w := WindowDays(freq, date, prices[stock]);
    var acc' := Incorporate(acc, stock, w);
    var done' := done + [stock];
    assert Elems(done') == Elems(done) + {stock};
    forall s, d | s in acc' ensures d in acc'[s] <==> Expected(freq, date, done', prices, m, s, d) {
      if s == stock {
        assert stock in done';
        assert stock !in Elems(done);
        assert stock in acc <==> stock in m;
        if stock in acc {
          assert d in acc[stock] <==> Expected(freq, date, done, prices, m, s, d);
        }
      } else {
        assert s in acc;
        assert acc'[s] == acc[s];
        assert s in done' <==> s in done;
        assert d in acc[s] <==> Expected(freq, date, done, prices, m, s, d);
      }
    }
  }

  /** The inner loop over the stocks picked on one rank date, in name order. */
  method StorePeriod(freq: Frequency, date: Date, sel: seq<string>, prices: map<string, set<Date>>,
                     m: map<string, seq<Date>>)
    returns (r: Result<map<string, seq<Date>>, Fault>)
    requires StrictlySorted(sel)
    requires forall s :: s in m ==> StrictlyAscending(m[s])
    ensures r.Ok? <==> forall s :: s in sel ==> s in prices
    ensures r.Err? ==> r.error.MissingPrices? && r.error.ticker in sel && r.error.ticker !in prices
    ensures r.Ok? ==> StoredPicks(freq, date, sel, prices, m, r.value)
  {
    var acc := m;
    var t := 0;
    assert sel[..0] == [];
    while t < |sel|
      invariant 0 <= t <= |sel|
      invariant StoredPicks(freq, date, sel[..t], prices, m, acc)
    {
      var stock := sel[t];
      if stock !in prices {
        return Err(MissingPrices(stock));
      }
      SortedFresh(sel, t);
      StoredPicksStep(freq, date, sel[..t], prices, m, acc, stock);
      acc := Incorporate(acc, stock, WindowDays(freq, date, prices[stock]));
      t := t + 1;
    }
    assert sel[..t] == sel;
    return Ok(acc);
  }

  /** `get_stocks_dates_in_ptf`. On success every key is a stock picked on
      some rank date; its list is strictly ascending and holds exactly the
      stock's trading days that fall in the window of a rank date that
      picked it. The selections made are returned with the table. */
  method StocksDatesInPtf(freq: Frequency, periods: seq<(Date, seq<RankedStock>)>,
                          prices: map<string, set<Date>>, opt: Options)
    returns (r: Result<map<string, seq<Date>>, Fault>, picks: seq<seq<string>>)
    ensures r.Ok? <==> forall k :: 0 <= k < |periods| ==> PeriodOk(periods, prices, opt, k)
    ensures r.Err? ==> exists k :: FirstFailure(periods, prices, opt, k, r.error)
    ensures r.Ok? ==> |picks| == |periods| && Chosen(periods, opt, picks)
    ensures r.Ok? ==> Tabled(freq, periods, prices, picks, r.value)
  {
    var m: map<string, seq<Date>> := map[];
    picks := [];
    var k := 0;
    while k < |periods|
      invariant 0 <= k <= |periods| && |picks| == k
      invariant forall j :: 0 <= j < k ==> PeriodOk(periods, prices, opt, j)
      invariant Chosen(periods, opt, picks)
      invariant Tabled(freq, periods, prices, picks, m)
    {
      var date := periods[k].0;
      var chosen := Selection(date, periods[k].1, opt);
      if chosen.Err? {
        r := Err(chosen.error);
        SelectionFails(periods, prices, opt, k);
        return;
      }
      var sel := chosen.value;
      TabledAscending(freq, periods, prices, picks, m);
      var stored := StorePeriod(freq, date, sel, prices, m);
      if stored.Err? {
        r := Err(stored.error);
        StoreFails(periods, prices, opt, k, sel, r.error);
        return;
      }
      var m' := stored.value;
      PeriodStep(freq, periods, prices, picks, m, sel, m');
      PicksSnoc(periods, opt, picks, sel);
      PeriodPasses(periods, prices, opt, k, sel);
      m := m';
      picks := picks + [sel];
      k := k + 1;
    }
    r := Ok(m);
  }

  lemma SelectionFails(periods: seq<(Date, seq<RankedStock>)>, prices: map<string, set<Date>>, opt: Options, k: nat)
    requires k < |periods|
    requires forall j :: 0 <= j < k ==> PeriodOk(periods, prices, opt, j)
    requires Selection(periods[k].0, periods[k].1, opt).Err?
    ensures FirstFailure(periods, prices, opt, k, Selection(periods[k].0, periods[k].1, opt).error)
  {
  }

  lemma StoreFails(periods: seq<(Date, seq<RankedStock>)>, prices: map<string, set<Date>>, opt: Options, k: nat,
                   sel: seq<string>, e: Fault)
    requires k < |periods|
    requires forall j :: 0 <= j < k ==> PeriodOk(periods, prices, opt, j)
    requires Selection(periods[k].0, periods[k].1, opt) == Ok(sel)
    requires e.MissingPrices? && e.ticker in sel && e.ticker !in prices
    ensures FirstFailure(periods, prices, opt, k, e)
  {
  }

  lemma PeriodPasses(periods: seq<(Date, seq<RankedStock>)>, prices: map<string, set<Date>>, opt: Options, k: nat,
                     sel: seq<string>)
    requires k < |periods|
    requires forall j :: 0 <= j < k ==> PeriodOk(periods, prices, opt, j)
    requires Selection(periods[k].0, periods[k].1, opt) == Ok(sel)
    requires forall s :: s in sel ==> s in prices
    ensures forall j :: 0 <= j < k + 1 ==> PeriodOk(periods, prices, opt, j)
  {
  }

  lemma TabledAscending(freq: Frequency, periods: seq<(Date, seq<RankedStock>)>, prices: map<string, set<Date>>,
                        picks: seq<seq<string>>, m: map<string, seq<Date>>)
    requires Tabled(freq, periods, prices, picks, m)
    ensures forall s :: s in m ==> StrictlyAscending(m[s])
  {
    forall s | s in m ensures StrictlyAscending(m[s]) {
      assert Stored(freq, periods, prices, picks, m, s);
    }
  }

  /** The selection of every rank date, in order. */
  function Selections(periods: seq<(Date, seq<RankedStock>)>, opt: Options): (r: seq<Result<seq<string>, Fault>>)
    ensures |r| == |periods|
  {
    seq(|periods|, j requires 0 <= j < |periods| => Selection(periods[j].0, periods[j].1, opt))
  }

  /** The picks are the selections of the first |picks| rank dates. */
  ghost predicate Chosen(periods: seq<(Date, seq<RankedStock>)>, opt: Options, picks: seq<seq<string>>) {
    |picks| <= |periods| && OkPrefix(Selections(periods, opt), picks)
  }

  /** rs starts with the successes holding picks. */
  ghost predicate OkPrefix<T, E>(rs: seq<Result<T, E>>, picks: seq<T>) {
    |picks| <= |rs| && forall j :: 0 <= j < |picks| ==> rs[j] == Ok(picks[j])
  }

  lemma OkPrefixSnoc<T, E>(rs: seq<Result<T, E>>, picks: seq<T>, sel: T)
    requires OkPrefix(rs, picks) && |picks| < |rs| && rs[|picks|] == Ok(sel)
    ensures OkPrefix(rs, picks + [sel])
  {
    var p := picks + [sel];
    forall j | 0 <= j < |p| ensures rs[j] == Ok(p[j]) {
      if j < |picks| {
        assert p[j] == picks[j];
      }
    }
  }

  lemma PicksSnoc(periods: seq<(Date, seq<RankedStock>)>, opt: Options, picks: seq<seq<string>>, sel: seq<string>)
    requires |picks| < |periods| && Chosen(periods, opt, picks)
    requires Selection(periods[|picks|].0, periods[|picks|].1, opt) == Ok(sel)
    ensures Chosen(periods, opt, picks + [sel])
  {
    OkPrefixSnoc(Selections(periods, opt), picks, sel);
  }

  lemma PickedSnoc(picks: seq<seq<string>>, sel: seq<string>, s: string)
    ensures Picked(picks + [sel], s) <==> Picked(picks, s) || s in sel
  {
    var p := picks + [sel];
    if Picked(picks, s) {
      var k :| 0 <= k < |picks| && s in picks[k];
      assert p[k] == picks[k];
    }
    if s in sel {
      assert p[|picks|] == sel;
    }
  }
}
