/** First trading days of each month or year of a backtest
    (`get_first_trading_dates_of_month`, `get_first_trading_dates_of_year`).
    The pandas `MS`/`YS` interval ranges are modelled by the calendar
    buckets of the Calendar module. */
module FirstDates {
  import opened Wrappers
  import opened Seqs
  import opened Calendar

  datatype Unit = Month | Year

  datatype DatesFault =
    | NoRankDates          // `int_dates[0]` on an empty ranked-data dict
    | EmptyYear(year: int) // `trading_dates[0]` on a year without a backtest date

  /** The first day of bucket k (a `MS` or `YS` anchor). */
  function Start(u: Unit, k: int): Date {
    match u
    case Month => MonthStart(k)
    case Year => YearStart(k)
  }

  /** The bucket holding day d. */
  function Bucket(u: Unit, d: Date): (k: int)
    ensures Start(u, k) <= d < Start(u, k + 1)
  {
    match u
    case Month => MonthOf(d)
    case Year => YearOf(d)
  }

  lemma BucketUnique(u: Unit, d: Date, k: int)
    requires Start(u, k) <= d < Start(u, k + 1)
    ensures Bucket(u, d) == k
  {
    match u
    case Month => MonthOfUnique(d, k);
    case Year => YearOfUnique(d, k);
  }

  lemma StartIncreasing(u: Unit, j: int, k: int)
    requires j < k
    ensures Start(u, j) + 28 <= Start(u, k)
  {
    match u
    case Month => MonthStartIncreasing(j, k);
    case Year =>
      YearStartIsJanuary(j);
      YearStartIsJanuary(k);
      MonthStartIncreasing(12 * j, 12 * k);
  }

  /** The first bucket that starts on or after day d: the first break of
      `interval_range(start=d, ...)`. */
  function FirstBucketFrom(u: Unit, d: Date): (k: int)
    ensures d <= Start(u, k) && Start(u, k - 1) < d
  {
    var b := Bucket(u, d);
    if Start(u, b) == d then (StartIncreasing(u, b - 1, b); b) else b + 1
  }

  /** Bucket k lies inside the range of the interval breaks, lo .. hi. */
  predicate Spanned(u: Unit, lo: Date, hi: Date, k: int) {
    lo <= Start(u, k) && Start(u, k + 1) <= hi
  }

  /** d is the earliest backtest date of its bucket. */
  ghost predicate Earliest(u: Unit, backtest: set<Date>, d: Date) {
    d in backtest && forall e :: e in backtest && Bucket(u, e) == Bucket(u, d) ==> d <= e
  }

  ghost predicate HasDayIn(u: Unit, backtest: set<Date>, k: int) {
    exists d :: d in backtest && Bucket(u, d) == k
  }

  /** The backtest dates of bucket k, ascending: `sorted(set(dates[:-1]) & set(backtest_dates))`. */
  function TradingDays(u: Unit, k: int, backtest: set<Date>): (r: seq<Date>)
    ensures StrictlyAscending(r)
    ensures forall d :: d in r <==> d in backtest && Bucket(u, d) == k
  {
    var r := DaysIn(Start(u, k), Start(u, k + 1) - 1, backtest);
    forall d ensures d in r <==> d in backtest && Bucket(u, d) == k {
      assert d in r <==> d in Elems(r);
      if Start(u, k) <= d < Start(u, k + 1) {
        BucketUnique(u, d, k);
      }
    }
    r
  }

  /** r holds the earliest backtest date of each bucket from the first one
      starting at or after lo up to (excluding) bucket k. */
  ghost predicate Collected(u: Unit, backtest: set<Date>, lo: Date, k: int, r: seq<Date>) {
    StrictlyAscending(r) &&
    (forall i :: 0 <= i < |r| ==> r[i] < Start(u, k)) &&
    forall d :: d in r <==> Earliest(u, backtest, d) && lo <= Start(u, Bucket(u, d)) && Bucket(u, d) < k
  }

  lemma CollectedStart(u: Unit, backtest: set<Date>, lo: Date)
    ensures Collected(u, backtest, lo, FirstBucketFrom(u, lo), [])
    ensures forall j :: lo <= Start(u, j) ==> FirstBucketFrom(u, lo) <= j
  {
    var k0 := FirstBucketFrom(u, lo);
    forall j | lo <= Start(u, j) ensures k0 <= j {
      if j < k0 - 1 { StartIncreasing(u, j, k0 - 1); }
    }
  }

  /** Appending the first trading day of bucket k, if it has one. */
  lemma CollectStep(u: Unit, backtest: set<Date>, lo: Date, k: int, r: seq<Date>)
    requires lo <= Start(u, k)
    requires Collected(u, backtest, lo, k, r)
    ensures var w := TradingDays(u, k, backtest);
      Collected(u, backtest, lo, k + 1, if |w| > 0 then r + [w[0]] else r)
  {
    var w := TradingDays(u, k, backtest);
    StartIncreasing(u, k, k + 1);
    if |w| > 0 {
      CollectFound(u, backtest, lo, k, r, w);
    }
  }

  /** The first trading day of a bucket is the earliest backtest date of it. */
  lemma FirstIsEarliest(u: Unit, backtest: set<Date>, k: int, w: seq<Date>, d: Date)
    requires w == TradingDays(u, k, backtest) && |w| > 0
    ensures Earliest(u, backtest, w[0])
    ensures Earliest(u, backtest, d) && Bucket(u, d) == k ==> d == w[0]
  {
    var x := w[0];
    assert x in w;
    forall e | e in backtest && Bucket(u, e) == Bucket(u, x) ensures x <= e {
      assert e in w;
      var i :| 0 <= i < |w| && w[i] == e;
    }
    if Earliest(u, backtest, d) && Bucket(u, d) == k {
      assert d in w;
      var i :| 0 <= i < |w| && w[i] == d;
    }
  }

  lemma CollectFound(u: Unit, backtest: set<Date>, lo: Date, k: int, r: seq<Date>, w: seq<Date>)
    requires lo <= Start(u, k) && Start(u, k) < Start(u, k + 1)
    requires Collected(u, backtest, lo, k, r)
    requires w == TradingDays(u, k, backtest) && |w| > 0
    ensures Collected(u, backtest, lo, k + 1, r + [w[0]])
  {
    var x := w[0];
    assert x in w;
    var r' := r + [x];
    forall d ensures d in r' <==> Earliest(u, backtest, d) && lo <= Start(u, Bucket(u, d)) && Bucket(u, d) < k + 1 {
      FirstIsEarliest(u, backtest, k, w, d);
      if d in r {
        var i :| 0 <= i < |r| && r[i] == d;
      }
    }
    forall i, j | 0 <= i < j < |r'| ensures r'[i] < r'[j] {
      if j == |r| { assert r'[i] == r[i]; }
    }
    forall i | 0 <= i < |r'| ensures r'[i] < Start(u, k + 1) {
      if i < |r| { assert r'[i] == r[i]; }
    }
  }

  /** Once bucket k + 1 starts past hi, the buckets collected are exactly the
      spanned ones. */
  lemma CollectedEnd(u: Unit, backtest: set<Date>, lo: Date, hi: Date, k: int, r: seq<Date>)
    requires Collected(u, backtest, lo, k, r)
    requires k == FirstBucketFrom(u, lo) || Start(u, k) <= hi
    requires hi < Start(u, k + 1)
    ensures forall d :: d in r <==> Earliest(u, backtest, d) && Spanned(u, lo, hi, Bucket(u, d))
  {
    forall d ensures d in r <==> Earliest(u, backtest, d) && Spanned(u, lo, hi, Bucket(u, d)) {
      SpannedBelow(u, lo, hi, k, Bucket(u, d));
    }
  }

  lemma SpannedBelow(u: Unit, lo: Date, hi: Date, k: int, j: int)
    requires k == FirstBucketFrom(u, lo) || Start(u, k) <= hi
    requires hi < Start(u, k + 1)
    ensures Spanned(u, lo, hi, j) <==> lo <= Start(u, j) && j < k
  {
    var first := k == FirstBucketFrom(u, lo);
    if j < k {
      StartMonotone(u, j + 1, k);
      StartMonotone(u, j, k - 1);
    } else {
      StartMonotone(u, k + 1, j + 1);
    }
    SpanOrder(lo, hi, Start(u, j), Start(u, j + 1), Start(u, k - 1), Start(u, k), Start(u, k + 1), j < k, first);
  }

  lemma StartMonotone(u: Unit, i: int, j: int)
    requires i <= j
    ensures Start(u, i) <= Start(u, j)
  {
    if i < j { StartIncreasing(u, i, j); }
  }

  /** The order facts behind SpannedBelow, on the bucket starts alone:
      sj, sj1 start buckets j and j + 1, and skm, sk, sk1 buckets k - 1,
      k and k + 1. */
  lemma SpanOrder(lo: int, hi: int, sj: int, sj1: int, skm: int, sk: int, sk1: int, below: bool, first: bool)
    requires first ==> skm < lo
    requires first || sk <= hi
    requires hi < sk1
    requires below ==> sj1 <= sk && sj <= skm
    requires !below ==> sk1 <= sj1
    ensures (lo <= sj && sj1 <= hi) <==> lo <= sj && below
  {
  }

  /** `get_first_trading_dates_of_month`: the earliest backtest date of every
      month that starts on or after the first rank date and ends at least
      one day before the last rank date + 4 weeks. Months without a backtest
      date contribute nothing. */
  method FirstTradingDatesOfMonth(rankDates: seq<Date>, backtest: seq<Date>) returns (r: Result<seq<Date>, DatesFault>)
    ensures r.Err? <==> |rankDates| == 0
    ensures r.Err? ==> r.error == NoRankDates
    ensures r.Ok? ==> StrictlyAscending(r.value)
    ensures r.Ok? ==> forall d :: d in r.value <==>
      Earliest(Month, Elems(backtest), d) && Spanned(Month, rankDates[0], rankDates[|rankDates| - 1] + 28, Bucket(Month, d))
  {
    if |rankDates| == 0 {
      return Err(NoRankDates);
    }
    var lo := rankDates[0];
    var hi := rankDates[|rankDates| - 1] + 28;
    var days := Elems(backtest);
    var k := FirstBucketFrom(Month, lo);
    var first: seq<Date> := [];
    CollectedStart(Month, days, lo);
    while Start(Month, k + 1) <= hi
      invariant lo <= Start(Month, k)
      invariant k == FirstBucketFrom(Month, lo) || Start(Month, k) <= hi
      invariant Collected(Month, days, lo, k, first)
      decreases hi - Start(Month, k)
    {
      CollectStep(Month, days, lo, k, first);
      var w := TradingDays(Month, k, days);
      if |w| > 0 {
        first := first + [w[0]];
      }
      StartIncreasing(Month, k, k + 1);
      k := k + 1;
    }
    CollectedEnd(Month, days, lo, hi, k, first);
    return Ok(first);
  }

  lemma TradedIff(u: Unit, backtest: set<Date>, k: int)
    ensures |TradingDays(u, k, backtest)| > 0 <==> HasDayIn(u, backtest, k)
  {
    var w := TradingDays(u, k, backtest);
    if |w| > 0 {
      assert w[0] in w;
    }
    if HasDayIn(u, backtest, k) {
      var d :| d in backtest && Bucket(u, d) == k;
      assert d in w;
    }
  }

  /** Every year spanned by lo .. hi has a backtest date. */
  ghost predicate AllYearsTraded(lo: Date, hi: Date, backtest: set<Date>) {
    forall y :: Spanned(Year, lo, hi, y) ==> HasDayIn(Year, backtest, y)
  }

  /** Every year from the first one starting at or after lo up to k has a
      backtest date. */
  ghost predicate TradedBelow(lo: Date, k: int, backtest: set<Date>) {
    forall y {:trigger HasDayIn(Year, backtest, y)} :: lo <= Start(Year, y) && y < k ==> HasDayIn(Year, backtest, y)
  }

  lemma TradedBelowStep(lo: Date, k: int, backtest: set<Date>)
    requires TradedBelow(lo, k, backtest) && HasDayIn(Year, backtest, k)
    ensures TradedBelow(lo, k + 1, backtest)
  {
  }

  lemma YearMissing(lo: Date, hi: Date, backtest: set<Date>, k: int)
    requires Spanned(Year, lo, hi, k) && !HasDayIn(Year, backtest, k)
    ensures !AllYearsTraded(lo, hi, backtest)
  {
  }

  lemma TradedToEnd(lo: Date, hi: Date, k: int, backtest: set<Date>)
    requires TradedBelow(lo, k, backtest)
    requires k == FirstBucketFrom(Year, lo) || Start(Year, k) <= hi
    requires hi < Start(Year, k + 1)
    ensures AllYearsTraded(lo, hi, backtest)
  {
    forall y | Spanned(Year, lo, hi, y) ensures HasDayIn(Year, backtest, y) {
      SpannedBelow(Year, lo, hi, k, y);
    }
  }

  /** `get_first_trading_dates_of_year`: the same over the years up to the
      last rank date + 52 weeks, except that a spanned year without any
      backtest date makes the source fail (it indexes an empty list). */
  method FirstTradingDatesOfYear(rankDates: seq<Date>, backtest: seq<Date>) returns (r: Result<seq<Date>, DatesFault>)
    ensures r.Ok? <==> |rankDates| > 0 && AllYearsTraded(rankDates[0], rankDates[|rankDates| - 1] + 364, Elems(backtest))
    ensures |rankDates| == 0 ==> r == Err(NoRankDates)
    ensures r.Err? && |rankDates| > 0 ==> r.error.EmptyYear?
    ensures r.Err? && |rankDates| > 0 ==> Spanned(Year, rankDates[0], rankDates[|rankDates| - 1] + 364, r.error.year)
    ensures r.Err? && |rankDates| > 0 ==> !HasDayIn(Year, Elems(backtest), r.error.year)
    ensures r.Ok? ==> StrictlyAscending(r.value)
    ensures r.Ok? ==> forall d :: d in r.value <==>
      Earliest(Year, Elems(backtest), d) && Spanned(Year, rankDates[0], rankDates[|rankDates| - 1] + 364, Bucket(Year, d))
  {
    if |rankDates| == 0 {
      return Err(NoRankDates);
    }
    var lo := rankDates[0];
    var hi := rankDates[|rankDates| - 1] + 364;
    var days := Elems(backtest);
    var k, first, missing := CollectYears(lo, hi, days);
    if missing {
      YearMissing(lo, hi, days, k);
      return Err(EmptyYear(k));
    }
    CollectedEnd(Year, days, lo, hi, k, first);
    TradedToEnd(lo, hi, k, days);
    return Ok(first);
  }

  /** The loop of `get_first_trading_dates_of_year` over the years spanned
      by lo .. hi. It stops at year k, either at the first year without a
      backtest date or past hi, with the first trading days of the years
      before k collected. */
  method CollectYears(lo: Date, hi: Date, days: set<Date>) returns (k: int, first: seq<Date>, missing: bool)
    ensures lo <= Start(Year, k)
    ensures Collected(Year, days, lo, k, first) && TradedBelow(lo, k, days)
    ensures missing ==> Start(Year, k + 1) <= hi && !HasDayIn(Year, days, k)
    ensures !missing ==> (k == FirstBucketFrom(Year, lo) || Start(Year, k) <= hi) && hi < Start(Year, k + 1)
  {
    k := FirstBucketFrom(Year, lo);
    first := [];
    missing := false;
    CollectedStart(Year, days, lo);
    while Start(Year, k + 1) <= hi
      invariant lo <= Start(Year, k)
      invariant k == FirstBucketFrom(Year, lo) || Start(Year, k) <= hi
      invariant Collected(Year, days, lo, k, first) && TradedBelow(lo, k, days)
      decreases hi - Start(Year, k)
    {
      var k';
      k', first, missing := CollectYear(lo, hi, days, k, first);
      if missing {
        return;
      }
      k := k';
    }
  }

  /** One year of the loop: its first trading day is appended and the loop
      moves to the next year; a year without one stops the loop there. */
  method CollectYear(lo: Date, hi: Date, days: set<Date>, k: int, first: seq<Date>)
    returns (k': int, next: seq<Date>, missing: bool)
    requires lo <= Start(Year, k) && Start(Year, k + 1) <= hi
    requires Collected(Year, days, lo, k, first) && TradedBelow(lo, k, days)
    ensures missing <==> !HasDayIn(Year, days, k)
    ensures missing ==> k' == k && next == first
    ensures !missing ==> k' == k + 1 && Start(Year, k) < Start(Year, k')
    ensures lo <= Start(Year, k') && Start(Year, k') <= hi
    ensures Collected(Year, days, lo, k', next) && TradedBelow(lo, k', days)
  {
    CollectStep(Year, days, lo, k, first);
    var w := TradingDays(Year, k, days);
    TradedIff(Year, days, k);
    missing := |w| == 0;
    k', next := k, first;
    if !missing {
      TradedBelowStep(lo, k, days);
      StartIncreasing(Year, k, k + 1);
      k', next := k + 1, first + [w[0]];
    }
  }
}
