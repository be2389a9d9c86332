/** The factor formulas of the EPS/sales/price ranking: quarter-over-quarter
    and year-over-year growth of a series of quarterly readings (oldest
    first), their plain differences, the EPS growth of the last four
    quarters against the four before, the mean sales growth and the price
    performance of a three-month period. NaN is None; a division by zero,
    which pandas turns into an infinity or NaN and Python into an exception
    caught as NaN, is None as well. */
module Scorings {
  import opened Wrappers
  import opened Seqs
  import opened Calendar
  import opened MapSums
  import opened Returns
  import opened Investment

  /** The lag of a year-over-year comparison of quarterly readings. */
  const YearLag: nat := 4
  /** The lag of a quarter-over-quarter comparison. */
  const QuarterLag: nat := 1

  function Abs(x: real): (r: real)
    ensures r >= 0.0 && (r == x || r == -x)
  {
    if x < 0.0 then -x else x
  }

  // ---------------------------------------------------------------------
  // Differences and growth rates at one position

  /** `readings.diff(periods=lag)` at position i: undefined for the first
      `lag` positions and when either reading is NaN. */
  function DiffAt(x: seq<Option<real>>, lag: nat, i: nat): (r: Option<real>)
    requires i < |x|
    ensures r.Some? <==> lag <= i && x[i].Some? && x[i - lag].Some?
    ensures r.Some? ==> x[i - lag].value + r.value == x[i].value
  {
    if i < lag || x[i].None? || x[i - lag].None? then None
    else Some(x[i].value - x[i - lag].value)
  }

  /** `diff(lag) / abs(shift(lag))` at position i; a zero base is None. */
  function GrowthAt(x: seq<Option<real>>, lag: nat, i: nat): (r: Option<real>)
    requires i < |x|
    ensures r.Some? <==> DiffAt(x, lag, i).Some? && x[i - lag].value != 0.0
    ensures r.Some? ==> r.value * Abs(x[i - lag].value) == DiffAt(x, lag, i).value
  {
    match DiffAt(x, lag, i)
    case None => None
    case Some(d) =>
      var base := Abs(x[i - lag].value);
      if base == 0.0 then None else Some(d / base)
  }

  /** A quotient by a positive number has the sign of the dividend. */
  lemma QuotientSign(q: real, b: real, d: real)
    requires b > 0.0 && q * b == d
    ensures q > 0.0 <==> d > 0.0
    ensures q < 0.0 <==> d < 0.0
  {
    if q > 0.0 { assert q * b > 0.0; }
    if q < 0.0 { assert q * b < 0.0; }
    if q == 0.0 { assert q * b == 0.0; }
  }

  /** A growth rate is positive exactly when the reading rose over the lag
      and negative exactly when it fell, whatever the sign of the base. */
  lemma GrowthSign(x: seq<Option<real>>, lag: nat, i: nat)
    requires i < |x| && GrowthAt(x, lag, i).Some?
    ensures GrowthAt(x, lag, i).value > 0.0 <==> x[i].value > x[i - lag].value
    ensures GrowthAt(x, lag, i).value < 0.0 <==> x[i].value < x[i - lag].value
  {
    QuotientSign(GrowthAt(x, lag, i).value, Abs(x[i - lag].value), DiffAt(x, lag, i).value);
  }

  /** A reading is recovered from the one `lag` positions earlier and the
      growth rate between them. */
  lemma GrowthRecovers(x: seq<Option<real>>, lag: nat, i: nat)
    requires i < |x| && GrowthAt(x, lag, i).Some?
    ensures x[i].value == x[i - lag].value + GrowthAt(x, lag, i).value * Abs(x[i - lag].value)
  {
  }

  // ---------------------------------------------------------------------
  // The last quarters of a series

  /** `iloc[-k:]` keeps the last k positions; k = 0 or k beyond the length
      keeps all of them. */
  function Kept(n: nat, k: int): (m: nat)
    ensures m <= n
    ensures 0 < k <= n ==> m == k
    ensures k == 0 || k > n ==> m == n
  {
    n - PyIndex(n, -k)
  }

  /** The differences over `lag` of the last k readings. */
  function LastDifferences(x: seq<Option<real>>, lag: nat, k: int): (r: seq<Option<real>>)
    ensures |r| == Kept(|x|, k)
    ensures forall j :: 0 <= j < |r| ==> r[j] == DiffAt(x, lag, |x| - |r| + j)
  {
    PySuffix(seq(|x|, i requires 0 <= i < |x| => DiffAt(x, lag, i)), k)
  }

  /** The growth rates over `lag` of the last k readings. */
  function LastGrowth(x: seq<Option<real>>, lag: nat, k: int): (r: seq<Option<real>>)
    ensures |r| == Kept(|x|, k)
    ensures forall j :: 0 <= j < |r| ==> r[j] == GrowthAt(x, lag, |x| - |r| + j)
  {
    PySuffix(seq(|x|, i requires 0 <= i < |x| => GrowthAt(x, lag, i)), k)
  }

  /** `compute_quarterly_yoy_growth`. */
  function YoyGrowth(readings: seq<Option<real>>, k: int): (r: seq<Option<real>>)
    ensures |r| == Kept(|readings|, k)
    ensures forall j :: 0 <= j < |r| ==> r[j] == GrowthAt(readings, YearLag, |readings| - |r| + j)
  {
    LastGrowth(readings, YearLag, k)
  }

  /** `compute_quarterly_qtq_growth`. */
  function QtqGrowth(readings: seq<Option<real>>, k: int): (r: seq<Option<real>>)
    ensures |r| == Kept(|readings|, k)
    ensures forall j :: 0 <= j < |r| ==> r[j] == GrowthAt(readings, QuarterLag, |readings| - |r| + j)
  {
    LastGrowth(readings, QuarterLag, k)
  }

  /** `compute_quarterly_yoy_difference`. */
  function YoyDifference(readings: seq<Option<real>>, k: int): (r: seq<Option<real>>)
    ensures |r| == Kept(|readings|, k)
    ensures forall j :: 0 <= j < |r| ==> r[j] == DiffAt(readings, YearLag, |readings| - |r| + j)
  {
    LastDifferences(readings, YearLag, k)
  }

  /** `compute_quarterly_qtq_difference`. */
  function QtqDifference(readings: seq<Option<real>>, k: int): (r: seq<Option<real>>)
    ensures |r| == Kept(|readings|, k)
    ensures forall j :: 0 <= j < |r| ==> r[j] == DiffAt(readings, QuarterLag, |readings| - |r| + j)
  {
    LastDifferences(readings, QuarterLag, k)
  }

  /** The growth rates and the differences of the same quarters line up:
      where a growth rate is defined, so is the difference, and the rate is
      the difference over the absolute earlier reading. */
  lemma GrowthIsDifferenceOverBase(readings: seq<Option<real>>, lag: nat, k: int, j: nat)
    requires j < Kept(|readings|, k)
    requires LastGrowth(readings, lag, k)[j].Some?
    ensures LastDifferences(readings, lag, k)[j].Some?
    ensures var i := |readings| - Kept(|readings|, k) + j;
      LastGrowth(readings, lag, k)[j].value * Abs(readings[i - lag].value) == LastDifferences(readings, lag, k)[j].value
  {
  }

  /** Only readings at least `lag` quarters into the series have a growth
      rate: with no more than `lag` readings, none is defined. */
  lemma ShortSeriesHasNoGrowth(readings: seq<Option<real>>, lag: nat, k: int)
    requires |readings| <= lag
    ensures forall j :: 0 <= j < |LastGrowth(readings, lag, k)| ==> LastGrowth(readings, lag, k)[j].None?
  {
  }

  // ---------------------------------------------------------------------
  // EPS growth

  predicate AllDefined(s: seq<Option<real>>) {
    forall i :: 0 <= i < |s| ==> s[i].Some?
  }

  function Values(s: seq<Option<real>>): (r: seq<real>)
    requires AllDefined(s)
    ensures |r| == |s| && forall i :: 0 <= i < |s| ==> r[i] == s[i].value
  {
    seq(|s|, i requires 0 <= i < |s| => s[i].value)
  }

  /** Python's `sum` over a series: NaN as soon as one value is NaN. */
  function SumAll(s: seq<Option<real>>): (r: Option<real>)
    ensures r.None? <==> !AllDefined(s)
    ensures r.Some? ==> r.value == Sum(Values(s))
  {
    if AllDefined(s) then Some(Sum(Values(s))) else None
  }

  /** `compute_eps_growth`: the change of the EPS summed over the last four
      quarters against the four before, over the absolute earlier sum.
      A NaN in either sum or a zero earlier sum (which covers a series of
      four or fewer quarters, whose earlier slice is empty) gives NaN. */
  function EpsGrowth(eps: seq<Option<real>>): (r: Option<real>)
    ensures r.None? <==>
      SumAll(PySuffix(eps, 4)).None? || SumAll(PySlice(eps, -8, -4)).None? || SumAll(PySlice(eps, -8, -4)).value == 0.0
    ensures r.Some? ==>
      r.value * Abs(SumAll(PySlice(eps, -8, -4)).value) == SumAll(PySuffix(eps, 4)).value - SumAll(PySlice(eps, -8, -4)).value
  {
    var recent := SumAll(PySuffix(eps, 4));
    var before := SumAll(PySlice(eps, -8, -4));
    if recent.None? || before.None? || before.value == 0.0 then None
    else Some((recent.value - before.value) / Abs(before.value))
  }

  /** With eight quarters or more, the sums are over the last four and the
      four before them. */
  lemma EpsWindows(eps: seq<Option<real>>)
    requires |eps| >= 8
    ensures PySuffix(eps, 4) == eps[|eps| - 4..]
    ensures PySlice(eps, -8, -4) == eps[|eps| - 8..|eps| - 4]
  {
  }

  /** With four or fewer quarters there is nothing to compare against. */
  lemma EpsGrowthNeedsFiveQuarters(eps: seq<Option<real>>)
    requires |eps| <= 4
    ensures EpsGrowth(eps).None?
  {
    assert PySlice(eps, -8, -4) == [];
    assert Values([]) == [];
  }

  /** EPS growth is positive exactly when the last four quarters earned more
      than the four before, and negative exactly when they earned less. */
  lemma EpsGrowthSign(eps: seq<Option<real>>)
    requires EpsGrowth(eps).Some?
    ensures EpsGrowth(eps).value > 0.0 <==> SumAll(PySuffix(eps, 4)).value > SumAll(PySlice(eps, -8, -4)).value
    ensures EpsGrowth(eps).value < 0.0 <==> SumAll(PySuffix(eps, 4)).value < SumAll(PySlice(eps, -8, -4)).value
  {
    var a, b := SumAll(PySuffix(eps, 4)).value, SumAll(PySlice(eps, -8, -4)).value;
    QuotientSign(EpsGrowth(eps).value, Abs(b), a - b);
  }

  // ---------------------------------------------------------------------
  // Mean sales growth

  /** `compute_mean_sales_growth`: the mean of the defined growth rates. */
  function MeanSalesGrowth(growth: seq<Option<real>>): (r: Option<real>)
    ensures r.None? <==> forall i :: 0 <= i < |growth| ==> growth[i].None?
  {
    MeanDefined(growth)
  }

  /** The mean lies between any bounds of the defined growth rates. */
  lemma MeanSalesGrowthBetween(growth: seq<Option<real>>, lo: real, hi: real)
    requires forall i :: 0 <= i < |growth| && growth[i].Some? ==> lo <= growth[i].value <= hi
    requires MeanSalesGrowth(growth).Some?
    ensures lo <= MeanSalesGrowth(growth).value <= hi
  {
    SumDefinedBounds(growth, lo, hi);
    MeanBetween(SumDefined(growth), CountDefined(growth), lo, hi);
  }

  // ---------------------------------------------------------------------
  // Price performance over a quarter

  /** The last month end on or before d: pandas rolls the end of
      `interval_range(end=d, freq='ME')` back to it. */
  function MonthEndOnOrBefore(d: Date): (k: int)
    ensures MonthEnd(k) <= d < MonthEnd(k + 1)
  {
    var m := MonthOf(d);
    MonthStartStep(m);
    if d == MonthEnd(m) then m else m - 1
  }

  /** The right end of `interval_range(end=rank_date, periods=13,
      freq='ME')[::-3][p]`: the month end p quarters before the last month
      end on or before the rank date. */
  function QuarterEnd(rankDate: Date, p: nat): Date
    requires p <= 4
  {
    MonthEnd(MonthEndOnOrBefore(rankDate) - 3 * p)
  }

  /** The quoted days from start to end, both included, ascending. */
  function TradingDays(closes: map<Date, Option<real>>, start: Date, end: Date): (r: seq<Date>)
    ensures StrictlyAscending(r) && Elems(r) == set d | d in closes && start <= d <= end
    ensures forall k :: 0 <= k < |r| ==> r[k] in closes && start <= r[k] <= end
  {
    var r := DaysIn(start, end, closes.Keys);
    assert forall k :: 0 <= k < |r| ==> r[k] in Elems(r);
    r
  }

  /** The close of the last quoted day over the close of the first, minus
      one: no quoted day (`IndexError`), a missing close (`TypeError`) or a
      zero first close (`ZeroDivisionError`) give NaN. */
  function PricePerformance(closes: map<Date, Option<real>>, start: Date, end: Date): (r: Option<real>)
    ensures r.None? <==> (|TradingDays(closes, start, end)| == 0
      || closes[TradingDays(closes, start, end)[0]].None?
      || closes[TradingDays(closes, start, end)[|TradingDays(closes, start, end)| - 1]].None?
      || closes[TradingDays(closes, start, end)[0]].value == 0.0)
    ensures r.Some? ==>
      (r.value + 1.0) * closes[TradingDays(closes, start, end)[0]].value
        == closes[TradingDays(closes, start, end)[|TradingDays(closes, start, end)| - 1]].value
  {
    var days := TradingDays(closes, start, end);
    if |days| == 0 then None
    else
      var first, last := closes[days[0]], closes[days[|days| - 1]];
      if first.None? || last.None? then None else Change(last.value, first.value)
  }

  /** The first and last quoted days of a window are its earliest and its
      latest quoted day. */
  lemma TradingDaysEnds(closes: map<Date, Option<real>>, start: Date, end: Date, d: Date)
    requires d in closes && start <= d <= end
    ensures |TradingDays(closes, start, end)| > 0
    ensures TradingDays(closes, start, end)[0] <= d <= TradingDays(closes, start, end)[|TradingDays(closes, start, end)| - 1]
  {
    var days := TradingDays(closes, start, end);
    assert d in Elems(days);
    var k :| 0 <= k < |days| && days[k] == d;
    if 0 < k { AscendingBetween(days, 0, k); }
    if k < |days| - 1 { AscendingBetween(days, k, |days| - 1); }
  }

  lemma AscendingBetween(s: seq<int>, i: nat, j: nat)
    requires StrictlyAscending(s) && i < j < |s|
    ensures s[i] < s[j]
  {
  }

  /** `compute_period_price_performance` with daily frequency, for period p
      in 0..3: the price performance from the quarter end p + 1 quarters
      back to the quarter end p quarters back, both days included. */
  function PeriodPricePerformance(closes: map<Date, Option<real>>, rankDate: Date, period: nat): (r: Option<real>)
    requires period <= 3
  {
    PricePerformance(closes, QuarterEnd(rankDate, period + 1), QuarterEnd(rankDate, period))
  }

  lemma MonthEndBefore(k1: int, k2: int)
    requires k1 < k2
    ensures MonthEnd(k1) < MonthEnd(k2)
  {
    MonthStartIncreasing(k1 + 1, k2 + 1);
  }

  /** Consecutive periods share their boundary month end, and each window
      ends on or before the rank date. */
  lemma QuarterWindows(rankDate: Date, period: nat)
    requires period <= 3
    ensures QuarterEnd(rankDate, period + 1) < QuarterEnd(rankDate, period) <= rankDate
  {
    var k := MonthEndOnOrBefore(rankDate);
    QuarterSteps(rankDate, k, period);
    EndsBefore(k, period, rankDate);
  }

  lemma EndsBefore(k: int, period: nat, d: Date)
    requires MonthEnd(k) <= d
    ensures MonthEnd(k - 3 * period - 3) < MonthEnd(k - 3 * period) <= d
  {
    MonthEndBefore(k - 3 * period - 3, k - 3 * period);
    if period > 0 {
      MonthEndBefore(k - 3 * period, k);
    }
  }

  lemma QuarterSteps(rankDate: Date, k: int, period: nat)
    requires period <= 3 && k == MonthEndOnOrBefore(rankDate)
    ensures QuarterEnd(rankDate, period) == MonthEnd(k - 3 * period)
    ensures QuarterEnd(rankDate, period + 1) == MonthEnd(k - 3 * period - 3)
  {
    assert k - 3 * (period + 1) == k - 3 * period - 3;
  }
}
