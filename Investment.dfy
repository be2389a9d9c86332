/** Performance analytics of one backtested investment: its returns,
    compounded return, running peaks, drawdowns, the totals of its
    transaction columns, the counters of its metrics table and the daily
    statistics of the tickers' shares in the portfolio. A data frame is
    modelled as a map from column names to columns, NaN as None. */
module Investment {
  import opened Wrappers
  import opened Seqs
  import opened MapSums
  import opened Returns

  /** Columns of a backtest frame; NaN cells are None. */
  type Frame = map<string, seq<Option<real>>>

  predicate Positive(nav: seq<real>) {
    forall i :: 0 <= i < |nav| ==> nav[i] > 0.0
  }

  /** The nav column: `nav`, or else `<name>_nav`; a frame with neither is
      a `KeyError` (None). */
  function NavColumn<C>(frame: map<string, C>, name: string): (r: Option<C>)
    ensures r.None? <==> "nav" !in frame && name + "_nav" !in frame
    ensures "nav" in frame ==> r == Some(frame["nav"])
    ensures "nav" !in frame && r.Some? ==> r == Some(frame[name + "_nav"])
  {
    if "nav" in frame then Some(frame["nav"])
    else if name + "_nav" in frame then Some(frame[name + "_nav"])
    else None
  }

  /** The column of the first of `keys` that the frame holds, if any. */
  function FirstPresent<C>(frame: map<string, C>, keys: seq<string>): (r: Option<C>)
    ensures r.None? <==> forall k :: k in keys ==> k !in frame
    ensures r.Some? ==> exists i :: 0 <= i < |keys| && keys[i] in frame && r.value == frame[keys[i]]
  {
    if |keys| == 0 then None
    else if keys[0] in frame then Some(frame[keys[0]])
    else FirstPresent(frame, keys[1..])
  }

  /** Looking up `nav` and falling back to `<name>_nav` on a `KeyError` is
      taking the first present of the two candidate columns. */
  lemma NavColumnFirstPresent<C>(frame: map<string, C>, name: string)
    ensures NavColumn(frame, name) == FirstPresent(frame, ["nav", name + "_nav"])
  {
  }

  // ---------------------------------------------------------------------
  // Returns

  /** `(1 + returns).prod() - 1`, the undefined first return skipped. */
  function CumulativeReturns(nav: seq<real>): real {
    GrowthProduct(PctChange(nav)) - 1.0
  }

  /** For a nav that never touches zero the compounded return is the
      overall change from the first to the last value. */
  lemma CumulativeTelescopes(nav: seq<real>)
    requires |nav| > 0
    requires forall i :: 0 <= i < |nav| ==> nav[i] != 0.0
    ensures CumulativeReturns(nav) == nav[|nav| - 1] / nav[0] - 1.0
  {
    GrowthTelescopes(nav, |nav|);
    assert PctChange(nav)[..|nav|] == PctChange(nav);
  }

  /** Periods whose return is defined and positive (`returns > 0`). */
  function Positives(r: seq<Option<real>>): nat {
    if |r| == 0 then 0
    else Positives(r[..|r| - 1]) + (if r[|r| - 1].Some? && r[|r| - 1].value > 0.0 then 1 else 0)
  }

  /** Periods whose return is defined and negative (`returns < 0`). */
  function Negatives(r: seq<Option<real>>): nat {
    if |r| == 0 then 0
    else Negatives(r[..|r| - 1]) + (if r[|r| - 1].Some? && r[|r| - 1].value < 0.0 then 1 else 0)
  }

  /** Periods in which a positive nav rose, resp. fell. */
  function Rises(nav: seq<real>): nat {
    if |nav| < 2 then 0
    else Rises(nav[..|nav| - 1]) + (if nav[|nav| - 1] > nav[|nav| - 2] then 1 else 0)
  }

  function Falls(nav: seq<real>): nat {
    if |nav| < 2 then 0
    else Falls(nav[..|nav| - 1]) + (if nav[|nav| - 1] < nav[|nav| - 2] then 1 else 0)
  }

  /** Over a positive base, a change is positive exactly when the value
      rose and negative exactly when it fell. */
  lemma ChangeSign(x: real, base: real)
    requires base > 0.0
    ensures Change(x, base).Some?
    ensures Change(x, base).value > 0.0 <==> x > base
    ensures Change(x, base).value < 0.0 <==> x < base
  {
    var q := Change(x, base).value;
    assert (q + 1.0) * base == x;
    assert q * base == x - base;
  }

  /** The positive and negative counts of the metrics table count the
      periods in which the nav rose and fell. */
  lemma {:induction false} CountsAreRisesAndFalls(nav: seq<real>)
    requires Positive(nav)
    ensures Positives(PctChange(nav)) == Rises(nav)
    ensures Negatives(PctChange(nav)) == Falls(nav)
    decreases |nav|
  {
    var r := PctChange(nav);
    var n := |nav|;
    if n == 1 {
      assert r[..0] == [];
    } else if n > 1 {
      var front := nav[..n - 1];
      PctChangePrefix(nav, n - 1);
      CountsAreRisesAndFalls(front);
      assert front[..n - 2] == nav[..n - 2];
      assert r[n - 1] == Change(nav[n - 1], nav[n - 2]);
      ChangeSign(nav[n - 1], nav[n - 2]);
    }
  }

  /** Every period is positive, negative or neither. */
  lemma {:induction false} CountsBounded(r: seq<Option<real>>)
    ensures Positives(r) + Negatives(r) <= |r|
  {
    if |r| > 0 {
      CountsBounded(r[..|r| - 1]);
    }
  }

  // ---------------------------------------------------------------------
  // Peaks and drawdowns

  function Max(a: real, b: real): real {
    if a >= b then a else b
  }

  /** `nav.cummax()`: the highest value seen so far. */
  function PreviousPeaks(nav: seq<real>): (r: seq<real>)
    ensures |r| == |nav|
    ensures |nav| > 0 ==> r[0] == nav[0]
    ensures forall i, j :: 0 <= j <= i < |nav| ==> nav[j] <= r[i]
    ensures forall i, j :: 0 <= i <= j < |nav| ==> r[i] <= r[j]
    decreases |nav|
  {
    if |nav| == 0 then []
    else
      var p := PreviousPeaks(nav[..|nav| - 1]);
      var x := nav[|nav| - 1];
      p + [if |p| == 0 then x else Max(p[|p| - 1], x)]
  }

  /** Every peak is a value the nav has taken by then. */
  lemma {:induction false} PeakAttained(nav: seq<real>, i: nat)
    requires i < |nav|
    ensures exists j :: 0 <= j <= i && PreviousPeaks(nav)[i] == nav[j]
  {
    var p := PreviousPeaks(nav);
    if i == 0 {
      assert p[0] == nav[0];
    } else {
      PeakStep(nav, i);
      if p[i] != nav[i] {
        PeakAttained(nav, i - 1);
        var j :| 0 <= j <= i - 1 && p[i - 1] == nav[j];
        assert p[i] == nav[j];
      }
    }
  }

  /** Each peak is the previous one unless the nav makes a new high. */
  lemma PeakStep(nav: seq<real>, i: nat)
    requires 0 < i < |nav|
    ensures PreviousPeaks(nav)[i] == Max(PreviousPeaks(nav)[i - 1], nav[i])
  {
    var p := PreviousPeaks(nav);
    if i < |nav| - 1 {
      PeaksPrefix(nav, i + 1);
      PeakStep(nav[..i + 1], i);
      assert nav[..i + 1][i] == nav[i];
    } else {
      PeaksPrefix(nav, |nav| - 1);
    }
  }

  /** The peaks of a prefix are the prefix of the peaks. */
  lemma {:induction false} PeaksPrefix(nav: seq<real>, k: nat)
    requires k <= |nav|
    ensures PreviousPeaks(nav[..k]) == PreviousPeaks(nav)[..k]
    decreases |nav| - k
  {
    if k < |nav| {
      var n := |nav| - 1;
      assert nav[..n][..k] == nav[..k];
      PeaksPrefix(nav[..n], k);
    } else {
      assert nav[..k] == nav;
    }
  }

  /** `(nav - peak) / peak`; a zero peak gives NaN or an infinity in pandas,
      undefined here. */
  function DrawdownAt(x: real, peak: real): Option<real> {
    if peak == 0.0 then None else Some((x - peak) / peak)
  }

  function Drawdowns(nav: seq<real>): (r: seq<Option<real>>)
    ensures |r| == |nav|
  {
    var p := PreviousPeaks(nav);
    seq(|nav|, i requires 0 <= i < |nav| => DrawdownAt(nav[i], p[i]))
  }

  lemma DrawdownSign(x: real, peak: real)
    requires peak > 0.0 && x <= peak
    ensures DrawdownAt(x, peak).Some?
    ensures DrawdownAt(x, peak).value <= 0.0
    ensures DrawdownAt(x, peak).value == 0.0 <==> x == peak
  {
    var q := DrawdownAt(x, peak).value;
    assert q * peak == x - peak;
  }

  /** Under a positive peak the drawdown is never above zero, and it is
      zero exactly on a new high. */
  lemma DrawdownsNonPositive(nav: seq<real>)
    ensures forall i :: 0 <= i < |nav| && PreviousPeaks(nav)[i] > 0.0 ==>
      Drawdowns(nav)[i].Some? && Drawdowns(nav)[i].value <= 0.0
      && (Drawdowns(nav)[i].value == 0.0 <==> nav[i] == PreviousPeaks(nav)[i])
  {
    var p := PreviousPeaks(nav);
    forall i | 0 <= i < |nav| && p[i] > 0.0
      ensures Drawdowns(nav)[i].Some? && Drawdowns(nav)[i].value <= 0.0
      ensures Drawdowns(nav)[i].value == 0.0 <==> nav[i] == p[i]
    {
      DrawdownSign(nav[i], p[i]);
    }
  }

  /** The smallest defined value (`Series.min()`, NaN skipped). */
  function MinDefined(s: seq<Option<real>>): (r: Option<real>)
    ensures r.None? <==> forall i :: 0 <= i < |s| ==> s[i].None?
    ensures r.Some? ==> exists i :: 0 <= i < |s| && s[i] == r
    ensures r.Some? ==> forall i :: 0 <= i < |s| && s[i].Some? ==> r.value <= s[i].value
  {
    if |s| == 0 then None
    else
      var m := MinDefined(s[..|s| - 1]);
      match s[|s| - 1]
      case None => m
      case Some(v) => if m.Some? && m.value <= v then m else Some(v)
  }

  /** The largest defined value (`Series.max()`, NaN skipped). */
  function MaxDefined(s: seq<Option<real>>): (r: Option<real>)
    ensures r.None? <==> forall i :: 0 <= i < |s| ==> s[i].None?
    ensures r.Some? ==> exists i :: 0 <= i < |s| && s[i] == r
    ensures r.Some? ==> forall i :: 0 <= i < |s| && s[i].Some? ==> s[i].value <= r.value
  {
    if |s| == 0 then None
    else
      var m := MaxDefined(s[..|s| - 1]);
      match s[|s| - 1]
      case None => m
      case Some(v) => if m.Some? && m.value >= v then m else Some(v)
  }

  /** `drawdowns.min()`. */
  function MaxDrawdown(nav: seq<real>): Option<real> {
    MinDefined(Drawdowns(nav))
  }

  /** A positive nav has a maximum drawdown; it is at most zero, and it is
      zero exactly when the nav never falls below its previous peak. */
  lemma MaxDrawdownFacts(nav: seq<real>)
    requires |nav| > 0 && Positive(nav)
    ensures MaxDrawdown(nav).Some? && MaxDrawdown(nav).value <= 0.0
    ensures MaxDrawdown(nav).value == 0.0 <==>
      forall i :: 0 <= i < |nav| ==> nav[i] == PreviousPeaks(nav)[i]
  {
    var p := PreviousPeaks(nav);
    var d := Drawdowns(nav);
    DrawdownsNonPositive(nav);
    assert d[0].Some?;
    var m := MaxDrawdown(nav).value;
    var k :| 0 <= k < |d| && d[k] == Some(m);
    if forall i :: 0 <= i < |nav| ==> nav[i] == p[i] {
      assert d[k].value == 0.0;
    }
  }

  // ---------------------------------------------------------------------
  // Transaction totals and metrics

  /** The sum of the defined values (`sum(skipna=True)`); an all-NaN column
      sums to zero. */
  function SumDefined(s: seq<Option<real>>): real {
    if |s| == 0 then 0.0 else SumDefined(s[..|s| - 1]) + (match s[|s| - 1] case None => 0.0 case Some(v) => v)
  }

  /** How many values are defined (`count()`). */
  function CountDefined(s: seq<Option<real>>): (n: nat)
    ensures n <= |s|
    ensures n == 0 <==> forall i :: 0 <= i < |s| ==> s[i].None?
  {
    if |s| == 0 then 0 else CountDefined(s[..|s| - 1]) + (if s[|s| - 1].Some? then 1 else 0)
  }

  lemma {:induction false} SumDefinedAppend(a: seq<Option<real>>, b: seq<Option<real>>)
    ensures SumDefined(a + b) == SumDefined(a) + SumDefined(b)
    decreases |b|
  {
    if |b| == 0 {
      assert a + b == a;
    } else {
      assert (a + b)[..|a + b| - 1] == a + b[..|b| - 1];
      SumDefinedAppend(a, b[..|b| - 1]);
    }
  }

  lemma {:induction false} SumDefinedNonNegative(s: seq<Option<real>>)
    requires forall i :: 0 <= i < |s| && s[i].Some? ==> s[i].value >= 0.0
    ensures SumDefined(s) >= 0.0
  {
    if |s| > 0 {
      SumDefinedNonNegative(s[..|s| - 1]);
    }
  }

  /** The total of a transaction column, or None (NaN in the source) when
      the frame has no such column. */
  function ColumnTotal(frame: Frame, column: string): (r: Option<real>)
    ensures r.None? <==> column !in frame
    ensures r.Some? ==> r.value == SumDefined(frame[column])
  {
    if column in frame then Some(SumDefined(frame[column])) else None
  }

  /** Adding rows to a frame adds their totals. */
  lemma ColumnTotalAppend(a: Frame, b: Frame, merged: Frame, column: string)
    requires column in a && column in b && column in merged
    requires merged[column] == a[column] + b[column]
    ensures ColumnTotal(merged, column).value == ColumnTotal(a, column).value + ColumnTotal(b, column).value
  {
    SumDefinedAppend(a[column], b[column]);
  }

  /** The undefined first return is neither positive nor negative. */
  lemma {:induction false} FirstReturnUncounted(nav: seq<real>)
    requires |nav| > 0
    ensures Positives(PctChange(nav)) + Negatives(PctChange(nav)) < |nav|
    decreases |nav|
  {
    var r := PctChange(nav);
    if |nav| == 1 {
      assert r[..0] == [];
    } else {
      PctChangePrefix(nav, |nav| - 1);
      FirstReturnUncounted(nav[..|nav| - 1]);
    }
  }

  /** The metrics table, without the annualised figures. */
  datatype Metrics = Metrics(
    lastValue: real,
    maxValue: real,
    cumulativeReturns: real,
    positiveMonths: nat,
    negativeMonths: nat,
    maxDrawdown: Option<real>,
    daysInvested: nat,
    replaceCount: Option<real>,
    replaceCost: Option<real>,
    rebalanceCount: Option<real>,
    rebalanceCost: Option<real>,
    strategyCount: Option<real>,
    strategyCost: Option<real>)

  /** The metrics of a nav series and its backtest frame; an empty nav has
      no last value (`IndexError`, None). */
  function ComputeMetrics(nav: seq<real>, frame: Frame): (r: Option<Metrics>)
    ensures r.None? <==> |nav| == 0
    ensures r.Some? ==> r.value.lastValue == nav[|nav| - 1] && r.value.daysInvested == |nav|
    ensures r.Some? ==> forall i :: 0 <= i < |nav| ==> nav[i] <= r.value.maxValue
    ensures r.Some? ==> exists i :: 0 <= i < |nav| && nav[i] == r.value.maxValue
    ensures r.Some? ==> r.value.positiveMonths + r.value.negativeMonths < |nav|
    ensures r.Some? && Positive(nav) ==> r.value.cumulativeReturns == nav[|nav| - 1] / nav[0] - 1.0
    ensures r.Some? && Positive(nav) ==> r.value.positiveMonths == Rises(nav) && r.value.negativeMonths == Falls(nav)
    ensures r.Some? && Positive(nav) ==> r.value.maxDrawdown.Some? && r.value.maxDrawdown.value <= 0.0
    ensures r.Some? && Positive(nav) ==>
      (r.value.maxDrawdown.value == 0.0 <==> forall i :: 0 <= i < |nav| ==> nav[i] == PreviousPeaks(nav)[i])
    ensures r.Some? ==> r.value.replaceCount == ColumnTotal(frame, "replace_trans_counts")
    ensures r.Some? ==> r.value.replaceCost == ColumnTotal(frame, "replace_trans_costs")
    ensures r.Some? ==> r.value.rebalanceCount == ColumnTotal(frame, "rebal_trans_counts")
    ensures r.Some? ==> r.value.rebalanceCost == ColumnTotal(frame, "rebal_trans_costs")
    ensures r.Some? ==> r.value.strategyCount == ColumnTotal(frame, "strategy_trans_counts")
    ensures r.Some? ==> r.value.strategyCost == ColumnTotal(frame, "strategy_trans_costs")
  {
    if |nav| == 0 then None
    else
      var ret := PctChange(nav);
      FirstReturnUncounted(nav);
      PeakAttained(nav, |nav| - 1);
      var m := Metrics(
        nav[|nav| - 1],
        PreviousPeaks(nav)[|nav| - 1],
        CumulativeReturns(nav),
        Positives(ret),
        Negatives(ret),
        MaxDrawdown(nav),
        |nav|,
        ColumnTotal(frame, "replace_trans_counts"),
        ColumnTotal(frame, "replace_trans_costs"),
        ColumnTotal(frame, "rebal_trans_counts"),
        ColumnTotal(frame, "rebal_trans_costs"),
        ColumnTotal(frame, "strategy_trans_counts"),
        ColumnTotal(frame, "strategy_trans_costs"));
      if Positive(nav) then
        CumulativeTelescopes(nav);
        CountsAreRisesAndFalls(nav);
        MaxDrawdownFacts(nav);
        Some(m)
      else Some(m)
  }

  /** `nav.loc[selected_dates].pct_change()`. */
  function ComputePeriodReturns(dates: seq<int>, nav: seq<real>, selected: seq<int>): (r: Option<seq<Option<real>>>)
    requires |dates| == |nav|
    ensures r.None? <==> exists k :: 0 <= k < |selected| && selected[k] !in dates
    ensures r.Some? ==> |r.value| == |selected| && (|selected| > 0 ==> r.value[0].None?)
    ensures r.Some? ==> forall k :: 0 < k < |selected| ==>
      r.value[k] == Change(nav[IndexOf(dates, selected[k])], nav[IndexOf(dates, selected[k - 1])])
  {
    PeriodReturns(dates, nav, selected)
  }

  // ---------------------------------------------------------------------
  // Share statistics

  /** `mean()` of the defined values; NaN when none is. */
  function MeanDefined(s: seq<Option<real>>): (r: Option<real>)
    ensures r.None? <==> CountDefined(s) == 0
  {
    if CountDefined(s) == 0 then None else Some(SumDefined(s) / CountDefined(s) as real)
  }

  /** The statistics appended to a day's row of ticker shares: each is taken
      over the first n cells, n being the number of ticker columns, so the
      columns added before it are not part of it. */
  function ShareStatsRow(row: seq<Option<real>>, n: nat): (r: seq<Option<real>>)
    ensures |r| == 3
  {
    var withMax := row + [MaxDefined(PyPrefix(row, n))];
    var withMin := withMax + [MinDefined(PyPrefix(withMax, n))];
    var withMean := withMin + [MeanDefined(PyPrefix(withMin, n))];
    withMean[|withMean| - 3..]
  }

  /** `get_tickers_share_in_pft_stats`: share_max, share_min, share_mean of
      every row. */
  function ShareStats(rows: seq<seq<Option<real>>>, n: nat): (r: seq<seq<Option<real>>>)
    ensures |r| == |rows|
  {
    seq(|rows|, i requires 0 <= i < |rows| => ShareStatsRow(rows[i], n))
  }

  /** Sums and counts of the defined values against a bound. */
  lemma {:induction false} SumDefinedBounds(s: seq<Option<real>>, lo: real, hi: real)
    requires forall i :: 0 <= i < |s| && s[i].Some? ==> lo <= s[i].value <= hi
    ensures Times(CountDefined(s), lo) <= SumDefined(s) <= Times(CountDefined(s), hi)
  {
    if |s| > 0 {
      SumDefinedBounds(s[..|s| - 1], lo, hi);
    }
  }

  lemma MeanBetween(sum: real, n: nat, lo: real, hi: real)
    requires n > 0 && Times(n, lo) <= sum <= Times(n, hi)
    ensures lo <= sum / n as real <= hi
  {
    TimesIsProduct(n, lo);
    TimesIsProduct(n, hi);
    var q := sum / n as real;
    assert q * n as real == sum;
  }

  /** Over a row of exactly n ticker columns the statistics are the max,
      min and mean of the tickers' shares, and min <= mean <= max whenever
      a share is defined. */
  lemma ShareStatsRowFacts(row: seq<Option<real>>, n: nat)
    requires |row| == n
    ensures ShareStatsRow(row, n) == [MaxDefined(row), MinDefined(row), MeanDefined(row)]
    ensures CountDefined(row) > 0 ==>
      MinDefined(row).value <= MeanDefined(row).value <= MaxDefined(row).value
  {
    var withMax := row + [MaxDefined(PyPrefix(row, n))];
    assert PyPrefix(row, n) == row;
    assert PyPrefix(withMax, n) == row;
    var withMin := withMax + [MinDefined(row)];
    assert PyPrefix(withMin, n) == row;
    if CountDefined(row) > 0 {
      var lo, hi := MinDefined(row).value, MaxDefined(row).value;
      SumDefinedBounds(row, lo, hi);
      MeanBetween(SumDefined(row), CountDefined(row), lo, hi);
    }
  }
}
