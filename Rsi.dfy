/** The relative strength index of a price series: the mean of the rises
    against the mean of the falls, over the last `period` prices
    (`compute_rsi`) or over every rolling window of `period` price changes
    (`compute_rsi_series`). NaN is None. */
module Rsi {
  import opened Wrappers
  import opened Seqs

  /** `delta.where(delta > 0, other=0)` at position i: the rise from the
      previous price, 0 for a fall and for the undefined first delta. */
  function GainAt(p: seq<real>, i: nat): (g: real)
    requires i < |p|
    ensures g >= 0.0
  {
    if i > 0 && p[i] - p[i - 1] > 0.0 then p[i] - p[i - 1] else 0.0
  }

  /** `delta.where(delta < 0, other=0)` at position i: the fall from the
      previous price (negative), 0 otherwise. */
  function LossAt(p: seq<real>, i: nat): (l: real)
    requires i < |p|
    ensures l <= 0.0
  {
    if i > 0 && p[i] - p[i - 1] < 0.0 then p[i] - p[i - 1] else 0.0
  }

  /** A price change is split into its gain and its loss, of which at most
      one is non-zero. */
  lemma GainLossSplit(p: seq<real>, i: nat)
    requires 0 < i < |p|
    ensures GainAt(p, i) + LossAt(p, i) == p[i] - p[i - 1]
    ensures GainAt(p, i) == 0.0 || LossAt(p, i) == 0.0
  {
  }

  function Gains(p: seq<real>): (r: seq<real>)
    ensures |r| == |p| && forall i :: 0 <= i < |p| ==> r[i] == GainAt(p, i)
  {
    seq(|p|, i requires 0 <= i < |p| => GainAt(p, i))
  }

  function Losses(p: seq<real>): (r: seq<real>)
    ensures |r| == |p| && forall i :: 0 <= i < |p| ==> r[i] == LossAt(p, i)
  {
    seq(|p|, i requires 0 <= i < |p| => LossAt(p, i))
  }

  lemma {:induction false} SumNonNegative(s: seq<real>)
    requires forall i :: 0 <= i < |s| ==> s[i] >= 0.0
    ensures Sum(s) >= 0.0
  {
    if |s| > 0 {
      SumNonNegative(s[..|s| - 1]);
    }
  }

  lemma {:induction false} SumNonPositive(s: seq<real>)
    requires forall i :: 0 <= i < |s| ==> s[i] <= 0.0
    ensures Sum(s) <= 0.0
  {
    if |s| > 0 {
      SumNonPositive(s[..|s| - 1]);
    }
  }

  /** `100 - 100 / (1 - rs)` with `rs = meanGain / meanLoss`. pandas
      divides by zero in floating point: a zero mean loss gives rs = +inf
      and an index of 100 when there was a gain, and NaN when there was
      none either. */
  function RsiOf(meanGain: real, meanLoss: real): (r: Option<real>)
    requires meanGain >= 0.0 && meanLoss <= 0.0
    ensures r.None? <==> meanGain == 0.0 && meanLoss == 0.0
  {
    if meanLoss == 0.0 then (if meanGain == 0.0 then None else Some(100.0))
    else
      var rs := meanGain / meanLoss;
      Some(100.0 - 100.0 / (1.0 - rs))
  }

  lemma NonPositiveQuotient(g: real, l: real)
    requires g >= 0.0 && l < 0.0
    ensures g / l <= 0.0
  {
  }

  lemma ShareForm(g: real, l: real)
    requires g >= 0.0 && l < 0.0
    ensures 100.0 - 100.0 / (1.0 - g / l) == 100.0 * g / (g - l)
  {
    NonPositiveQuotient(g, l);
    var d := 1.0 - g / l;
    OneMinusQuotient(g, l);
    InverseQuotient(l - g, l);
    assert 100.0 / d == 100.0 * l / (l - g);
    Complement(g, l);
  }

  lemma OneMinusQuotient(g: real, l: real)
    requires l != 0.0
    ensures 1.0 - g / l == (l - g) / l
  {
    var q := g / l;
    assert q * l == g;
    QuotientOf(1.0 - q, l - g, l);
  }

  lemma QuotientOf(x: real, y: real, l: real)
    requires l != 0.0 && x * l == y
    ensures x == y / l
  {
  }

  lemma InverseQuotient(a: real, l: real)
    requires a != 0.0 && l != 0.0
    ensures 100.0 / (a / l) == 100.0 * l / a
  {
  }

  lemma Complement(g: real, l: real)
    requires l - g != 0.0
    ensures 100.0 - 100.0 * l / (l - g) == 100.0 * g / (g - l)
  {
    var d := l - g;
    var q := 100.0 * l / d;
    assert q * d == 100.0 * l;
    assert (100.0 - q) * d == -100.0 * g;
    assert (100.0 - q) * (g - l) == 100.0 * g;
    QuotientOf(100.0 - q, 100.0 * g, g - l);
  }

  /** The index is the share of the gains in the total movement, scaled to
      100: it lies in [0, 100], is 100 exactly when nothing fell and 0
      exactly when nothing rose. */
  lemma RsiIsGainShare(meanGain: real, meanLoss: real)
    requires meanGain >= 0.0 && meanLoss <= 0.0
    requires RsiOf(meanGain, meanLoss).Some?
    ensures RsiOf(meanGain, meanLoss).value == 100.0 * meanGain / (meanGain - meanLoss)
    ensures 0.0 <= RsiOf(meanGain, meanLoss).value <= 100.0
    ensures RsiOf(meanGain, meanLoss).value == 100.0 <==> meanLoss == 0.0
    ensures RsiOf(meanGain, meanLoss).value == 0.0 <==> meanGain == 0.0
  {
    var g, l := meanGain, meanLoss;
    if l < 0.0 {
      ShareForm(g, l);
      ShareBounds(g, l);
    }
  }

  lemma ShareBounds(g: real, l: real)
    requires g >= 0.0 && l < 0.0
    ensures 0.0 <= 100.0 * g / (g - l) < 100.0
    ensures 100.0 * g / (g - l) == 0.0 <==> g == 0.0
  {
    var d := g - l;
    var q := 100.0 * g / d;
    assert q * d == 100.0 * g;
    assert (100.0 - q) * d == -100.0 * l;
    PositiveFactor(100.0 - q, d);
  }

  lemma PositiveFactor(x: real, d: real)
    requires d > 0.0 && x * d > 0.0
    ensures x > 0.0
  {
  }

  /** `compute_rsi`: the index over the last `period` prices, whose first
      delta is undefined and counts as neither gain nor loss; an empty
      window has NaN means. */
  function ComputeRsi(prices: seq<real>, period: int): (r: Option<real>)
    ensures r.None? <==> (|PySuffix(prices, period)| == 0
      || (Sum(Gains(PySuffix(prices, period))) == 0.0 && Sum(Losses(PySuffix(prices, period))) == 0.0))
  {
    var w := PySuffix(prices, period);
    if |w| == 0 then None
    else
      var n := |w| as real;
      SumNonNegative(Gains(w));
      SumNonPositive(Losses(w));
      MeanSign(Sum(Gains(w)), Sum(Losses(w)), n);
      RsiOf(Sum(Gains(w)) / n, Sum(Losses(w)) / n)
  }

  lemma MeanSign(g: real, l: real, n: real)
    requires n > 0.0 && g >= 0.0 && l <= 0.0
    ensures g / n >= 0.0 && l / n <= 0.0
    ensures g / n == 0.0 <==> g == 0.0
    ensures l / n == 0.0 <==> l == 0.0
  {
  }

  /** The mean gain against the mean loss is the total gain against the
      total loss: the window length cancels. */
  lemma MeansCancel(g: real, l: real, n: real)
    requires n > 0.0 && g >= 0.0 && l < 0.0
    ensures 100.0 * (g / n) / (g / n - l / n) == 100.0 * g / (g - l)
  {
    assert g / n - l / n == (g - l) / n;
  }

  /** `compute_rsi` is the share of the rises in the total movement over the
      window, an index in [0, 100]. */
  lemma ComputeRsiIsGainShare(prices: seq<real>, period: int)
    requires ComputeRsi(prices, period).Some?
    ensures GainShareOf(ComputeRsi(prices, period).value, Sum(Gains(PySuffix(prices, period))), Sum(Losses(PySuffix(prices, period))))
    ensures 0.0 <= ComputeRsi(prices, period).value <= 100.0
  {
    SumNonNegative(Gains(PySuffix(prices, period)));
    SumNonPositive(Losses(PySuffix(prices, period)));
    GainShare(Sum(Gains(PySuffix(prices, period))), Sum(Losses(PySuffix(prices, period))),
      |PySuffix(prices, period)| as real, ComputeRsi(prices, period).value);
  }

  /** r percent of the total movement g - l are the rises g. */
  predicate GainShareOf(r: real, g: real, l: real) {
    r * (g - l) == 100.0 * g
  }

  /** The index from the mean gain and loss, in terms of the totals. */
  lemma GainShare(g: real, l: real, n: real, r: real)
    requires n > 0.0 && g >= 0.0 && l <= 0.0
    requires RsiOf(g / n, l / n) == Some(r)
    ensures GainShareOf(r, g, l)
    ensures 0.0 <= r <= 100.0
  {
    MeanSign(g, l, n);
    RsiIsGainShare(g / n, l / n);
    if l < 0.0 {
      MeansCancel(g, l, n);
    }
    ShareTimes(r, g, l);
  }

  lemma ShareTimes(r: real, g: real, l: real)
    requires g - l > 0.0 && r == 100.0 * g / (g - l)
    ensures r * (g - l) == 100.0 * g
  {
  }

  /** Only the last `period` prices matter. */
  lemma ComputeRsiUsesLastPrices(older: seq<real>, recent: seq<real>, period: int)
    requires 0 < period <= |recent|
    ensures ComputeRsi(older + recent, period) == ComputeRsi(recent, period)
  {
    assert PySuffix(older + recent, period) == PySuffix(recent, period);
  }

  // ---------------------------------------------------------------------
  // Rolling index

  /** The index of the window of `period` positions ending at i, over the
      gains and losses of the whole series. */
  function WindowRsi(p: seq<real>, period: nat, i: nat): (r: Option<real>)
    requires 0 < period <= i + 1 <= |p|
  {
    var g := Gains(p)[i + 1 - period..i + 1];
    var l := Losses(p)[i + 1 - period..i + 1];
    SumNonNegative(g);
    SumNonPositive(l);
    MeanSign(Sum(g), Sum(l), period as real);
    RsiOf(Sum(g) / period as real, Sum(l) / period as real)
  }

  /** `compute_rsi_series`: `rolling(period).mean()` is NaN until a full
      window of `period` deltas is available, so the first `period - 1`
      values are undefined; a window of length 0 is never full. */
  function RsiSeries(prices: seq<real>, period: nat): (r: seq<Option<real>>)
    ensures |r| == |prices|
    ensures forall i :: 0 <= i < |prices| && i + 1 < period ==> r[i].None?
    ensures period == 0 ==> forall i :: 0 <= i < |prices| ==> r[i].None?
    ensures forall i :: 0 <= i < |prices| && 0 < period <= i + 1 ==> r[i] == WindowRsi(prices, period, i)
  {
    seq(|prices|, i requires 0 <= i < |prices| => if period == 0 || i + 1 < period then None else WindowRsi(prices, period, i))
  }

  /** The first full window of the rolling index starts at the first price,
      whose delta is undefined, so it agrees with `compute_rsi` over the
      first `period` prices; later windows also count the change into their
      first price, which `compute_rsi` drops. */
  lemma RsiSeriesStartsAsComputeRsi(prices: seq<real>, period: nat)
    requires 0 < period <= |prices|
    ensures RsiSeries(prices, period)[period - 1] == ComputeRsi(prices[..period], period)
  {
    var w := prices[..period];
    assert PySuffix(w, period) == w;
    assert Gains(prices)[..period] == Gains(w);
    assert Losses(prices)[..period] == Losses(w);
  }

  /** Every defined value of the rolling index lies in [0, 100]. */
  lemma RsiSeriesBounds(prices: seq<real>, period: nat, i: nat)
    requires i < |prices| && RsiSeries(prices, period)[i].Some?
    ensures 0.0 <= RsiSeries(prices, period)[i].value <= 100.0
  {
    var g := Gains(prices)[i + 1 - period..i + 1];
    var l := Losses(prices)[i + 1 - period..i + 1];
    SumNonNegative(g);
    SumNonPositive(l);
    MeanSign(Sum(g), Sum(l), period as real);
    RsiIsGainShare(Sum(g) / period as real, Sum(l) / period as real);
  }
}
