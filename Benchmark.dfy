/** The buy-and-hold benchmark: the open quotes of one ticker between two
    dates, their returns, the value of the initial capital invested on the
    first date, and the returns between selected dates. */
module Benchmark {
  import opened Wrappers
  import opened Seqs
  import opened Strings
  import opened Calendar
  import opened Returns

  /** The open quote of every ticker on every date it has one. */
  type Quotes = map<string, map<Date, real>>

  /** A series indexed by dates. */
  datatype Series = Series(dates: seq<Date>, values: seq<real>)

  /** `open_prices`: the upper-cased ticker's open quotes, sorted by date
      and restricted to start..end, both included; an unknown ticker, or one
      without any quote, makes a frame with no `Open` column (`KeyError`,
      None). */
  function OpenPrices(prices: Quotes, ticker: string, start: Date, end: Date): (r: Option<Series>)
    ensures r.None? <==> Upper(ticker) !in prices || |prices[Upper(ticker)]| == 0
    ensures r.Some? ==> |r.value.dates| == |r.value.values| && StrictlyAscending(r.value.dates)
    ensures r.Some? ==> Elems(r.value.dates) == set d | d in prices[Upper(ticker)] && start <= d <= end
    ensures r.Some? ==> forall k :: 0 <= k < |r.value.dates| ==>
      r.value.dates[k] in prices[Upper(ticker)] && r.value.values[k] == prices[Upper(ticker)][r.value.dates[k]]
  {
    var key := Upper(ticker);
    if key !in prices || |prices[key]| == 0 then None
    else
      var quotes := prices[key];
      var dates := DaysIn(start, end, quotes.Keys);
      assert forall k :: 0 <= k < |dates| ==> dates[k] in Elems(dates);
      Some(Series(dates, seq(|dates|, k requires 0 <= k < |dates| => quotes[dates[k]])))
  }

  /** `returns`: the percent change of the open quotes. */
  function BenchmarkReturns(open: Series): seq<Option<real>> {
    PctChange(open.values)
  }

  /** `nav`: the initial capital grown by the compounded returns, the first
      value set to the initial capital; undefined returns stay undefined
      (`cumprod` skips NaN), and an empty series has no first value to set
      (`IndexError`, None). */
  function Nav(open: seq<real>, init: real): (r: Option<seq<Option<real>>>)
    ensures r.None? <==> |open| == 0
    ensures r.Some? ==> |r.value| == |open| && r.value[0] == Some(init)
  {
    if |open| == 0 then None else Some(Compounded(PctChange(open), init))
  }

  /** `(1 + returns).cumprod() * init` with the first value replaced by
      `init`. */
  function Compounded(ret: seq<Option<real>>, init: real): (r: seq<Option<real>>)
    requires |ret| > 0
    ensures |r| == |ret| && r[0] == Some(init)
    ensures forall i :: 0 < i < |ret| ==> (r[i].None? <==> ret[i].None?)
    ensures forall i :: 0 < i < |ret| && ret[i].Some? ==> r[i] == Some(Scaled(ret[..i + 1], init))
  {
    seq(|ret|, i requires 0 <= i < |ret| =>
      if i == 0 then Some(init)
      else if ret[i].None? then None
      else Some(Scaled(ret[..i + 1], init)))
  }

  /** The capital grown by the compounded returns. */
  function Scaled(ret: seq<Option<real>>, init: real): real {
    GrowthProduct(ret) * init
  }

  /** A value grown by one return. */
  function Grown(x: real, ret: Option<real>): real {
    x * Growth(ret)
  }

  /** The capital invested at quote `x0`, held until quote `x`. */
  function BuyAndHold(init: real, x: real, x0: real): real
    requires x0 != 0.0
  {
    init * (x / x0)
  }

  lemma HoldSelf(init: real, x: real)
    requires x != 0.0
    ensures BuyAndHold(init, x, x) == init
  {
    SelfRatio(x);
  }

  lemma ScaleBy(s: seq<Option<real>>, init: real, x: real, x0: real)
    requires x0 != 0.0 && GrowthProduct(s) == x / x0
    ensures Scaled(s, init) == BuyAndHold(init, x, x0)
  {
  }

  lemma Regroup(a: real, g: real, init: real)
    ensures (a * g) * init == (a * init) * g
  {
  }

  /** Each defined later value is the previous one grown by that day's
      return; the first return is skipped as undefined. */
  lemma CompoundedStep(ret: seq<Option<real>>, init: real, i: nat)
    requires 0 < i < |ret| && ret[0].None? && ret[i].Some?
    requires forall j :: 0 < j < |ret| ==> ret[j].Some?
    ensures Compounded(ret, init)[i].Some? && Compounded(ret, init)[i - 1].Some?
    ensures Compounded(ret, init)[i].value == Grown(Compounded(ret, init)[i - 1].value, ret[i])
  {
    var c := Compounded(ret, init);
    assert c[i] == Some(Scaled(ret[..i + 1], init));
    assert ret[..i + 1] == ret[..i] + [ret[i]];
    GrowthProductAppend(ret[..i], ret[i]);
    Regroup(GrowthProduct(ret[..i]), Growth(ret[i]), init);
    if i == 1 {
      assert ret[..1] == [] + [ret[0]];
      GrowthProductAppend([], ret[0]);
    } else {
      assert c[i - 1] == Some(Scaled(ret[..i], init));
    }
  }

  /** With no zero quote, the benchmark is worth the initial capital times
      the growth of the quote since the first date. */
  lemma NavIsBuyAndHold(open: seq<real>, init: real)
    requires |open| > 0
    requires forall i :: 0 <= i < |open| ==> open[i] != 0.0
    ensures forall i :: 0 <= i < |open| ==> Nav(open, init).value[i] == Some(BuyAndHold(init, open[i], open[0]))
  {
    forall i | 0 <= i < |open| ensures Nav(open, init).value[i] == Some(BuyAndHold(init, open[i], open[0])) {
      NavAt(open, init, i);
    }
  }

  lemma NavAt(open: seq<real>, init: real, i: nat)
    requires i < |open|
    requires forall j :: 0 <= j < |open| ==> open[j] != 0.0
    ensures Nav(open, init).value[i] == Some(BuyAndHold(init, open[i], open[0]))
  {
    var ret := PctChange(open);
    assert Nav(open, init).value == Compounded(ret, init);
    if i == 0 {
      HoldSelf(init, open[0]);
    } else {
      assert ret[i].Some?;
      assert Compounded(ret, init)[i] == Some(Scaled(ret[..i + 1], init));
      GrowthTelescopes(open, i + 1);
      ScaleBy(ret[..i + 1], init, open[i], open[0]);
    }
  }

  /** With no zero quote, each value is the previous one grown by that
      day's return. */
  lemma NavStep(open: seq<real>, init: real, i: nat)
    requires 0 < i < |open|
    requires forall j :: 0 <= j < |open| ==> open[j] != 0.0
    ensures Nav(open, init).value[i].Some? && Nav(open, init).value[i - 1].Some?
    ensures Nav(open, init).value[i].value == Grown(Nav(open, init).value[i - 1].value, PctChange(open)[i])
  {
    var ret := PctChange(open);
    assert Nav(open, init).value == Compounded(ret, init);
    assert ret[0].None? && forall j :: 0 < j < |ret| ==> ret[j].Some?;
    CompoundedStep(ret, init, i);
  }

  /** `compute_period_returns`: the percent change of the open quotes at
      the selected dates; a date without a quote is a `KeyError` (None). */
  function ComputePeriodReturns(open: Series, selected: seq<Date>): (r: Option<seq<Option<real>>>)
    requires |open.dates| == |open.values|
    ensures r.None? <==> exists k :: 0 <= k < |selected| && selected[k] !in open.dates
    ensures r.Some? ==> |r.value| == |selected| && (|selected| > 0 ==> r.value[0].None?)
    ensures r.Some? ==> forall k :: 0 < k < |selected| ==>
      r.value[k] == Change(open.values[IndexOf(open.dates, selected[k])], open.values[IndexOf(open.dates, selected[k - 1])])
  {
    PeriodReturns(open.dates, open.values, selected)
  }
}
