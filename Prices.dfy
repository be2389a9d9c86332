/** Weekly close prices: for every Friday between a ticker's first and last
    trading dates, the last trading date of the Monday..Friday week ending
    on it, and that date's close. */
module Prices {
  import opened Wrappers
  import opened Seqs
  import opened Calendar
  import Symbols

  /** Two days with the same weekday are at least a week apart. */
  lemma SameWeekdayApart(a: Date, b: Date)
    requires a < b && Weekday(a) == Weekday(b)
    ensures a + 7 <= b
  {
    var q := (a + 5) / 7;
    var p := (b + 5) / 7;
    assert a + 5 == 7 * q + Weekday(a);
    assert b + 5 == 7 * p + Weekday(b);
    assert 7 * (p - q) == b - a;
  }

  /** The weekdays of the four days before a Friday run back to Monday. */
  lemma WeekBeforeFriday(f: Date, d: Date)
    requires Weekday(f) == Friday && f - 4 <= d <= f
    ensures Weekday(d) == Friday - (f - d)
  {
    var q := (f + 5) / 7;
    assert f + 5 == 7 * q + 4;
    assert d + 5 == 7 * q + (4 - (f - d));
  }

  /** The seven consecutive days from a Friday contain only one Friday. */
  lemma FridayOfWeek(f: Date, g: Date, d: Date)
    requires Weekday(f) == Friday && Weekday(g) == Friday
    requires f - 4 <= d <= f && g - 4 <= d <= g
    ensures f == g
  {
    if f < g {
      SameWeekdayApart(f, g);
    } else if g < f {
      SameWeekdayApart(g, f);
    }
  }

  /** `pd.date_range(start, end, freq='W-FRI')`: the Fridays from start to
      end. */
  function Fridays(start: Date, end: Date): (r: seq<Date>)
    ensures StrictlyAscending(r)
    ensures forall k :: 0 <= k < |r| ==> start <= r[k] <= end && Weekday(r[k]) == Friday
    ensures forall d :: start <= d <= end && Weekday(d) == Friday ==> d in r
  {
    var s := set d | start <= d <= end && Weekday(d) == Friday;
    var r := DaysIn(start, end, s);
    assert forall k :: 0 <= k < |r| ==> r[k] in Elems(r);
    forall d | start <= d <= end && Weekday(d) == Friday ensures d in r {
      assert d in s;
      assert d in Elems(r);
    }
    r
  }

  /** The intervals of a weekly calendar: each ends on a Friday, spans the
      four days before it, and each Friday is at least a week after the
      previous one. */
  predicate Weekly(weeks: seq<Symbols.Interval>) {
    && (forall k :: 0 <= k < |weeks| ==> weeks[k].left == weeks[k].right - 4 && Weekday(weeks[k].right) == Friday)
    && (forall i, j :: 0 <= i < j < |weeks| ==> weeks[i].right + 7 <= weeks[j].right)
  }

  /** `create_weekly_intervals`: `interval_range(end=friday, freq='4D',
      periods=1)` for every Friday from start to end. */
  function WeeklyIntervals(start: Date, end: Date): (r: seq<Symbols.Interval>)
    ensures Weekly(r)
    ensures forall k :: 0 <= k < |r| ==> start <= r[k].right <= end
    ensures forall d :: start <= d <= end && Weekday(d) == Friday ==> exists k :: 0 <= k < |r| && r[k].right == d
  {
    var f := Fridays(start, end);
    var r := seq(|f|, k requires 0 <= k < |f| => Symbols.Interval(f[k] - 4, f[k]));
    forall i, j | 0 <= i < j < |r| ensures r[i].right + 7 <= r[j].right {
      SameWeekdayApart(f[i], f[j]);
    }
    forall d | start <= d <= end && Weekday(d) == Friday ensures exists k :: 0 <= k < |r| && r[k].right == d {
      var k :| 0 <= k < |f| && f[k] == d;
      assert r[k].right == d;
    }
    r
  }

  /** `max(set(date_range(lo, hi)) & set(trading_dates))`: the last trading
      day from lo to hi, both included; none when there is no trading day
      (the `ValueError` of an empty `max`). */
  function LatestIn(days: set<Date>, lo: Date, hi: Date): (r: Option<Date>)
    ensures r.None? <==> forall d :: d in days ==> !(lo <= d <= hi)
    ensures r.Some? ==> r.value in days && lo <= r.value <= hi
    ensures r.Some? ==> forall d :: d in days && lo <= d <= hi ==> d <= r.value
  {
    var ds := DaysIn(lo, hi, days);
    if |ds| == 0 then
      assert forall d :: d in days && lo <= d <= hi ==> d in Elems(ds);
      None
    else
      var last := ds[|ds| - 1];
      assert last in Elems(ds);
      assert forall d :: d in days && lo <= d <= hi ==> d in Elems(ds);
      Some(last)
  }

  /** The pick of one week: the week's dates are enumerated from the
      interval's left end, so the Monday counts although the interval is
      open there. */
  function Pick(days: set<Date>, week: Symbols.Interval): Option<Date> {
    LatestIn(days, week.left, week.right)
  }

  /** The picked dates of the weeks, in order, weeks without a trading day
      skipped. */
  function Selection(days: set<Date>, weeks: seq<Symbols.Interval>): seq<Date> {
    if |weeks| == 0 then []
    else
      var n := |weeks| - 1;
      Selection(days, weeks[..n]) + (if Pick(days, weeks[n]).Some? then [Pick(days, weeks[n]).value] else [])
  }

  /** Some element of a non-empty set. */
  ghost function Member(s: set<Date>): (x: Date)
    requires s != {}
    ensures x in s
  {
    EmptyOrMember(s);
    var x :| x in s; x
  }

  method PickMember(s: set<Date>) returns (x: Date)
    requires s != {}
    ensures x in s
  {
    EmptyOrMember(s);
    x :| x in s;
  }

  lemma EmptyOrMember(s: set<Date>)
    ensures s == {} || exists x :: x in s
  {
    if forall x :: x !in s {
      assert s == {};
    }
  }

  /** The least key. */
  ghost function Earliest(s: set<Date>): (m: Date)
    requires s != {}
    ensures m in s && forall d :: d in s ==> m <= d
  {
    var x := Member(s);
    if s == {x} then x
    else
      assert s - {x} != {};
      var m := Earliest(s - {x});
      assert forall d :: d in s ==> d == x || d in s - {x};
      if x < m then x else m
  }

  /** The greatest key. */
  ghost function Latest(s: set<Date>): (m: Date)
    requires s != {}
    ensures m in s && forall d :: d in s ==> d <= m
  {
    var x := Member(s);
    if s == {x} then x
    else
      assert s - {x} != {};
      var m := Latest(s - {x});
      assert forall d :: d in s ==> d == x || d in s - {x};
      if x > m then x else m
  }

  /** The rows of the selected dates: `ticker_prices_df.loc[trading_dates]`. */
  function Rows(prices: map<Date, real>, dates: seq<Date>): (r: seq<(Date, real)>)
    requires forall k :: 0 <= k < |dates| ==> dates[k] in prices
    ensures |r| == |dates| && forall k :: 0 <= k < |r| ==> r[k] == (dates[k], prices[dates[k]])
  {
    seq(|dates|, k requires 0 <= k < |dates| => (dates[k], prices[dates[k]]))
  }

  /** The weekly selection of a ticker's trading dates. */
  ghost function WeeklySelection(days: set<Date>): seq<Date>
    requires days != {}
  {
    Selection(days, WeeklyIntervals(Earliest(days), Latest(days)))
  }

  /** `find_weekly_close_prices` with `create_weekly_intervals` as the
      interval creator; a ticker without prices fails on its first date
      (`IndexError`). */
  method FindWeeklyClosePrices(prices: map<Date, real>) returns (r: Option<seq<(Date, real)>>)
    ensures r.None? <==> prices == map[]
    ensures r.Some? ==> (forall k :: 0 <= k < |WeeklySelection(prices.Keys)| ==> WeeklySelection(prices.Keys)[k] in prices)
    ensures r.Some? ==> r.value == Rows(prices, WeeklySelection(prices.Keys))
  {
    var days := prices.Keys;
    if days == {} {
      assert prices == map[];
      return None;
    }
    var lo, hi := Bounds(days);
    var weeks := WeeklyIntervals(lo, hi);
    var trading: seq<Date> := [];
    var w := 0;
    while w < |weeks|
      invariant 0 <= w <= |weeks|
      invariant trading == Selection(days, weeks[..w])
    {
      assert weeks[..w + 1][..w] == weeks[..w];
      var pick := LatestIn(days, weeks[w].left, weeks[w].right);
      if pick.Some? {
        trading := trading + [pick.value];
      }
      w := w + 1;
    }
    assert weeks[..w] == weeks;
    SelectionTradingDays(days, weeks);
    r := Some(Rows(prices, trading));
  }

  /** The first and the last trading date, found in one pass over the
      dates (`sort_index()` then `[0]` and `[-1]`). */
  method Bounds(days: set<Date>) returns (lo: Date, hi: Date)
    requires days != {}
    ensures lo == Earliest(days) && hi == Latest(days)
  {
    var first := PickMember(days);
    lo, hi := first, first;
    var rest := days;
    while rest != {}
      invariant rest <= days && lo in days && hi in days
      invariant forall d :: d in days && d !in rest ==> lo <= d <= hi
      decreases rest
    {
      var d := PickMember(rest);
      if d < lo {
        lo := d;
      }
      if d > hi {
        hi := d;
      }
      rest := rest - {d};
    }
  }

  // ---------------------------------------------------------------------
  // What the selection is

  /** A date is selected exactly when it is the pick of some week. */
  lemma {:induction false} SelectionMembers(days: set<Date>, weeks: seq<Symbols.Interval>, x: Date)
    ensures x in Selection(days, weeks) <==> exists k :: 0 <= k < |weeks| && Pick(days, weeks[k]) == Some(x)
  {
    if |weeks| > 0 {
      var n := |weeks| - 1;
      var p := Pick(days, weeks[n]);
      SelectionMembers(days, weeks[..n], x);
      SomeAtSnoc(PicksOf(days, weeks), n, x);
      assert PicksOf(days, weeks)[..n] == PicksOf(days, weeks[..n]);
      assert x in Selection(days, weeks) <==> x in Selection(days, weeks[..n]) || p == Some(x);
    }
  }

  /** The pick of every week, in order. */
  function PicksOf(days: set<Date>, weeks: seq<Symbols.Interval>): (r: seq<Option<Date>>)
    ensures |r| == |weeks|
    ensures forall k :: 0 <= k < |weeks| ==> r[k] == Pick(days, weeks[k])
  {
    seq(|weeks|, k requires 0 <= k < |weeks| => Pick(days, weeks[k]))
  }

  lemma SomeAtSnoc<T>(os: seq<Option<T>>, n: nat, x: T)
    requires n + 1 == |os|
    ensures (exists k :: 0 <= k < |os| && os[k] == Some(x)) <==> (exists k :: 0 <= k < n && os[..n][k] == Some(x)) || os[n] == Some(x)
  {
    if exists k :: 0 <= k < |os| && os[k] == Some(x) {
      var k :| 0 <= k < |os| && os[k] == Some(x);
      if k < n {
        assert os[..n][k] == Some(x);
      }
    }
    if exists k :: 0 <= k < n && os[..n][k] == Some(x) {
      var k :| 0 <= k < n && os[..n][k] == Some(x);
      assert os[k] == Some(x);
    }
  }

  /** Every selected date is a trading date. */
  lemma SelectionTradingDays(days: set<Date>, weeks: seq<Symbols.Interval>)
    ensures forall k :: 0 <= k < |Selection(days, weeks)| ==> Selection(days, weeks)[k] in days
  {
    forall k | 0 <= k < |Selection(days, weeks)| ensures Selection(days, weeks)[k] in days {
      SelectionMembers(days, weeks, Selection(days, weeks)[k]);
    }
  }

  /** The Friday ending the week of a weekday. */
  function FridayOf(d: Date): Date {
    d + (Friday - Weekday(d))
  }

  /** Each selected date falls on a weekday and is the last trading date of
      its Monday..Friday week, and that Friday is one of the weeks. */
  lemma SelectionLatestInWeek(days: set<Date>, weeks: seq<Symbols.Interval>, x: Date)
    requires Weekly(weeks) && x in Selection(days, weeks)
    ensures x in days && Weekday(x) <= Friday
    ensures exists k :: 0 <= k < |weeks| && weeks[k].right == FridayOf(x)
    ensures forall d :: d in days && x < d <= FridayOf(x) ==> false
  {
    SelectionMembers(days, weeks, x);
    var k :| 0 <= k < |weeks| && Pick(days, weeks[k]) == Some(x);
    WeekBeforeFriday(weeks[k].right, x);
    assert weeks[k].right == FridayOf(x);
  }

  /** Every week that holds a trading date has its last one selected. */
  lemma SelectionCoversWeeks(days: set<Date>, weeks: seq<Symbols.Interval>, k: nat, f: Date, d: Date)
    requires Weekly(weeks) && k < |weeks| && weeks[k].right == f
    requires d in days && f - 4 <= d <= f
    ensures LatestIn(days, f - 4, f).Some? && LatestIn(days, f - 4, f).value in Selection(days, weeks)
  {
    assert Pick(days, weeks[k]) == LatestIn(days, f - 4, f);
    SelectionMembers(days, weeks, Pick(days, weeks[k]).value);
  }

  /** The selected dates are strictly ascending, hence one per week at most. */
  lemma {:induction false} SelectionAscending(days: set<Date>, weeks: seq<Symbols.Interval>)
    requires Weekly(weeks)
    ensures StrictlyAscending(Selection(days, weeks))
  {
    if |weeks| > 0 {
      var n := |weeks| - 1;
      var before := Selection(days, weeks[..n]);
      assert Weekly(weeks[..n]);
      SelectionAscending(days, weeks[..n]);
      if Pick(days, weeks[n]).Some? {
        var p := Pick(days, weeks[n]).value;
        forall j | 0 <= j < |before| ensures before[j] < p {
          PickedEarlier(days, weeks, before[j], p);
        }
        AppendAscending(before, p);
      }
    }
  }

  /** A date selected before the last week precedes that week's pick. */
  lemma PickedEarlier(days: set<Date>, weeks: seq<Symbols.Interval>, x: Date, p: Date)
    requires Weekly(weeks) && |weeks| > 0
    requires x in Selection(days, weeks[..|weeks| - 1]) && Pick(days, weeks[|weeks| - 1]) == Some(p)
    ensures x < p
  {
    var n := |weeks| - 1;
    SelectionMembers(days, weeks[..n], x);
    var k :| 0 <= k < n && Pick(days, weeks[..n][k]) == Some(x);
    assert weeks[..n][k] == weeks[k];
    assert weeks[k].right + 7 <= weeks[n].right;
  }

  /** The weekly selection of a ticker is strictly ascending. */
  lemma WeeklySelectionAscending(days: set<Date>)
    requires days != {}
    ensures StrictlyAscending(WeeklySelection(days))
  {
    SelectionAscending(days, WeeklyIntervals(Earliest(days), Latest(days)));
  }

  /** The weekly selection covers every week from the first to the last
      trading date whose Friday is on or before the last trading date. */
  lemma WeeklySelectionCovers(days: set<Date>, f: Date, d: Date)
    requires days != {}
    requires Weekday(f) == Friday && Earliest(days) <= f <= Latest(days)
    requires d in days && f - 4 <= d <= f
    ensures LatestIn(days, f - 4, f).Some? && LatestIn(days, f - 4, f).value in WeeklySelection(days)
  {
    var weeks := WeeklyIntervals(Earliest(days), Latest(days));
    var k := FridayIndex(Earliest(days), Latest(days), f);
    SelectionCoversWeeks(days, weeks, k, f, d);
  }

  lemma FridayIndex(start: Date, end: Date, f: Date) returns (k: nat)
    requires Weekday(f) == Friday && start <= f <= end
    ensures k < |WeeklyIntervals(start, end)| && WeeklyIntervals(start, end)[k].right == f
  {
    k :| k < |WeeklyIntervals(start, end)| && WeeklyIntervals(start, end)[k].right == f;
  }

  /** A last week whose Friday comes after the last trading date is not
      selected, even when it holds trading dates. */
  lemma PartialLastWeekDropped(days: set<Date>, x: Date)
    requires days != {} && x in WeeklySelection(days)
    ensures FridayOf(x) <= Latest(days)
  {
    var weeks := WeeklyIntervals(Earliest(days), Latest(days));
    SelectionLatestInWeek(days, weeks, x);
  }
}
