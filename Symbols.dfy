/** The index universe through time. Starting from today's constituents,
    the index change records are replayed backwards over a sequence of
    intervals: a ticker removed from the index during an interval was a
    member before it, a ticker added was not. The changes seen in one
    interval take effect from the next interval on. */
module Symbols {
  import opened Wrappers
  import opened Seqs
  import opened Strings
  import opened Calendar
  import opened Json

  /** `get_current_index_tickers`: the symbol of each constituent, in order. */
  function CurrentIndexTickers(constituents: seq<Record>): (r: seq<Value>)
    ensures |r| == |constituents|
    ensures forall i :: 0 <= i < |r| ==> r[i] == Get(constituents[i], "symbol")
  {
    Map(constituents, (c: Record) => Get(c, "symbol"))
  }

  /** The tickers of a list of constituents are those of its parts, in
      order; a constituent without a symbol yields `Null`. */
  lemma CurrentIndexTickersAppend(a: seq<Record>, b: seq<Record>)
    ensures CurrentIndexTickers(a + b) == CurrentIndexTickers(a) + CurrentIndexTickers(b)
    ensures forall c :: "symbol" !in c ==> CurrentIndexTickers([c]) == [Null]
  {
  }


  /** An index change record. A record without a `date` reads as `NaT`
      (None), and `addedSecurity`/`removedSecurity` are read with `get`, so
      they may be missing (`Null`) or not text at all. */
  datatype Change = Change(date: Option<Date>, addedSecurity: Value, removedSecurity: Value, removedTicker: string, symbol: string) {
    /** `pd.Timestamp(date) in interval`: `NaT` lies in no interval. */
    predicate In(iv: Interval) {
      date.Some? && iv.Contains(date.value)
    }
  }

  /** A pandas interval, open on the left and closed on the right. */
  datatype Interval = Interval(left: Date, right: Date) {
    predicate Contains(d: Date) {
      left < d <= right
    }
  }

  /** What replaying a change record schedules: a removal-only record
      brings the removed ticker back, an addition-only record takes the
      added symbol out, and any other record does both. */
  datatype Action = Restore | Drop | Swap

  function Classify(c: Change): (a: Action)
    ensures a == Restore <==> c.addedSecurity == Text("") && c.removedSecurity != Text("")
    ensures a == Drop <==> c.addedSecurity != Text("") && c.removedSecurity == Text("")
  {
    if c.addedSecurity == Text("") && c.removedSecurity != Text("") then Restore
    else if c.addedSecurity != Text("") && c.removedSecurity == Text("") then Drop
    else Swap
  }

  /** The tickers the records of an interval schedule to be added back. */
  function Restored(history: seq<Change>, iv: Interval): set<string>
  {
    if |history| == 0 then {}
    else
      var c := history[|history| - 1];
      Restored(history[..|history| - 1], iv) + (if c.In(iv) && Classify(c) != Drop then {c.removedTicker} else {})
  }

  /** The tickers the records of an interval schedule to be taken out. */
  function Dropped(history: seq<Change>, iv: Interval): set<string>
  {
    if |history| == 0 then {}
    else
      var c := history[|history| - 1];
      Dropped(history[..|history| - 1], iv) + (if c.In(iv) && Classify(c) != Restore then {c.symbol} else {})
  }

  /** A record without a date is never replayed, and one whose
      `addedSecurity` is missing counts as an addition: `None != ''`. */
  lemma UndatedIgnored(history: seq<Change>, c: Change, iv: Interval)
    ensures c.date.None? ==> Restored(history + [c], iv) == Restored(history, iv) && Dropped(history + [c], iv) == Dropped(history, iv)
    ensures c.addedSecurity == Null ==> Classify(c) != Restore
  {
  }

  /** A ticker is scheduled back exactly when some record of the interval
      that is not addition-only removed it. */
  lemma {:induction false} RestoredMembers(history: seq<Change>, iv: Interval, t: string)
    ensures t in Restored(history, iv) <==>
      exists j :: 0 <= j < |history| && history[j].In(iv) && Classify(history[j]) != Drop && history[j].removedTicker == t
  {
    if |history| > 0 {
      var n := |history| - 1;
      RestoredMembers(history[..n], iv, t);
      if exists j :: 0 <= j < |history| && history[j].In(iv) && Classify(history[j]) != Drop && history[j].removedTicker == t {
        var j :| 0 <= j < |history| && history[j].In(iv) && Classify(history[j]) != Drop && history[j].removedTicker == t;
        if j < n {
          assert history[..n][j] == history[j];
        }
      }
    }
  }

  /** A ticker is scheduled out exactly when some record of the interval
      that is not removal-only added it. */
  lemma {:induction false} DroppedMembers(history: seq<Change>, iv: Interval, t: string)
    ensures t in Dropped(history, iv) <==>
      exists j :: 0 <= j < |history| && history[j].In(iv) && Classify(history[j]) != Restore && history[j].symbol == t
  {
    if |history| > 0 {
      var n := |history| - 1;
      DroppedMembers(history[..n], iv, t);
      if exists j :: 0 <= j < |history| && history[j].In(iv) && Classify(history[j]) != Restore && history[j].symbol == t {
        var j :| 0 <= j < |history| && history[j].In(iv) && Classify(history[j]) != Restore && history[j].symbol == t;
        if j < n {
          assert history[..n][j] == history[j];
        }
      }
    }
  }

  /** The universe in force during interval k: today's tickers, then, for
      every earlier interval, removals applied before additions. */
  function Universe(current: seq<string>, intervals: seq<Interval>, history: seq<Change>, k: nat): set<string>
    requires k <= |intervals|
  {
    if k == 0 then Elems(current)
    else (Universe(current, intervals, history, k - 1) - Dropped(history, intervals[k - 1])) + Restored(history, intervals[k - 1])
  }

  /** A ticker is a member after interval k exactly when it was scheduled
      back during it, or it was a member and was not scheduled out; a ticker
      both scheduled out and back stays. */
  lemma UniverseStep(current: seq<string>, intervals: seq<Interval>, history: seq<Change>, k: nat, t: string)
    requires k < |intervals|
    ensures t in Universe(current, intervals, history, k + 1) <==>
      t in Restored(history, intervals[k]) || (t in Universe(current, intervals, history, k) && t !in Dropped(history, intervals[k]))
  {
  }

  /** The universe of interval k depends on the intervals before it only. */
  lemma {:induction false} UniverseIgnoresLaterIntervals(current: seq<string>, a: seq<Interval>, b: seq<Interval>, history: seq<Change>, k: nat)
    requires k <= |a| && k <= |b| && a[..k] == b[..k]
    ensures Universe(current, a, history, k) == Universe(current, b, history, k)
  {
    if k > 0 {
      assert a[..k - 1] == b[..k - 1] by {
        assert a[..k][..k - 1] == b[..k][..k - 1];
      }
      assert a[k - 1] == a[..k][k - 1] == b[..k][k - 1] == b[k - 1];
      UniverseIgnoresLaterIntervals(current, a, b, history, k - 1);
    }
  }

  /** No later interval has the same right end. */
  predicate LastWithRight(intervals: seq<Interval>, k: nat)
    requires k < |intervals|
  {
    forall j :: k < j < |intervals| ==> intervals[j].right != intervals[k].right
  }

  function Rights(intervals: seq<Interval>): set<Date> {
    set k | 0 <= k < |intervals| :: intervals[k].right
  }

  /** Scans the change records for one interval. */
  method ScanChanges(history: seq<Change>, iv: Interval) returns (toAdd: set<string>, toRemove: set<string>)
    ensures toAdd == Restored(history, iv) && toRemove == Dropped(history, iv)
  {
    toAdd, toRemove := {}, {};
    var j := 0;
    while j < |history|
      invariant 0 <= j <= |history|
      invariant toAdd == Restored(history[..j], iv) && toRemove == Dropped(history[..j], iv)
    {
      var c := history[j];
      assert history[..j + 1][..j] == history[..j];
      if c.In(iv) {
        match Classify(c)
        case Restore =>
          toAdd := toAdd + {c.removedTicker};
        case Drop =>
          toRemove := toRemove + {c.symbol};
        case Swap =>
          toAdd := toAdd + {c.removedTicker};
          toRemove := toRemove + {c.symbol};
      }
      j := j + 1;
    }
    assert history[..j] == history;
  }

  /** `{keys[k]: values[k] for k in ...}` filled in order: a later
      repeated key overwrites an earlier one. */
  function KeyedBy<V>(keys: seq<Date>, values: seq<V>): map<Date, V>
    requires |keys| == |values|
  {
    if |keys| == 0 then map[]
    else KeyedBy(keys[..|keys| - 1], values[..|keys| - 1])[keys[|keys| - 1] := values[|keys| - 1]]
  }

  lemma {:induction false} KeyedByKeys<V>(keys: seq<Date>, values: seq<V>)
    requires |keys| == |values|
    ensures KeyedBy(keys, values).Keys == Elems(keys)
  {
    if |keys| > 0 {
      var n := |keys| - 1;
      KeyedByKeys(keys[..n], values[..n]);
      assert keys == keys[..n] + [keys[n]];
    }
  }

  lemma {:induction false} KeyedByLast<V>(keys: seq<Date>, values: seq<V>, k: nat)
    requires |keys| == |values| && k < |keys|
    requires forall j :: k < j < |keys| ==> keys[j] != keys[k]
    ensures keys[k] in KeyedBy(keys, values) && KeyedBy(keys, values)[keys[k]] == values[k]
  {
    var n := |keys| - 1;
    if k < n {
      KeyedByLast(keys[..n], values[..n], k);
    }
  }

  function RightEnds(intervals: seq<Interval>): (r: seq<Date>)
    ensures |r| == |intervals| && forall k :: 0 <= k < |r| ==> r[k] == intervals[k].right
  {
    seq(|intervals|, k requires 0 <= k < |intervals| => intervals[k].right)
  }

  /** `get_index_tickers_for_periods`: the sorted universe of each interval,
      keyed by the interval's right end; a later interval with the same
      right end overwrites an earlier one. */
  method IndexTickersForPeriods(current: seq<string>, intervals: seq<Interval>, history: seq<Change>)
    returns (snapshots: map<Date, seq<string>>)
    ensures snapshots.Keys == Rights(intervals)
    ensures forall k :: 0 <= k < |intervals| && LastWithRight(intervals, k) ==>
      snapshots[intervals[k].right] == Sorted(Universe(current, intervals, history, k))
  {
    var tickers := Elems(current);
    var toAdd: set<string> := {};
    var toRemove: set<string> := {};
    snapshots := map[];
    ghost var keys: seq<Date> := [];
    ghost var views: seq<seq<string>> := [];
    var i := 0;
    while i < |intervals|
      invariant 0 <= i <= |intervals| && |views| == i && |keys| == i
      invariant (tickers - toRemove) + toAdd == Universe(current, intervals, history, i)
      invariant keys == RightEnds(intervals[..i]) && views == Views(current, intervals, history, i)
      invariant snapshots == KeyedBy(keys, views)
    {
      tickers, toAdd, toRemove := NextInterval(current, intervals, history, i, tickers, toAdd, toRemove);
      var view := Sorted(tickers);
      KeyedBySnoc(keys, views, intervals[i].right, view);
      ViewsSnoc(current, intervals, history, i);
      RightEndsSnoc(intervals, i);
      snapshots := snapshots[intervals[i].right := view];
      keys := keys + [intervals[i].right];
      views := views + [view];
      i := i + 1;
    }
    assert intervals[..i] == intervals;
    SnapshotFacts(current, intervals, history);
  }

  /** One pass of the loop of `get_index_tickers_for_periods`: the pending
      changes are applied, giving the universe of interval i, and the
      changes scheduled during interval i are collected. */
  method NextInterval(ghost current: seq<string>, intervals: seq<Interval>, history: seq<Change>, i: nat,
                      tickers: set<string>, toAdd: set<string>, toRemove: set<string>)
    returns (tickers': set<string>, toAdd': set<string>, toRemove': set<string>)
    requires i < |intervals| && (tickers - toRemove) + toAdd == Universe(current, intervals, history, i)
    ensures tickers' == Universe(current, intervals, history, i)
    ensures (tickers' - toRemove') + toAdd' == Universe(current, intervals, history, i + 1)
  {
    tickers' := tickers - toRemove;
    tickers' := tickers' + toAdd;
    toAdd', toRemove' := ScanChanges(history, intervals[i]);
  }

  /** The sorted universe of each of the first n intervals. */
  ghost function Views(current: seq<string>, intervals: seq<Interval>, history: seq<Change>, n: nat): (r: seq<seq<string>>)
    requires n <= |intervals|
    ensures |r| == n
  {
    seq(n, k requires 0 <= k < n => View(current, intervals, history, k))
  }

  /** The sorted universe of interval k. */
  ghost function View(current: seq<string>, intervals: seq<Interval>, history: seq<Change>, k: nat): seq<string>
    requires k <= |intervals|
  {
    Sorted(Universe(current, intervals, history, k))
  }

  lemma ViewsSnoc(current: seq<string>, intervals: seq<Interval>, history: seq<Change>, n: nat)
    requires n < |intervals|
    ensures Views(current, intervals, history, n + 1)
      == Views(current, intervals, history, n) + [View(current, intervals, history, n)]
  {
    var a := Views(current, intervals, history, n + 1);
    var b := Views(current, intervals, history, n) + [View(current, intervals, history, n)];
    forall k | 0 <= k < n + 1 ensures a[k] == b[k] {
      if k < n {
        assert b[k] == Views(current, intervals, history, n)[k];
      }
    }
  }

  lemma RightEndsSnoc(intervals: seq<Interval>, n: nat)
    requires n < |intervals|
    ensures RightEnds(intervals[..n + 1]) == RightEnds(intervals[..n]) + [intervals[n].right]
  {
  }

  lemma KeyedBySnoc<V>(keys: seq<Date>, values: seq<V>, k: Date, v: V)
    requires |keys| == |values|
    ensures KeyedBy(keys + [k], values + [v]) == KeyedBy(keys, values)[k := v]
  {
    assert (keys + [k])[..|keys|] == keys;
    assert (values + [v])[..|keys|] == values;
  }

  lemma SnapshotFacts(current: seq<string>, intervals: seq<Interval>, history: seq<Change>)
    ensures KeyedBy(RightEnds(intervals), Views(current, intervals, history, |intervals|)).Keys == Rights(intervals)
    ensures forall k :: 0 <= k < |intervals| && LastWithRight(intervals, k) ==>
      KeyedBy(RightEnds(intervals), Views(current, intervals, history, |intervals|))[intervals[k].right] == Sorted(Universe(current, intervals, history, k))
  {
    var rights := RightEnds(intervals);
    var views := Views(current, intervals, history, |intervals|);
    KeyedByKeys(rights, views);
    assert Elems(rights) == Rights(intervals) by {
      forall d | d in Rights(intervals) ensures d in Elems(rights) {
        var k :| 0 <= k < |intervals| && intervals[k].right == d;
        assert rights[k] == d;
      }
    }
    forall k | 0 <= k < |intervals| && LastWithRight(intervals, k)
      ensures KeyedBy(rights, views)[intervals[k].right] == Sorted(Universe(current, intervals, history, k))
    {
      KeyedByLast(rights, views, k);
    }
  }

  /** `get_all_ptf_tickers`: every ticker of every period once, sorted,
      without the empty name. */
  method AllPtfTickers(periods: seq<seq<string>>) returns (r: seq<string>)
    ensures StrictlySorted(r)
    ensures forall t :: t in Elems(r) <==> t != "" && exists p :: 0 <= p < |periods| && t in periods[p]
  {
    var tickers: seq<string> := [];
    var i := 0;
    while i < |periods|
      invariant 0 <= i <= |periods|
      invariant forall t :: t in tickers <==> exists p :: 0 <= p < i && t in periods[p]
    {
      tickers := tickers + periods[i];
      i := i + 1;
    }
    r := Sorted(set t | t in tickers && t != "");
  }
}
