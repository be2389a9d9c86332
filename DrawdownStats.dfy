/** The drawdown episodes of an investment (`Investment.drawdowns_stats`):
    dates are grouped by their previous peak, each group is summarised by
    its start, its length, its deepest drawdown and when that was reached,
    and the groups that went below their peak are listed worst first. */
module DrawdownStats {
  import opened Wrappers
  import opened Seqs
  import opened Calendar
  import opened Returns
  import opened Investment

  /** One group of dates sharing a previous peak. */
  datatype Episode = Episode(started: Date, periods: nat, maxDrawdown: real, timing: Date, periodsToMax: nat)

  /** A group as a half-open range of positions. */
  datatype Run = Run(start: nat, end: nat)

  /** The drawdowns of a positive nav, all of them defined. */
  function Depths(nav: seq<real>): (r: seq<real>)
    requires Positive(nav)
    ensures |r| == |nav|
    ensures forall i :: 0 <= i < |nav| ==> Drawdowns(nav)[i] == Some(r[i])
  {
    DrawdownsNonPositive(nav);
    seq(|nav|, i requires 0 <= i < |nav| => Drawdowns(nav)[i].value)
  }

  predicate NonDecreasing(p: seq<real>) {
    forall i, j :: 0 <= i <= j < |p| ==> p[i] <= p[j]
  }

  /** Where the run of values equal to p[s], known to reach e, ends. */
  function RunEnd(p: seq<real>, s: nat, e: nat): (r: nat)
    requires s < e <= |p|
    requires forall i :: s <= i < e ==> p[i] == p[s]
    ensures e <= r <= |p|
    ensures forall i :: s <= i < r ==> p[i] == p[s]
    ensures r == |p| || p[r] != p[s]
    decreases |p| - e
  {
    if e == |p| || p[e] != p[s] then e else RunEnd(p, s, e + 1)
  }

  /** The maximal runs of equal values from position s on. */
  function Runs(p: seq<real>, s: nat): (r: seq<Run>)
    requires s <= |p|
    ensures forall k :: 0 <= k < |r| ==> s <= r[k].start < r[k].end <= |p|
    decreases |p| - s
  {
    if s == |p| then [] else var e := RunEnd(p, s, s + 1); [Run(s, e)] + Runs(p, e)
  }

  predicate RunsWithin(runs: seq<Run>, n: nat) {
    forall k :: 0 <= k < |runs| ==> runs[k].start < runs[k].end <= n
  }

  /** The lowest of d[s..e], the first one kept on ties as Python's `min`
      does. */
  function LowestIn(d: seq<real>, s: nat, e: nat): real
    requires s < e <= |d|
    decreases e
  {
    if e == s + 1 then d[s]
    else
      var m := LowestIn(d, s, e - 1);
      if d[e - 1] < m then d[e - 1] else m
  }

  /** The first position in s..e holding that lowest value. */
  function FirstLowestIn(d: seq<real>, s: nat, e: nat): nat
    requires s < e <= |d|
    decreases e
  {
    if e == s + 1 then s
    else if d[e - 1] < LowestIn(d, s, e - 1) then e - 1
    else FirstLowestIn(d, s, e - 1)
  }

  /** The lowest value is a lower bound attained first at its position. */
  lemma {:induction false} LowestInFacts(d: seq<real>, s: nat, e: nat)
    requires s < e <= |d|
    ensures s <= FirstLowestIn(d, s, e) < e
    ensures d[FirstLowestIn(d, s, e)] == LowestIn(d, s, e)
    ensures forall i :: s <= i < e ==> LowestIn(d, s, e) <= d[i]
    ensures forall i :: s <= i < FirstLowestIn(d, s, e) ==> LowestIn(d, s, e) < d[i]
    decreases e
  {
    if e > s + 1 {
      LowestInFacts(d, s, e - 1);
    }
  }

  /** The summary of one group: its first date, its size, its deepest
      drawdown, the first date at that depth and how many periods after
      the start it came. */
  function EpisodeOf(dates: seq<Date>, depth: seq<real>, run: Run): (ep: Episode)
    requires |dates| == |depth| && run.start < run.end <= |depth|
    ensures ep.started == dates[run.start] && ep.periods == run.end - run.start
    ensures ep.maxDrawdown == LowestIn(depth, run.start, run.end)
    ensures run.start + ep.periodsToMax == FirstLowestIn(depth, run.start, run.end) < run.end
    ensures ep.timing == dates[run.start + ep.periodsToMax]
  {
    var t := FirstLowestIn(depth, run.start, run.end);
    LowestInFacts(depth, run.start, run.end);
    Episode(dates[run.start], run.end - run.start, LowestIn(depth, run.start, run.end), dates[t], t - run.start)
  }

  function EpisodesOf(dates: seq<Date>, depth: seq<real>, runs: seq<Run>): (r: seq<Episode>)
    requires |dates| == |depth| && RunsWithin(runs, |depth|)
    ensures |r| == |runs|
    ensures forall k :: 0 <= k < |runs| ==> r[k] == EpisodeOf(dates, depth, runs[k])
  {
    if |runs| == 0 then []
    else EpisodesOf(dates, depth, runs[..|runs| - 1]) + [EpisodeOf(dates, depth, runs[|runs| - 1])]
  }

  /** `res.loc[res['max drawdown'] < 0]`. */
  function Deep(eps: seq<Episode>): (r: seq<Episode>)
    ensures forall k :: 0 <= k < |r| ==> r[k].maxDrawdown < 0.0
    ensures multiset(r) <= multiset(eps)
    ensures forall k :: 0 <= k < |eps| && eps[k].maxDrawdown < 0.0 ==> eps[k] in r
  {
    if |eps| == 0 then []
    else
      var rest := Deep(eps[..|eps| - 1]);
      var e := eps[|eps| - 1];
      assert eps == eps[..|eps| - 1] + [e];
      if e.maxDrawdown < 0.0 then rest + [e] else rest
  }

  /** Places e after the episodes no deeper than it. */
  function InsertByDrawdown(sorted: seq<Episode>, e: Episode): (r: seq<Episode>)
    ensures multiset(r) == multiset(sorted) + multiset{e}
  {
    if |sorted| == 0 then [e]
    else if sorted[|sorted| - 1].maxDrawdown <= e.maxDrawdown then sorted + [e]
    else
      var front := sorted[..|sorted| - 1];
      assert sorted == front + [sorted[|sorted| - 1]];
      InsertByDrawdown(front, e) + [sorted[|sorted| - 1]]
  }

  predicate SortedByDrawdown(eps: seq<Episode>) {
    forall i, j :: 0 <= i < j < |eps| ==> eps[i].maxDrawdown <= eps[j].maxDrawdown
  }

  lemma {:induction false} InsertSorted(sorted: seq<Episode>, e: Episode)
    requires SortedByDrawdown(sorted)
    ensures SortedByDrawdown(InsertByDrawdown(sorted, e))
    decreases |sorted|
  {
    if |sorted| > 0 {
      var last := sorted[|sorted| - 1];
      if last.maxDrawdown <= e.maxDrawdown {
        AppendSorted(sorted, e);
      } else {
        var front := sorted[..|sorted| - 1];
        InsertSorted(front, e);
        assert forall k :: 0 <= k < |front| ==> front[k].maxDrawdown <= last.maxDrawdown by {
          forall k | 0 <= k < |front| ensures front[k].maxDrawdown <= last.maxDrawdown {
            assert front[k] == sorted[k];
          }
        }
        InsertBounded(front, e, last.maxDrawdown);
        AppendSorted(InsertByDrawdown(front, e), last);
      }
    }
  }

  /** An episode no shallower than the last of a sorted list extends it. */
  lemma AppendSorted(sorted: seq<Episode>, e: Episode)
    requires SortedByDrawdown(sorted)
    requires |sorted| > 0 ==> sorted[|sorted| - 1].maxDrawdown <= e.maxDrawdown
    ensures SortedByDrawdown(sorted + [e])
  {
    var r := sorted + [e];
    forall i, j | 0 <= i < j < |r| ensures r[i].maxDrawdown <= r[j].maxDrawdown {
      assert r[i] == sorted[i];
      if j < |sorted| {
        assert r[j] == sorted[j];
      } else {
        assert sorted[i].maxDrawdown <= sorted[|sorted| - 1].maxDrawdown;
      }
    }
  }

  /** Inserting keeps an upper bound on the depths. */
  lemma InsertBounded(sorted: seq<Episode>, e: Episode, b: real)
    requires forall k :: 0 <= k < |sorted| ==> sorted[k].maxDrawdown <= b
    requires e.maxDrawdown <= b
    ensures forall k :: 0 <= k < |InsertByDrawdown(sorted, e)| ==> InsertByDrawdown(sorted, e)[k].maxDrawdown <= b
  {
    var t := InsertByDrawdown(sorted, e);
    forall k | 0 <= k < |t| ensures t[k].maxDrawdown <= b {
      assert t[k] in multiset(t);
      if t[k] != e {
        assert t[k] in multiset(sorted);
        var j :| 0 <= j < |sorted| && sorted[j] == t[k];
      }
    }
  }

  /** `sort_values(by='max drawdown')`, worst first; equal depths keep their
      chronological order. */
  function SortByDrawdown(eps: seq<Episode>): (r: seq<Episode>)
    ensures SortedByDrawdown(r) && multiset(r) == multiset(eps)
  {
    if |eps| == 0 then []
    else
      var front := eps[..|eps| - 1];
      assert eps == front + [eps[|eps| - 1]];
      InsertSorted(SortByDrawdown(front), eps[|eps| - 1]);
      InsertByDrawdown(SortByDrawdown(front), eps[|eps| - 1])
  }

  /** One episode per group of equal previous peak, in date order. */
  function Episodes(dates: seq<Date>, nav: seq<real>): seq<Episode>
    requires |dates| == |nav| && Positive(nav)
  {
    EpisodesOf(dates, Depths(nav), Runs(PreviousPeaks(nav), 0))
  }

  /** What `drawdowns_stats` reports. */
  function Stats(dates: seq<Date>, nav: seq<real>): seq<Episode>
    requires |dates| == |nav| && Positive(nav)
  {
    SortByDrawdown(Deep(Episodes(dates, nav)))
  }

  // ---------------------------------------------------------------------
  // The computation

  /** Runs from position s: the first one starts at s. */
  lemma RunsUnfold(p: seq<real>, s: nat, e: nat)
    requires s < e <= |p|
    requires forall i :: s <= i < e ==> p[i] == p[s]
    requires e == |p| || p[e] != p[s]
    ensures Runs(p, s) == [Run(s, e)] + Runs(p, e)
  {
    RunEndAt(p, s, s + 1, e);
  }

  lemma {:induction false} RunEndAt(p: seq<real>, s: nat, k: nat, e: nat)
    requires s < k <= e <= |p|
    requires forall i :: s <= i < e ==> p[i] == p[s]
    requires e == |p| || p[e] != p[s]
    ensures RunEnd(p, s, k) == e
    decreases e - k
  {
    if k < e {
      RunEndAt(p, s, k + 1, e);
    }
  }

  /** Scans the group starting at s: where it ends, its lowest drawdown
      and that drawdown's first offset from s. */
  method ScanGroup(peaks: seq<real>, depth: seq<real>, s: nat) returns (e: nat, low: real, at: nat)
    requires |peaks| == |depth| && s < |depth|
    ensures s < e <= |depth|
    ensures forall i :: s <= i < e ==> peaks[i] == peaks[s]
    ensures e == |peaks| || peaks[e] != peaks[s]
    ensures low == LowestIn(depth, s, e) && s + at == FirstLowestIn(depth, s, e)
    ensures s + at < e
  {
    e := s + 1;
    low, at := depth[s], 0;
    while e < |depth| && peaks[e] == peaks[s]
      invariant s < e <= |depth|
      invariant forall i :: s <= i < e ==> peaks[i] == peaks[s]
      invariant low == LowestIn(depth, s, e) && s + at == FirstLowestIn(depth, s, e)
      decreases |depth| - e
    {
      if depth[e] < low {
        low, at := depth[e], e - s;
      }
      e := e + 1;
    }
    LowestInFacts(depth, s, e);
  }

  /** Keeps the episodes that went below their peak, in order. */
  method KeepDeep(episodes: seq<Episode>) returns (deep: seq<Episode>)
    ensures deep == Deep(episodes)
  {
    deep := [];
    for i := 0 to |episodes|
      invariant deep == Deep(episodes[..i])
    {
      assert episodes[..i + 1][..i] == episodes[..i];
      if episodes[i].maxDrawdown < 0.0 {
        deep := deep + [episodes[i]];
      }
    }
    assert episodes[..|episodes|] == episodes;
  }

  lemma RunsAdvance(p: seq<real>, done: seq<Run>, s: nat, e: nat)
    requires s < e <= |p|
    requires forall i :: s <= i < e ==> p[i] == p[s]
    requires e == |p| || p[e] != p[s]
    requires done + Runs(p, s) == Runs(p, 0)
    ensures (done + [Run(s, e)]) + Runs(p, e) == Runs(p, 0)
  {
    RunsUnfold(p, s, e);
  }

  lemma EpisodesSnoc(dates: seq<Date>, depth: seq<real>, done: seq<Run>, run: Run)
    requires |dates| == |depth| && RunsWithin(done, |depth|)
    requires run.start < run.end <= |depth|
    ensures RunsWithin(done + [run], |depth|)
    ensures EpisodesOf(dates, depth, done + [run]) == EpisodesOf(dates, depth, done) + [EpisodeOf(dates, depth, run)]
  {
    assert (done + [run])[..|done|] == done;
  }

  /** The episodes of all groups, in chronological order. */
  method Summarise(dates: seq<Date>, peaks: seq<real>, depth: seq<real>) returns (episodes: seq<Episode>)
    requires |dates| == |peaks| == |depth|
    ensures episodes == EpisodesOf(dates, depth, Runs(peaks, 0))
  {
    episodes := [];
    ghost var done: seq<Run> := [];
    var s := 0;
    while s < |depth|
      invariant s <= |depth|
      invariant RunsWithin(done, |depth|)
      invariant done + Runs(peaks, s) == Runs(peaks, 0)
      invariant episodes == EpisodesOf(dates, depth, done)
      decreases |depth| - s
    {
      var e, low, at := ScanGroup(peaks, depth, s);
      ghost var run := Run(s, e);
      RunsAdvance(peaks, done, s, e);
      EpisodesSnoc(dates, depth, done, run);
      assert Episode(dates[s], e - s, low, dates[s + at], at) == EpisodeOf(dates, depth, run);
      episodes := episodes + [Episode(dates[s], e - s, low, dates[s + at], at)];
      done := done + [run];
      s := e;
    }
    assert done == Runs(peaks, 0);
  }

  /** `drawdowns_stats`: the groups of equal previous peak are scanned in
      order, then the ones below their peak are kept and sorted. An empty
      nav has no group, so the frame built from the empty dictionary has no
      `max drawdown` column to sort by and the source raises: None. */
  method ComputeDrawdownsStats(dates: seq<Date>, nav: seq<real>) returns (stats: Option<seq<Episode>>)
    requires |dates| == |nav| && StrictlyAscending(dates) && Positive(nav)
    ensures stats.None? <==> |nav| == 0
    ensures stats.Some? ==> stats.value == Stats(dates, nav)
  {
    var episodes := Summarise(dates, PreviousPeaks(nav), Depths(nav));
    if |episodes| == 0 {
      return None;
    }
    var deep := KeepDeep(episodes);
    stats := Some(SortByDrawdown(deep));
  }

  // ---------------------------------------------------------------------
  // Properties

  /** Ranges following one another from s to n without gap. */
  predicate Consecutive(runs: seq<Run>, s: nat, n: nat) {
    (s < n ==> |runs| > 0 && runs[0].start == s && runs[|runs| - 1].end == n)
    && forall k :: 0 <= k < |runs| - 1 ==> runs[k].end == runs[k + 1].start
  }

  /** Each range starts where the value changes. */
  predicate StartOnChange(p: seq<real>, runs: seq<Run>)
    requires forall k :: 0 <= k < |runs| ==> runs[k].start < |p|
  {
    forall k :: 0 <= k < |runs| ==> runs[k].start == 0 || p[runs[k].start - 1] != p[runs[k].start]
  }

  /** Each range holds exactly the positions of its value. */
  predicate Classes(p: seq<real>, runs: seq<Run>)
    requires forall k :: 0 <= k < |runs| ==> runs[k].start < |p|
  {
    forall k, i :: 0 <= k < |runs| && 0 <= i < |p| ==>
      (runs[k].start <= i < runs[k].end <==> p[i] == p[runs[k].start])
  }

  /** The ranges come in increasing order of value. */
  predicate Increasing(p: seq<real>, runs: seq<Run>)
    requires forall k :: 0 <= k < |runs| ==> runs[k].start < |p|
  {
    forall k, l :: 0 <= k < l < |runs| ==> p[runs[k].start] < p[runs[l].start]
  }

  /** The runs from s are consecutive ranges from s to the end. */
  lemma {:induction false} RunsConsecutive(p: seq<real>, s: nat)
    requires s <= |p|
    ensures Consecutive(Runs(p, s), s, |p|)
    decreases |p| - s
  {
    if s < |p| {
      var e := RunEnd(p, s, s + 1);
      var r := Runs(p, s);
      var rest := Runs(p, e);
      assert r == [Run(s, e)] + rest;
      RunsConsecutive(p, e);
      if e < |p| {
        assert r[|r| - 1] == rest[|rest| - 1];
      }
      forall k | 0 <= k < |r| - 1 ensures r[k].end == r[k + 1].start {
        assert r[k + 1] == rest[k];
        if k > 0 {
          assert r[k] == rest[k - 1];
        }
      }
    }
  }

  /** Each run from a boundary s starts where the value changes. */
  lemma {:induction false} RunsStartOnChange(p: seq<real>, s: nat)
    requires s <= |p|
    requires s == 0 || s == |p| || p[s - 1] != p[s]
    ensures StartOnChange(p, Runs(p, s))
    decreases |p| - s
  {
    if s < |p| {
      var e := RunEnd(p, s, s + 1);
      var r := Runs(p, s);
      var rest := Runs(p, e);
      assert r == [Run(s, e)] + rest;
      RunsStartOnChange(p, e);
      forall k | 0 < k < |r| ensures p[r[k].start - 1] != p[r[k].start] {
        assert r[k] == rest[k - 1];
      }
    }
  }

  /** Over non-decreasing values, each run holds exactly the positions of
      its value. */
  lemma {:induction false} RunsClasses(p: seq<real>, s: nat)
    requires NonDecreasing(p) && s <= |p|
    requires s == 0 || s == |p| || p[s - 1] != p[s]
    ensures Classes(p, Runs(p, s))
    decreases |p| - s
  {
    if s < |p| {
      var e := RunEnd(p, s, s + 1);
      var r := Runs(p, s);
      var rest := Runs(p, e);
      assert r == [Run(s, e)] + rest;
      RunsClasses(p, e);
      forall i | 0 <= i < |p| ensures s <= i < e <==> p[i] == p[s] {
        if i < s {
          assert p[i] <= p[s - 1] < p[s];
        } else if i >= e {
          assert p[e] <= p[i];
        }
      }
      forall k, i | 0 < k < |r| && 0 <= i < |p|
        ensures r[k].start <= i < r[k].end <==> p[i] == p[r[k].start]
      {
        assert r[k] == rest[k - 1];
      }
    }
  }

  /** Over non-decreasing values, the runs come in increasing order of
      value. */
  lemma {:induction false} RunsIncreasing(p: seq<real>, s: nat)
    requires NonDecreasing(p) && s <= |p|
    ensures Increasing(p, Runs(p, s))
    decreases |p| - s
  {
    if s < |p| {
      var e := RunEnd(p, s, s + 1);
      var r := Runs(p, s);
      var rest := Runs(p, e);
      assert r == [Run(s, e)] + rest;
      RunsIncreasing(p, e);
      forall k, l | 0 <= k < l < |r| ensures p[r[k].start] < p[r[l].start] {
        assert r[l] == rest[l - 1];
        if k > 0 {
          assert r[k] == rest[k - 1];
        } else {
          assert p[s] < p[e] <= p[r[l].start];
        }
      }
    }
  }

  /** A group starts on a new high: its peak is the nav there. */
  lemma RunStartIsPeak(nav: seq<real>, s: nat)
    requires s < |nav|
    requires s == 0 || PreviousPeaks(nav)[s - 1] != PreviousPeaks(nav)[s]
    ensures PreviousPeaks(nav)[s] == nav[s]
  {
    if s > 0 {
      PeakStep(nav, s);
    }
  }

  /** What one episode reports about its group of positions start..end:
      the earliest date, the group size, the deepest drawdown (never above
      zero, since the group starts on a new high), the first date at that
      depth and its index among the group's sorted dates. */
  lemma EpisodeFacts(dates: seq<Date>, nav: seq<real>, run: Run)
    requires |dates| == |nav| && StrictlyAscending(dates) && Positive(nav)
    requires run.start < run.end <= |nav|
    requires run.start == 0 || PreviousPeaks(nav)[run.start - 1] != PreviousPeaks(nav)[run.start]
    ensures EpisodeOf(dates, Depths(nav), run).maxDrawdown <= 0.0
    ensures forall i :: run.start <= i < run.end ==> EpisodeOf(dates, Depths(nav), run).started <= dates[i]
    ensures forall i :: run.start <= i < run.end ==> EpisodeOf(dates, Depths(nav), run).maxDrawdown <= Depths(nav)[i]
    ensures Depths(nav)[run.start + EpisodeOf(dates, Depths(nav), run).periodsToMax]
      == EpisodeOf(dates, Depths(nav), run).maxDrawdown
    ensures forall i :: run.start <= i < run.start + EpisodeOf(dates, Depths(nav), run).periodsToMax ==>
      EpisodeOf(dates, Depths(nav), run).maxDrawdown < Depths(nav)[i]
  {
    DepthAtGroupStart(nav, run.start);
    SummaryFacts(dates, Depths(nav), run);
  }

  /** EpisodeFacts for any drawdowns that are zero at the group start. */
  lemma SummaryFacts(dates: seq<Date>, d: seq<real>, run: Run)
    requires |dates| == |d| && StrictlyAscending(dates)
    requires run.start < run.end <= |d| && d[run.start] == 0.0
    ensures EpisodeOf(dates, d, run).maxDrawdown <= 0.0
    ensures forall i :: run.start <= i < run.end ==> EpisodeOf(dates, d, run).started <= dates[i]
    ensures forall i :: run.start <= i < run.end ==> EpisodeOf(dates, d, run).maxDrawdown <= d[i]
    ensures d[run.start + EpisodeOf(dates, d, run).periodsToMax] == EpisodeOf(dates, d, run).maxDrawdown
    ensures forall i :: run.start <= i < run.start + EpisodeOf(dates, d, run).periodsToMax ==>
      EpisodeOf(dates, d, run).maxDrawdown < d[i]
  {
    var s, e := run.start, run.end;
    LowestInFacts(d, s, e);
    forall i | s < i < e ensures dates[s] < dates[i] {
    }
  }

  /** A group starts at a drawdown of zero. */
  lemma DepthAtGroupStart(nav: seq<real>, s: nat)
    requires Positive(nav) && s < |nav|
    requires s == 0 || PreviousPeaks(nav)[s - 1] != PreviousPeaks(nav)[s]
    ensures Depths(nav)[s] == 0.0
  {
    var p := PreviousPeaks(nav);
    RunStartIsPeak(nav, s);
    DrawdownSign(nav[s], p[s]);
    assert Drawdowns(nav)[s] == DrawdownAt(nav[s], p[s]);
  }

  /** `drawdowns_stats` as a whole: the episodes it lists are those of the
      groups of equal previous peak that went below their peak, each
      listed once, worst first. */
  lemma StatsFacts(dates: seq<Date>, nav: seq<real>)
    requires |dates| == |nav| && Positive(nav)
    ensures SortedByDrawdown(Stats(dates, nav))
    ensures forall k :: 0 <= k < |Stats(dates, nav)| ==> Stats(dates, nav)[k].maxDrawdown < 0.0
    ensures multiset(Stats(dates, nav)) <= multiset(Episodes(dates, nav))
    ensures forall k :: 0 <= k < |Episodes(dates, nav)| && Episodes(dates, nav)[k].maxDrawdown < 0.0 ==>
      Episodes(dates, nav)[k] in Stats(dates, nav)
  {
    SortedDeepFacts(Episodes(dates, nav));
  }

  /** Keeping the episodes below their peak and sorting them. */
  lemma SortedDeepFacts(eps: seq<Episode>)
    ensures SortedByDrawdown(SortByDrawdown(Deep(eps)))
    ensures forall k :: 0 <= k < |SortByDrawdown(Deep(eps))| ==> SortByDrawdown(Deep(eps))[k].maxDrawdown < 0.0
    ensures multiset(SortByDrawdown(Deep(eps))) <= multiset(eps)
    ensures forall k :: 0 <= k < |eps| && eps[k].maxDrawdown < 0.0 ==> eps[k] in SortByDrawdown(Deep(eps))
  {
    var deep := Deep(eps);
    var stats := SortByDrawdown(deep);
    forall k | 0 <= k < |stats| ensures stats[k].maxDrawdown < 0.0 {
      assert stats[k] in multiset(deep);
    }
    forall k | 0 <= k < |eps| && eps[k].maxDrawdown < 0.0 ensures eps[k] in stats {
      assert eps[k] in multiset(deep);
    }
  }

  /** The groups of a nav's previous peaks: consecutive ranges covering
      every position, each holding exactly the positions of its peak
      value, in order of increasing peak, each starting on a change of
      peak. */
  lemma PeakGroups(nav: seq<real>)
    ensures Consecutive(Runs(PreviousPeaks(nav), 0), 0, |nav|)
    ensures StartOnChange(PreviousPeaks(nav), Runs(PreviousPeaks(nav), 0))
    ensures Classes(PreviousPeaks(nav), Runs(PreviousPeaks(nav), 0))
    ensures Increasing(PreviousPeaks(nav), Runs(PreviousPeaks(nav), 0))
  {
    var p := PreviousPeaks(nav);
    RunsConsecutive(p, 0);
    RunsStartOnChange(p, 0);
    RunsClasses(p, 0);
    RunsIncreasing(p, 0);
  }
}
