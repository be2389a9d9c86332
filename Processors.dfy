/** Preparing the ranking input: the statement records of each symbol are
    merged in place with the balance-sheet and earning-calendar records of
    the same date; every ticker gets, per rank date, the position of its
    first report to count back from; the factor inputs of every ticker and
    rank date are selected; and the ranked data are cut at a first date. */
module Processors {
  import opened Wrappers
  import opened Seqs
  import opened Calendar
  import opened Json
  import Symbols
  import Financials
  import Scorings
  import Membership

  // ---------------------------------------------------------------------
  // Merging statements

  /** A statement record, shared between the input and the merged output:
      `dict.update` changes it in place. */
  class Report {
    var fields: Record

    constructor(fields: Record)
      ensures this.fields == fields
    {
      this.fields := fields;
    }

    /** `dict.update`: the other record's fields are added, overwriting. */
    method Update(other: Record)
      modifies this
      ensures fields == old(fields) + other
    {
      fields := fields + other;
    }
  }

  /** The records of one symbol, each tagged with the symbol. */
  function Tagged(update: (string, seq<Record>)): (r: seq<(string, Record)>)
    ensures |r| == |update.1| && forall j :: 0 <= j < |r| ==> r[j] == (update.0, update.1[j])
  {
    seq(|update.1|, j requires 0 <= j < |update.1| => (update.0, update.1[j]))
  }

  /** All update records in iteration order, with their symbols. */
  function Flatten(updates: seq<(string, seq<Record>)>): seq<(string, Record)> {
    if |updates| == 0 then []
    else Flatten(updates[..|updates| - 1]) + Tagged(updates[|updates| - 1])
  }

  /** One update of a report: merged when the field the merge is keyed on
      agrees. */
  function Step(fields: Record, update: Record, key: string): Record {
    if Get(fields, key) == Get(update, key) then fields + update else fields
  }

  /** A report of `symbol` after the updates, in order, each compared with
      the report as it stands at that moment. */
  function Absorb(fields: Record, symbol: string, updates: seq<(string, Record)>, key: string): Record {
    if |updates| == 0 then fields
    else
      var n := |updates| - 1;
      var g := Absorb(fields, symbol, updates[..n], key);
      if updates[n].0 == symbol then Step(g, updates[n].1, key) else g
  }

  /** A merge never changes the field it is keyed on. */
  lemma StepKeepsKey(fields: Record, update: Record, key: string)
    ensures Get(Step(fields, update, key), key) == Get(fields, key)
  {
  }

  lemma {:induction false} AbsorbKeepsKey(fields: Record, symbol: string, updates: seq<(string, Record)>, key: string)
    ensures Get(Absorb(fields, symbol, updates, key), key) == Get(fields, key)
  {
    if |updates| > 0 {
      var n := |updates| - 1;
      AbsorbKeepsKey(fields, symbol, updates[..n], key);
      StepKeepsKey(Absorb(fields, symbol, updates[..n], key), updates[n].1, key);
    }
  }

  /** The report with every update of its symbol that agrees with it on
      the key field added, in order. */
  function MatchesAdded(fields: Record, symbol: string, updates: seq<(string, Record)>, key: string): Record {
    if |updates| == 0 then fields
    else
      var n := |updates| - 1;
      var g := MatchesAdded(fields, symbol, updates[..n], key);
      if updates[n].0 == symbol && Get(updates[n].1, key) == Get(fields, key) then g + updates[n].1 else g
  }

  /** Since the key field never changes, comparing with the report as it
      stands is comparing with the original report: the merged report is the
      original with exactly its matching updates added, later ones winning. */
  lemma {:induction false} AbsorbIsMatchesAdded(fields: Record, symbol: string, updates: seq<(string, Record)>, key: string)
    ensures Absorb(fields, symbol, updates, key) == MatchesAdded(fields, symbol, updates, key)
  {
    if |updates| > 0 {
      var n := |updates| - 1;
      AbsorbIsMatchesAdded(fields, symbol, updates[..n], key);
      AbsorbKeepsKey(fields, symbol, updates[..n], key);
    }
  }

  /** A report none of whose updates matches stays as it was. */
  lemma {:induction false} UnmatchedUnchanged(fields: Record, symbol: string, updates: seq<(string, Record)>, key: string)
    requires forall j :: 0 <= j < |updates| && updates[j].0 == symbol ==> Get(updates[j].1, key) != Get(fields, key)
    ensures Absorb(fields, symbol, updates, key) == fields
  {
    AbsorbIsMatchesAdded(fields, symbol, updates, key);
    MatchesNone(fields, symbol, updates, key);
  }

  lemma {:induction false} MatchesNone(fields: Record, symbol: string, updates: seq<(string, Record)>, key: string)
    requires forall j :: 0 <= j < |updates| && updates[j].0 == symbol ==> Get(updates[j].1, key) != Get(fields, key)
    ensures MatchesAdded(fields, symbol, updates, key) == fields
  {
    if |updates| > 0 {
      var n := |updates| - 1;
      assert forall j :: 0 <= j < n ==> updates[..n][j] == updates[j];
      MatchesNone(fields, symbol, updates[..n], key);
    }
  }

  /** A merged report keeps every field it had unless a matching update
      overwrites it, and gains the fields of its matching updates. */
  lemma {:induction false} MatchesAddedFields(fields: Record, symbol: string, updates: seq<(string, Record)>, key: string)
    ensures fields.Keys <= MatchesAdded(fields, symbol, updates, key).Keys
    ensures forall j :: 0 <= j < |updates| && updates[j].0 == symbol && Get(updates[j].1, key) == Get(fields, key) ==>
      updates[j].1.Keys <= MatchesAdded(fields, symbol, updates, key).Keys
  {
    if |updates| > 0 {
      var n := |updates| - 1;
      MatchesAddedFields(fields, symbol, updates[..n], key);
      assert forall j :: 0 <= j < n ==> updates[..n][j] == updates[j];
    }
  }

  /** No report object occurs twice in the data. */
  predicate DistinctReports(data: map<string, seq<Report>>) {
    forall s1, s2, i, j :: s1 in data && s2 in data && 0 <= i < |data[s1]| && 0 <= j < |data[s2]| && (s1 != s2 || i != j) ==>
      data[s1][i] != data[s2][j]
  }

  function ReportsOf(data: map<string, seq<Report>>): set<Report> {
    set s, i | s in data && 0 <= i < |data[s]| :: data[s][i]
  }

  /** `for is_data in symbols_data[symbol]: if ...: is_data.update(data)`. */
  method AbsorbInto(reports: seq<Report>, update: Record, key: string)
    requires forall i, j :: 0 <= i < j < |reports| ==> reports[i] != reports[j]
    modifies set i | 0 <= i < |reports| :: reports[i]
    ensures forall i :: 0 <= i < |reports| ==> reports[i].fields == Step(old(reports[i].fields), update, key)
  {
    var i := 0;
    while i < |reports|
      invariant 0 <= i <= |reports|
      invariant forall k :: 0 <= k < i ==> reports[k].fields == Step(old(reports[k].fields), update, key)
      invariant forall k :: i <= k < |reports| ==> reports[k].fields == old(reports[k].fields)
    {
      if Get(reports[i].fields, key) == Get(update, key) {
        reports[i].Update(update);
      }
      i := i + 1;
    }
  }

  lemma FlattenSnoc(updates: seq<(string, seq<Record>)>, k: nat, j: nat)
    requires k < |updates| && j < |updates[k].1|
    ensures Flatten(updates[..k]) + Tagged(updates[k])[..j + 1]
      == (Flatten(updates[..k]) + Tagged(updates[k])[..j]) + [(updates[k].0, updates[k].1[j])]
  {
    assert Tagged(updates[k])[..j + 1] == Tagged(updates[k])[..j] + [(updates[k].0, updates[k].1[j])];
  }

  lemma FlattenNext(updates: seq<(string, seq<Record>)>, k: nat)
    requires k < |updates|
    ensures Flatten(updates[..k + 1]) == Flatten(updates[..k]) + Tagged(updates[k])[..|updates[k].1|]
  {
    assert updates[..k + 1][..k] == updates[..k];
    assert Tagged(updates[k])[..|updates[k].1|] == Tagged(updates[k]);
  }

  lemma AbsorbSnoc(fields: Record, symbol: string, prefix: seq<(string, Record)>, u: (string, Record), key: string)
    ensures Absorb(fields, symbol, prefix + [u], key)
      == if u.0 == symbol then Step(Absorb(fields, symbol, prefix, key), u.1, key) else Absorb(fields, symbol, prefix, key)
  {
    assert (prefix + [u])[..|prefix|] == prefix;
  }

  /** The loop shared by both merges: every update record is merged into
      the records of its symbol that agree on the key field; a symbol
      without records is passed over. The result is the input dictionary
      itself, whose records have changed. */
  method MergeOn(data: map<string, seq<Report>>, updates: seq<(string, seq<Record>)>, key: string)
    returns (merged: map<string, seq<Report>>)
    requires DistinctReports(data)
    modifies ReportsOf(data)
    ensures merged == data
    ensures forall s, i :: s in data && 0 <= i < |data[s]| ==>
      data[s][i].fields == Absorb(old(data[s][i].fields), s, Flatten(updates), key)
  {
    merged := data;
    var k := 0;
    while k < |updates|
      invariant 0 <= k <= |updates|
      invariant forall s, i :: s in data && 0 <= i < |data[s]| ==>
        data[s][i].fields == Absorb(old(data[s][i].fields), s, Flatten(updates[..k]), key)
    {
      var symbol := updates[k].0;
      var records := updates[k].1;
      var j := 0;
      assert Flatten(updates[..k]) + Tagged(updates[k])[..0] == Flatten(updates[..k]);
      while j < |records|
        invariant 0 <= j <= |records|
        invariant forall s, i :: s in data && 0 <= i < |data[s]| ==>
          data[s][i].fields == Absorb(old(data[s][i].fields), s, Flatten(updates[..k]) + Tagged(updates[k])[..j], key)
      {
        FlattenSnoc(updates, k, j);
        ghost var before := Flatten(updates[..k]) + Tagged(updates[k])[..j];
        forall s, i | s in data && 0 <= i < |data[s]|
          ensures Absorb(old(data[s][i].fields), s, before + [(symbol, records[j])], key)
            == if symbol == s then Step(Absorb(old(data[s][i].fields), s, before, key), records[j], key)
               else Absorb(old(data[s][i].fields), s, before, key)
        {
          AbsorbSnoc(old(data[s][i].fields), s, before, (symbol, records[j]), key);
        }
        if symbol in data {
          AbsorbInto(data[symbol], records[j], key);
        }
        j := j + 1;
      }
      FlattenNext(updates, k);
      k := k + 1;
    }
    assert updates[..k] == updates;
  }

  /** The first balance-sheet entry whose symbol has no income data while
      it holds records, |balance| when there is none. */
  function FirstMissing(balance: seq<(string, seq<Record>)>, symbols: set<string>): (k: nat)
    ensures k <= |balance|
    ensures k < |balance| ==> balance[k].0 !in symbols && |balance[k].1| > 0
    ensures forall j :: 0 <= j < k ==> balance[j].0 in symbols || |balance[j].1| == 0
  {
    if |balance| == 0 then 0
    else if balance[0].0 !in symbols && |balance[0].1| > 0 then 0
    else 1 + FirstMissing(balance[1..], symbols)
  }

  /** `merge_financial_data`: income records take the fields of the
      balance-sheet records of the same symbol and filing date. A balance
      sheet with records for a symbol without income data raises a
      `KeyError` (the error carries the symbol), after the entries before
      it have been merged. */
  method MergeFinancialData(income: map<string, seq<Report>>, balance: seq<(string, seq<Record>)>)
    returns (merged: Result<map<string, seq<Report>>, string>)
    requires DistinctReports(income)
    modifies ReportsOf(income)
    ensures merged.Ok? <==> forall k :: 0 <= k < |balance| && |balance[k].1| > 0 ==> balance[k].0 in income
    ensures merged.Ok? ==> merged.value == income
    ensures merged.Err? ==> merged.error !in income
    ensures merged.Err? ==> exists k :: 0 <= k < |balance| && balance[k].0 == merged.error && |balance[k].1| > 0
    ensures forall s, i :: s in income && 0 <= i < |income[s]| ==>
      income[s][i].fields == Absorb(old(income[s][i].fields), s, Flatten(balance[..FirstMissing(balance, income.Keys)]), "date")
  {
    var f := FirstMissing(balance, income.Keys);
    var data := MergeOn(income, balance[..f], "date");
    if f < |balance| {
      merged := Err(balance[f].0);
    } else {
      assert balance[..f] == balance;
      merged := Ok(data);
    }
  }

  /** `merge_earning_calendars`: the same on the period end, passing over
      symbols without financial data. */
  method MergeEarningCalendars(financial: map<string, seq<Report>>, calendars: seq<(string, seq<Record>)>)
    returns (merged: map<string, seq<Report>>)
    requires DistinctReports(financial)
    modifies ReportsOf(financial)
    ensures merged == financial
    ensures forall s, i :: s in financial && 0 <= i < |financial[s]| ==>
      financial[s][i].fields == Absorb(old(financial[s][i].fields), s, Flatten(calendars), "end")
  {
    merged := MergeOn(financial, calendars, "end");
  }

  // ---------------------------------------------------------------------
  // Starting positions

  /** The last Friday on or before a day. */
  function FridayOnOrBefore(d: Date): (f: Date)
    ensures Weekday(f) == Friday && f <= d < f + 7
  {
    var q := (d + 5) / 7;
    assert d + 5 == 7 * q + Weekday(d);
    d - (Weekday(d) + 3) % 7
  }

  /** `interval_range(end=rank_date, periods=1, freq=...)`: from the
      previous anchor (excluded) to the last anchor on or before the rank
      date, an anchor being a month end or a Friday. */
  function ReportInterval(freq: Membership.Frequency, rankDate: Date): (iv: Symbols.Interval)
    ensures iv.right <= rankDate
    ensures freq.Monthly? ==> iv.right == MonthEnd(Scorings.MonthEndOnOrBefore(rankDate))
    ensures freq.Monthly? ==> iv.left == MonthEnd(Scorings.MonthEndOnOrBefore(rankDate) - 1)
    ensures freq.Weekly? ==> Weekday(iv.right) == Friday && rankDate < iv.right + 7 && iv.left == iv.right - 7
  {
    match freq
    case Monthly =>
      var k := Scorings.MonthEndOnOrBefore(rankDate);
      Symbols.Interval(MonthEnd(k - 1), MonthEnd(k))
    case Weekly =>
      var f := FridayOnOrBefore(rankDate);
      Symbols.Interval(f - 7, f)
  }

  /** Whether some report is dated in the interval; a report without a
      date is in none. */
  predicate HeldIn(reportDates: seq<Option<Date>>, iv: Symbols.Interval) {
    exists k :: 0 <= k < |reportDates| && reportDates[k].Some? && iv.Contains(reportDates[k].value)
  }

  /** How many of the first n rank dates had a report in their interval. */
  function ReportCount(reportDates: seq<Option<Date>>, rankDates: seq<Date>, freq: Membership.Frequency, n: nat): (c: nat)
    requires n <= |rankDates|
    ensures c <= n
  {
    if n == 0 then 0
    else ReportCount(reportDates, rankDates, freq, n - 1) + (if HeldIn(reportDates, ReportInterval(freq, rankDates[n - 1])) then 1 else 0)
  }

  /** The position of every rank date, in order. */
  function Positions(reportDates: seq<Option<Date>>, rankDates: seq<Date>, freq: Membership.Frequency): (r: seq<nat>)
    ensures |r| == |rankDates| && forall i :: 0 <= i < |r| ==> r[i] == ReportCount(reportDates, rankDates, freq, i)
  {
    seq(|rankDates|, i requires 0 <= i < |rankDates| => ReportCount(reportDates, rankDates, freq, i))
  }

  /** The positions of one ticker: each rank date gets the count so far,
      and then the count grows when the date's interval holds a report. A
      repeated rank date keeps its last position. */
  method PositionsFor(reportDates: seq<Option<Date>>, rankDates: seq<Date>, freq: Membership.Frequency)
    returns (positions: map<Date, nat>)
    ensures positions == Symbols.KeyedBy(rankDates, Positions(reportDates, rankDates, freq))
  {
    positions := map[];
    var count := 0;
    var i := 0;
    while i < |rankDates|
      invariant 0 <= i <= |rankDates|
      invariant count == ReportCount(reportDates, rankDates, freq, i)
      invariant positions == Symbols.KeyedBy(rankDates[..i], Positions(reportDates, rankDates, freq)[..i])
    {
      var interval := ReportInterval(freq, rankDates[i]);
      ghost var values := Positions(reportDates, rankDates, freq);
      assert rankDates[..i + 1][..i] == rankDates[..i];
      assert values[..i + 1][..i] == values[..i];
      positions := positions[rankDates[i] := count];
      if HeldIn(reportDates, interval) {
        count := count + 1;
      }
      i := i + 1;
    }
    assert rankDates[..i] == rankDates;
    assert Positions(reportDates, rankDates, freq)[..i] == Positions(reportDates, rankDates, freq);
  }

  /** `create_starting_positions`: every ticker is a key; a ticker without
      financial data has no positions. The report dates of each ticker are
      given already parsed. */
  method CreateStartingPositions(tickers: seq<string>, financial: map<string, seq<Option<Date>>>,
                                 rankDates: seq<Date>, freq: Membership.Frequency)
    returns (r: map<string, map<Date, nat>>)
    ensures r.Keys == Elems(tickers)
    ensures forall t :: t in r ==>
      r[t] == if t in financial then Symbols.KeyedBy(rankDates, Positions(financial[t], rankDates, freq)) else map[]
  {
    r := map[];
    var i := 0;
    while i < |tickers|
      invariant 0 <= i <= |tickers|
      invariant r.Keys == Elems(tickers[..i])
      invariant forall t :: t in r ==>
        r[t] == if t in financial then Symbols.KeyedBy(rankDates, Positions(financial[t], rankDates, freq)) else map[]
    {
      var ticker := tickers[i];
      var positions: map<Date, nat> := map[];
      if ticker in financial {
        positions := PositionsFor(financial[ticker], rankDates, freq);
      }
      r := r[ticker := positions];
      assert tickers[..i + 1] == tickers[..i] + [ticker];
      i := i + 1;
    }
    assert tickers[..i] == tickers;
  }

  /** Positions start at 0. */
  lemma PositionsStartAtZero(reportDates: seq<Option<Date>>, rankDates: seq<Date>, freq: Membership.Frequency)
    requires |rankDates| > 0
    ensures Positions(reportDates, rankDates, freq)[0] == 0
  {
  }

  /** From one rank date to the next, the position grows by one exactly
      when the earlier date's interval held a report, and otherwise stays. */
  lemma PositionsStep(reportDates: seq<Option<Date>>, rankDates: seq<Date>, freq: Membership.Frequency, i: nat)
    requires i + 1 < |rankDates|
    ensures Positions(reportDates, rankDates, freq)[i + 1] == Positions(reportDates, rankDates, freq)[i]
      + (if HeldIn(reportDates, ReportInterval(freq, rankDates[i])) then 1 else 0)
  {
  }

  /** Positions never decrease. */
  lemma PositionsMonotone(reportDates: seq<Option<Date>>, rankDates: seq<Date>, freq: Membership.Frequency, i: nat, j: nat)
    requires i <= j < |rankDates|
    ensures Positions(reportDates, rankDates, freq)[i] <= Positions(reportDates, rankDates, freq)[j]
  {
    ReportCountMonotone(reportDates, rankDates, freq, i, j);
  }

  lemma {:induction false} ReportCountMonotone(reportDates: seq<Option<Date>>, rankDates: seq<Date>, freq: Membership.Frequency, i: nat, j: nat)
    requires i <= j <= |rankDates|
    ensures ReportCount(reportDates, rankDates, freq, i) <= ReportCount(reportDates, rankDates, freq, j)
    decreases j - i
  {
    if i < j {
      ReportCountMonotone(reportDates, rankDates, freq, i, j - 1);
    }
  }

  /** The position stored under a rank date that occurs once more, no
      later: its count of earlier dates with a report. */
  lemma PositionOfLastOccurrence(reportDates: seq<Option<Date>>, rankDates: seq<Date>, freq: Membership.Frequency, i: nat)
    requires i < |rankDates|
    requires forall j :: i < j < |rankDates| ==> rankDates[j] != rankDates[i]
    ensures rankDates[i] in Symbols.KeyedBy(rankDates, Positions(reportDates, rankDates, freq))
    ensures Symbols.KeyedBy(rankDates, Positions(reportDates, rankDates, freq))[rankDates[i]] == ReportCount(reportDates, rankDates, freq, i)
  {
    Symbols.KeyedByLast(rankDates, Positions(reportDates, rankDates, freq), i);
  }

  // ---------------------------------------------------------------------
  // Cutting the ranked data

  /** `limit_ranked_data_from_start_date`: the entries in order up to and
      including the first one under the given key; all of them when no
      entry has it. */
  method LimitFromStartDate<K(==), V>(ranked: seq<(K, V)>, first: Option<K>) returns (r: seq<(K, V)>)
    ensures |r| <= |ranked| && r == ranked[..|r|]
    ensures (exists k :: 0 <= k < |ranked| && Some(ranked[k].0) == first) ==>
      |r| > 0 && Some(r[|r| - 1].0) == first && forall k :: 0 <= k < |r| - 1 ==> Some(r[k].0) != first
    ensures (forall k :: 0 <= k < |ranked| ==> Some(ranked[k].0) != first) ==> r == ranked
  {
    r := [];
    var i := 0;
    while i < |ranked|
      invariant 0 <= i <= |ranked| && r == ranked[..i]
      invariant forall k :: 0 <= k < i ==> Some(ranked[k].0) != first
    {
      r := r + [ranked[i]];
      if Some(ranked[i].0) == first {
        assert r == ranked[..i + 1];
        return;
      }
      i := i + 1;
    }
    assert ranked[..i] == ranked;
  }

  // ---------------------------------------------------------------------
  // Factor inputs

  /** The factor inputs of one ticker at one rank date; the growth
      accelerations are not part of this model. */
  datatype Factors = Factors(epsGrowth: Option<real>, meanSalesGrowth: Option<real>, lq0: Option<real>, lq1: Option<real>)

  /** A JSON number as a reading; anything else is NaN. */
  function Reading(v: Value): Option<real> {
    if v.Number? then Some(v.number) else None
  }

  /** `x.get('eps') if x.get('eps') else x.get('eps_dill')`: a missing or
      zero EPS falls back to the diluted EPS. */
  function EpsOf(report: Record): (v: Value)
    ensures Truthy(Get(report, "eps")) ==> v == report["eps"]
    ensures !Truthy(Get(report, "eps")) ==> v == Get(report, "eps_dill")
  {
    if Truthy(Get(report, "eps")) then Get(report, "eps") else Get(report, "eps_dill")
  }

  /** `reports[start:start + 16][::-1]`: up to 16 reports from the position
      on, which run from the latest back, turned into chronological order. */
  function ReportWindow(reports: seq<Record>, start: nat): (w: seq<Record>)
    ensures |w| == (if start >= |reports| then 0 else if |reports| - start < 16 then |reports| - start else 16)
    ensures forall k :: 0 <= k < |w| ==> w[k] == reports[start + |w| - 1 - k]
  {
    var lo := if start < |reports| then start else |reports|;
    var hi := if start + 16 < |reports| then start + 16 else |reports|;
    var slice := reports[lo..hi];
    seq(|slice|, k requires 0 <= k < |slice| => slice[|slice| - 1 - k])
  }

  function EpsSeries(window: seq<Record>): (r: seq<Option<real>>)
    ensures |r| == |window| && forall k :: 0 <= k < |r| ==> r[k] == Reading(EpsOf(window[k]))
  {
    seq(|window|, k requires 0 <= k < |window| => Reading(EpsOf(window[k])))
  }

  function SalesSeries(window: seq<Record>): (r: seq<Option<real>>)
    ensures |r| == |window| && forall k :: 0 <= k < |r| ==> r[k] == Reading(Get(window[k], "revenue"))
  {
    seq(|window|, k requires 0 <= k < |window| => Reading(Get(window[k], "revenue")))
  }

  /** The factors of a report window and a close-price table. */
  function FactorsOf(window: seq<Record>, closes: map<Date, Option<real>>, rankDate: Date): Factors {
    Factors(
      Scorings.EpsGrowth(EpsSeries(window)),
      Scorings.MeanSalesGrowth(Scorings.YoyGrowth(SalesSeries(window), 2)),
      Scorings.PeriodPricePerformance(closes, rankDate, 0),
      Scorings.PeriodPricePerformance(closes, rankDate, 1))
  }

  /** Whether a ticker is scored: it needs prices and a non-empty position
      map (`if ticker_prices and positions.get(ticker)`). */
  predicate Scored(ticker: string, prices: map<string, map<Date, Option<real>>>, positions: map<string, map<Date, nat>>) {
    ticker in prices && |prices[ticker]| > 0 && ticker in positions && |positions[ticker]| > 0
  }

  /** One ticker at one rank date: skipped, a `KeyError` (no position for
      the date, no financial data), or its factors. */
  function TickerEntry(ticker: string, rankDate: Date, prices: map<string, map<Date, Option<real>>>,
                       financial: map<string, seq<Record>>, positions: map<string, map<Date, nat>>): Financials.Entry<string, Factors>
  {
    if !Scored(ticker, prices, positions) then Financials.Skip
    else if rankDate !in positions[ticker] || ticker !in financial then Financials.Fail
    else Financials.Put(ticker, FactorsOf(ReportWindow(financial[ticker], positions[ticker][rankDate]), prices[ticker], rankDate))
  }

  function TickerEntries(tickers: seq<string>, rankDate: Date, prices: map<string, map<Date, Option<real>>>,
                         financial: map<string, seq<Record>>, positions: map<string, map<Date, nat>>): (r: seq<Financials.Entry<string, Factors>>)
    ensures |r| == |tickers| && forall j :: 0 <= j < |r| ==> r[j] == TickerEntry(tickers[j], rankDate, prices, financial, positions)
  {
    seq(|tickers|, j requires 0 <= j < |tickers| => TickerEntry(tickers[j], rankDate, prices, financial, positions))
  }

  /** The factors of the tickers of one rank date. */
  function StocksData(tickers: seq<string>, rankDate: Date, prices: map<string, map<Date, Option<real>>>,
                      financial: map<string, seq<Record>>, positions: map<string, map<Date, nat>>): Option<map<string, Factors>>
  {
    Financials.Collect(TickerEntries(tickers, rankDate, prices, financial, positions))
  }

  function PeriodEntries(periods: seq<(Date, seq<string>)>, prices: map<string, map<Date, Option<real>>>,
                         financial: map<string, seq<Record>>, positions: map<string, map<Date, nat>>): (r: seq<Financials.Entry<Date, map<string, Factors>>>)
    ensures |r| == |periods|
    ensures forall i :: 0 <= i < |r| ==> r[i] == match StocksData(periods[i].1, periods[i].0, prices, financial, positions)
      case None => Financials.Fail
      case Some(m) => Financials.Put(periods[i].0, m)
  {
    seq(|periods|, i requires 0 <= i < |periods| =>
      match StocksData(periods[i].1, periods[i].0, prices, financial, positions)
      case None => Financials.Fail
      case Some(m) => Financials.Put(periods[i].0, m))
  }

  /** The inner loop of `process_data_for_ranking`. */
  method StocksDataFor(tickers: seq<string>, rankDate: Date, prices: map<string, map<Date, Option<real>>>,
                       financial: map<string, seq<Record>>, positions: map<string, map<Date, nat>>)
    returns (r: Option<map<string, Factors>>)
    ensures r == StocksData(tickers, rankDate, prices, financial, positions)
  {
    ghost var e := TickerEntries(tickers, rankDate, prices, financial, positions);
    var stocks: map<string, Factors> := map[];
    var j := 0;
    while j < |tickers|
      invariant 0 <= j <= |tickers|
      invariant Financials.Collect(e[..j]) == Some(stocks)
    {
      Financials.CollectPrefix(e, j);
      var ticker := tickers[j];
      if Scored(ticker, prices, positions) {
        if rankDate !in positions[ticker] || ticker !in financial {
          Financials.CollectFails(e[..j + 1]);
          Financials.CollectFails(e);
          assert e[..j + 1][j].Fail?;
          return None;
        }
        var window := ReportWindow(financial[ticker], positions[ticker][rankDate]);
        stocks := stocks[ticker := FactorsOf(window, prices[ticker], rankDate)];
      }
      j := j + 1;
    }
    assert e[..j] == e;
    r := Some(stocks);
  }

  /** `process_data_for_ranking` without its technical indicators: the
      factors of every rank date's tickers; a `KeyError` anywhere is None. */
  method ProcessDataForRanking(periods: seq<(Date, seq<string>)>, prices: map<string, map<Date, Option<real>>>,
                               financial: map<string, seq<Record>>, positions: map<string, map<Date, nat>>)
    returns (r: Option<map<Date, map<string, Factors>>>)
    ensures r == Financials.Collect(PeriodEntries(periods, prices, financial, positions))
  {
    ghost var e := PeriodEntries(periods, prices, financial, positions);
    var intervals: map<Date, map<string, Factors>> := map[];
    var i := 0;
    while i < |periods|
      invariant 0 <= i <= |periods|
      invariant Financials.Collect(e[..i]) == Some(intervals)
    {
      Financials.CollectPrefix(e, i);
      var stocks := StocksDataFor(periods[i].1, periods[i].0, prices, financial, positions);
      if stocks.None? {
        Financials.CollectFails(e[..i + 1]);
        Financials.CollectFails(e);
        assert e[..i + 1][i].Fail?;
        return None;
      }
      intervals := intervals[periods[i].0 := stocks.value];
      i := i + 1;
    }
    assert e[..i] == e;
    r := Some(intervals);
  }

  /** Every rank date gets an entry, possibly empty. */
  lemma ProcessedKeys(periods: seq<(Date, seq<string>)>, prices: map<string, map<Date, Option<real>>>,
                      financial: map<string, seq<Record>>, positions: map<string, map<Date, nat>>, d: Date)
    requires Financials.Collect(PeriodEntries(periods, prices, financial, positions)).Some?
    ensures d in Financials.Collect(PeriodEntries(periods, prices, financial, positions)).value <==>
      exists i :: 0 <= i < |periods| && periods[i].0 == d
  {
    var e := PeriodEntries(periods, prices, financial, positions);
    Financials.CollectKeys(e, d);
    Financials.CollectFails(e);
    assert forall i :: 0 <= i < |periods| ==> e[i].Put? && e[i].key == periods[i].0;
  }

  /** Exactly the tickers with prices and positions are scored. */
  lemma StocksDataKeys(tickers: seq<string>, rankDate: Date, prices: map<string, map<Date, Option<real>>>,
                       financial: map<string, seq<Record>>, positions: map<string, map<Date, nat>>, t: string)
    requires StocksData(tickers, rankDate, prices, financial, positions).Some?
    ensures t in StocksData(tickers, rankDate, prices, financial, positions).value <==>
      t in tickers && Scored(t, prices, positions)
  {
    var e := TickerEntries(tickers, rankDate, prices, financial, positions);
    Financials.CollectKeys(e, t);
    if t in tickers && Scored(t, prices, positions) {
      var j :| 0 <= j < |tickers| && tickers[j] == t;
      Financials.CollectFails(e);
      assert e[j].Put?;
    }
  }

  /** A scored ticker's factors come from the reports from its position
      for the rank date on and from its close prices. */
  lemma StocksDataFactors(tickers: seq<string>, rankDate: Date, prices: map<string, map<Date, Option<real>>>,
                          financial: map<string, seq<Record>>, positions: map<string, map<Date, nat>>, t: string)
    requires StocksData(tickers, rankDate, prices, financial, positions).Some?
    requires t in StocksData(tickers, rankDate, prices, financial, positions).value
    ensures Scored(t, prices, positions) && rankDate in positions[t] && t in financial
    ensures StocksData(tickers, rankDate, prices, financial, positions).value[t]
      == FactorsOf(ReportWindow(financial[t], positions[t][rankDate]), prices[t], rankDate)
  {
    var e := TickerEntries(tickers, rankDate, prices, financial, positions);
    Financials.CollectKeys(e, t);
    Financials.CollectFails(e);
    var j :| 0 <= j < |e| && e[j].Put? && e[j].key == t;
    var last := LastPut(e, j, t);
    Financials.CollectLast(e, last);
  }

  /** The last item writing a key. */
  lemma LastPut<K, V>(e: seq<Financials.Entry<K, V>>, j: nat, t: K) returns (last: nat)
    requires j < |e| && e[j].Put? && e[j].key == t
    ensures last < |e| && e[last].Put? && e[last].key == t
    ensures forall i :: last < i < |e| && e[i].Put? ==> e[i].key != e[last].key
    decreases |e| - j
  {
    if exists i :: j < i < |e| && e[i].Put? && e[i].key == t {
      var i :| j < i < |e| && e[i].Put? && e[i].key == t;
      last := LastPut(e, i, t);
    } else {
      last := j;
    }
  }
}
