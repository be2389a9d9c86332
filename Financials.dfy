/** Cleaning the raw financial feeds: every non-empty statement list is
    keyed by the upper-cased symbol of its first record and its records are
    projected onto renamed fields; price feeds are keyed by the normalised
    symbol and their quotes by date. A statement whose symbol cannot be
    read (missing key, not a string) stops the whole cleaning, as the
    exception does; the result is then None. */
module Financials {
  import opened Wrappers
  import opened Seqs
  import opened Strings
  import opened Json

  // ---------------------------------------------------------------------
  // Filling a dictionary in order

  /** What one input item does to the dictionary being filled: nothing (an
      empty item), stop with an exception, or write a value under a key. */
  datatype Entry<K, V> = Skip | Fail | Put(key: K, value: V)

  /** The dictionary the items fill, in order, a later key overwriting an
      earlier one; None when an item fails. */
  function Collect<K, V>(e: seq<Entry<K, V>>): Option<map<K, V>>
  {
    if |e| == 0 then Some(map[])
    else
      match Collect(e[..|e| - 1])
      case None => None
      case Some(m) =>
        match e[|e| - 1]
        case Skip => Some(m)
        case Fail => None
        case Put(k, v) => Some(m[k := v])
  }

  /** The filling stops exactly when some item fails. */
  lemma {:induction false} CollectFails<K, V>(e: seq<Entry<K, V>>)
    ensures Collect(e).None? <==> exists i :: 0 <= i < |e| && e[i].Fail?
  {
    if |e| > 0 {
      var n := |e| - 1;
      CollectFails(e[..n]);
      if exists i :: 0 <= i < n && e[..n][i].Fail? {
        var i :| 0 <= i < n && e[..n][i].Fail?;
        assert e[i].Fail?;
      }
      if exists i :: 0 <= i < |e| && e[i].Fail? {
        var i :| 0 <= i < |e| && e[i].Fail?;
        if i < n {
          assert e[..n][i].Fail?;
        }
      }
    }
  }

  /** The keys are those some item writes. */
  lemma {:induction false} CollectKeys<K, V>(e: seq<Entry<K, V>>, k: K)
    requires Collect(e).Some?
    ensures k in Collect(e).value <==> exists i :: 0 <= i < |e| && e[i].Put? && e[i].key == k
  {
    if |e| > 0 {
      var n := |e| - 1;
      CollectKeys(e[..n], k);
      if exists i :: 0 <= i < n && e[..n][i].Put? && e[..n][i].key == k {
        var i :| 0 <= i < n && e[..n][i].Put? && e[..n][i].key == k;
        assert e[i].Put? && e[i].key == k;
      }
      if exists i :: 0 <= i < |e| && e[i].Put? && e[i].key == k {
        var i :| 0 <= i < |e| && e[i].Put? && e[i].key == k;
        if i < n {
          assert e[..n][i].Put? && e[..n][i].key == k;
        }
      }
    }
  }

  /** Under each key is the value of the last item writing it. */
  lemma {:induction false} CollectLast<K, V>(e: seq<Entry<K, V>>, i: nat)
    requires Collect(e).Some? && i < |e| && e[i].Put?
    requires forall j :: i < j < |e| && e[j].Put? ==> e[j].key != e[i].key
    ensures e[i].key in Collect(e).value && Collect(e).value[e[i].key] == e[i].value
  {
    var n := |e| - 1;
    if i < n {
      assert Collect(e[..n]).Some?;
      assert forall j :: i < j < n && e[..n][j].Put? ==> e[..n][j].key != e[..n][i].key;
      CollectLast(e[..n], i);
    }
  }

  lemma CollectPrefix<K, V>(e: seq<Entry<K, V>>, n: nat)
    requires n < |e|
    ensures Collect(e[..n + 1]) == match Collect(e[..n])
      case None => None
      case Some(m) => (match e[n] case Skip => Some(m) case Fail => None case Put(k, v) => Some(m[k := v]))
  {
    assert e[..n + 1][..n] == e[..n];
  }

  // ---------------------------------------------------------------------
  // Statements

  /** Output field names and the input field each one reads. */
  type Fields = seq<(string, string)>

  /** `clean_income_statements_data`. */
  const IncomeFields: Fields := [("cik", "cik"), ("date", "fillingDate"), ("eps_dill", "epsdiluted"), ("revenue", "revenue"), ("end", "date")]

  /** `clean_balance_sheets_data`. */
  const BalanceFields: Fields := [("date", "fillingDate"), ("sh_equity", "totalStockholdersEquity")]

  /** `clean_earning_calendar_data`. */
  const CalendarFields: Fields := [("eps", "eps"), ("end", "fiscalDateEnding")]

  /** `{out: data.get(in), ...}` in field order. */
  function Project(data: Record, fields: Fields): (r: Record)
    ensures r.Keys == set i | 0 <= i < |fields| :: fields[i].0
  {
    if |fields| == 0 then map[]
    else
      var n := |fields| - 1;
      var m := Project(data, fields[..n]);
      assert forall i :: 0 <= i < n ==> fields[..n][i] == fields[i];
      m[fields[n].0 := Get(data, fields[n].1)]
  }

  /** With distinct output names, each output field holds the input field
      it renames, `None` when that is absent. */
  lemma {:induction false} ProjectReads(data: Record, fields: Fields, i: nat)
    requires i < |fields|
    requires forall a, b :: 0 <= a < b < |fields| ==> fields[a].0 != fields[b].0
    ensures Project(data, fields)[fields[i].0] == Get(data, fields[i].1)
  {
    var n := |fields| - 1;
    if i < n {
      ProjectReads(data, fields[..n], i);
    }
  }

  lemma IncomeRenaming(data: Record)
    ensures Project(data, IncomeFields).Keys == {"cik", "date", "eps_dill", "revenue", "end"}
    ensures Project(data, IncomeFields)["cik"] == Get(data, "cik")
    ensures Project(data, IncomeFields)["date"] == Get(data, "fillingDate")
    ensures Project(data, IncomeFields)["eps_dill"] == Get(data, "epsdiluted")
    ensures Project(data, IncomeFields)["revenue"] == Get(data, "revenue")
    ensures Project(data, IncomeFields)["end"] == Get(data, "date")
  {
    var f := IncomeFields;
    assert (set i | 0 <= i < |f| :: f[i].0) == {"cik", "date", "eps_dill", "revenue", "end"} by {
      assert f[0].0 == "cik" && f[1].0 == "date" && f[2].0 == "eps_dill" && f[3].0 == "revenue" && f[4].0 == "end";
    }
    forall i | 0 <= i < |f| ensures Project(data, f)[f[i].0] == Get(data, f[i].1) {
      ProjectReads(data, f, i);
    }
    assert f[0] == ("cik", "cik") && f[1] == ("date", "fillingDate") && f[2] == ("eps_dill", "epsdiluted");
    assert f[3] == ("revenue", "revenue") && f[4] == ("end", "date");
  }

  lemma BalanceRenaming(data: Record)
    ensures Project(data, BalanceFields).Keys == {"date", "sh_equity"}
    ensures Project(data, BalanceFields)["date"] == Get(data, "fillingDate")
    ensures Project(data, BalanceFields)["sh_equity"] == Get(data, "totalStockholdersEquity")
  {
    var f := BalanceFields;
    assert (set i | 0 <= i < |f| :: f[i].0) == {"date", "sh_equity"} by {
      assert f[0].0 == "date" && f[1].0 == "sh_equity";
    }
    ProjectReads(data, f, 0);
    ProjectReads(data, f, 1);
  }

  lemma CalendarRenaming(data: Record)
    ensures Project(data, CalendarFields).Keys == {"eps", "end"}
    ensures Project(data, CalendarFields)["eps"] == Get(data, "eps")
    ensures Project(data, CalendarFields)["end"] == Get(data, "fiscalDateEnding")
  {
    var f := CalendarFields;
    assert (set i | 0 <= i < |f| :: f[i].0) == {"eps", "end"} by {
      assert f[0].0 == "eps" && f[1].0 == "end";
    }
    ProjectReads(data, f, 0);
    ProjectReads(data, f, 1);
  }

  /** Every record of a statement projected, in order. */
  function ProjectAll(statement: seq<Record>, fields: Fields): (r: seq<Record>)
    ensures |r| == |statement| && forall j :: 0 <= j < |r| ==> r[j] == Project(statement[j], fields)
  {
    seq(|statement|, j requires 0 <= j < |statement| => Project(statement[j], fields))
  }

  /** `record['symbol'].upper()`: fails on a missing key (`KeyError`) and on
      a value that is not a string. */
  function SymbolKey(first: Record): (r: Option<string>)
    ensures r.None? <==> "symbol" !in first || !first["symbol"].Text?
  {
    if "symbol" in first && first["symbol"].Text? then Some(Upper(first["symbol"].text)) else None
  }

  /** What one statement writes: nothing when empty. */
  function StatementEntry(statement: seq<Record>, fields: Fields): Entry<string, seq<Record>>
  {
    if |statement| == 0 then Skip
    else
      match SymbolKey(statement[0])
      case None => Fail
      case Some(k) => Put(k, ProjectAll(statement, fields))
  }

  function StatementEntries(raw: seq<seq<Record>>, fields: Fields): (r: seq<Entry<string, seq<Record>>>)
    ensures |r| == |raw| && forall i :: 0 <= i < |raw| ==> r[i] == StatementEntry(raw[i], fields)
  {
    seq(|raw|, i requires 0 <= i < |raw| => StatementEntry(raw[i], fields))
  }

  /** The cleaned statements, keyed by symbol. */
  function Cleaned(raw: seq<seq<Record>>, fields: Fields): Option<map<string, seq<Record>>> {
    Collect(StatementEntries(raw, fields))
  }

  /** The loop shared by the three statement cleaners. */
  method CleanStatements(raw: seq<seq<Record>>, fields: Fields) returns (r: Option<map<string, seq<Record>>>)
    ensures r == Cleaned(raw, fields)
  {
    ghost var e := StatementEntries(raw, fields);
    var output: map<string, seq<Record>> := map[];
    var i := 0;
    while i < |raw|
      invariant 0 <= i <= |raw|
      invariant Collect(e[..i]) == Some(output)
    {
      CollectPrefix(e, i);
      var statement := raw[i];
      if |statement| > 0 {
        var key := SymbolKey(statement[0]);
        if key.None? {
          CollectFails(e[..i + 1]);
          CollectFails(e);
          assert e[..i + 1][i].Fail?;
          return None;
        }
        output := output[key.value := ProjectAll(statement, fields)];
      }
      i := i + 1;
    }
    assert e[..i] == e;
    r := Some(output);
  }

  method CleanIncomeStatements(raw: seq<seq<Record>>) returns (r: Option<map<string, seq<Record>>>)
    ensures r == Cleaned(raw, IncomeFields)
  {
    r := CleanStatements(raw, IncomeFields);
  }

  method CleanBalanceSheets(raw: seq<seq<Record>>) returns (r: Option<map<string, seq<Record>>>)
    ensures r == Cleaned(raw, BalanceFields)
  {
    r := CleanStatements(raw, BalanceFields);
  }

  method CleanEarningCalendar(raw: seq<seq<Record>>) returns (r: Option<map<string, seq<Record>>>)
    ensures r == Cleaned(raw, CalendarFields)
  {
    r := CleanStatements(raw, CalendarFields);
  }

  /** The cleaning fails exactly when a non-empty statement's first record
      has no string symbol. */
  lemma CleanedFails(raw: seq<seq<Record>>, fields: Fields)
    ensures Cleaned(raw, fields).None? <==>
      exists i :: 0 <= i < |raw| && |raw[i]| > 0 && SymbolKey(raw[i][0]).None?
  {
    var e := StatementEntries(raw, fields);
    CollectFails(e);
    assert forall i :: 0 <= i < |raw| ==> (e[i].Fail? <==> |raw[i]| > 0 && SymbolKey(raw[i][0]).None?);
  }

  /** A symbol is a key exactly when some non-empty statement starts with
      it: empty statements are skipped. */
  lemma CleanedKeys(raw: seq<seq<Record>>, fields: Fields, k: string)
    requires Cleaned(raw, fields).Some?
    ensures k in Cleaned(raw, fields).value <==>
      exists i :: 0 <= i < |raw| && |raw[i]| > 0 && SymbolKey(raw[i][0]) == Some(k)
  {
    var e := StatementEntries(raw, fields);
    CollectKeys(e, k);
    assert forall i :: 0 <= i < |raw| ==> (e[i].Put? && e[i].key == k <==> |raw[i]| > 0 && SymbolKey(raw[i][0]) == Some(k));
  }

  /** Under a symbol are the projected records of the last statement with
      that symbol, in their order. */
  lemma CleanedLast(raw: seq<seq<Record>>, fields: Fields, i: nat)
    requires Cleaned(raw, fields).Some? && i < |raw| && |raw[i]| > 0
    requires forall j :: i < j < |raw| && |raw[j]| > 0 ==> SymbolKey(raw[j][0]) != SymbolKey(raw[i][0])
    ensures SymbolKey(raw[i][0]).Some? && SymbolKey(raw[i][0]).value in Cleaned(raw, fields).value
    ensures Cleaned(raw, fields).value[SymbolKey(raw[i][0]).value] == ProjectAll(raw[i], fields)
  {
    var e := StatementEntries(raw, fields);
    CollectFails(e);
    assert !e[i].Fail?;
    CollectLast(e, i);
  }

  // ---------------------------------------------------------------------
  // Prices

  /** A raw price feed: `{}` when the ticker has none. A non-empty feed
      without a `historical` key has None there. */
  datatype Feed = Empty | Feed(symbol: Value, historical: Option<seq<Record>>)

  /** `symbol.upper().replace('.', '-')`. */
  function FeedKey(symbol: Value): (r: Option<string>)
    ensures r.None? <==> !symbol.Text?
    ensures r.Some? ==> r.value == ReplaceChar(Upper(symbol.text), '.', '-')
  {
    if symbol.Text? then Some(ReplaceChar(Upper(symbol.text), '.', '-')) else None
  }

  /** `data['date']: {'open': data['open'], 'close': data['close']}`; a
      missing key is a `KeyError`. */
  function QuoteEntry(data: Record): Entry<Value, Record>
  {
    if "date" in data && "open" in data && "close" in data
    then Put(data["date"], map["open" := data["open"], "close" := data["close"]])
    else Fail
  }

  function QuoteEntries(historical: seq<Record>): (r: seq<Entry<Value, Record>>)
    ensures |r| == |historical| && forall i :: 0 <= i < |r| ==> r[i] == QuoteEntry(historical[i])
  {
    seq(|historical|, i requires 0 <= i < |historical| => QuoteEntry(historical[i]))
  }

  /** The open and close of each date; a repeated date keeps its last quote. */
  function QuoteTable(historical: seq<Record>): Option<map<Value, Record>> {
    Collect(QuoteEntries(historical))
  }

  /** The quotes of a non-empty feed keyed by date: `raw_prices['historical']`
      is a `KeyError` when the key is absent. */
  function FeedTable(feed: Feed): Option<map<Value, Record>>
    requires feed.Feed?
  {
    match feed.historical
    case None => None
    case Some(h) => QuoteTable(h)
  }

  function FeedEntry(feed: Feed): Entry<string, map<Value, Record>>
  {
    match feed
    case Empty => Skip
    case Feed(symbol, _) =>
      match FeedTable(feed)
      case None => Fail
      case Some(t) => if FeedKey(symbol).None? then Fail else Put(FeedKey(symbol).value, t)
  }

  function FeedEntries(raw: seq<Feed>): (r: seq<Entry<string, map<Value, Record>>>)
    ensures |r| == |raw| && forall i :: 0 <= i < |raw| ==> r[i] == FeedEntry(raw[i])
  {
    seq(|raw|, i requires 0 <= i < |raw| => FeedEntry(raw[i]))
  }

  /** `clean_prices_data`. */
  method CleanPricesData(raw: seq<Feed>) returns (r: Option<map<string, map<Value, Record>>>)
    ensures r == Collect(FeedEntries(raw))
  {
    ghost var e := FeedEntries(raw);
    var prices: map<string, map<Value, Record>> := map[];
    var i := 0;
    while i < |raw|
      invariant 0 <= i <= |raw|
      invariant Collect(e[..i]) == Some(prices)
    {
      CollectPrefix(e, i);
      if raw[i].Feed? {
        var table := if raw[i].historical.None? then None else QuoteTable(raw[i].historical.value);
        var key := FeedKey(raw[i].symbol);
        if table.None? || key.None? {
          CollectFails(e[..i + 1]);
          CollectFails(e);
          assert e[..i + 1][i].Fail?;
          return None;
        }
        prices := prices[key.value := table.value];
      }
      i := i + 1;
    }
    assert e[..i] == e;
    r := Some(prices);
  }

  /** Every quote has a date, an open and a close. */
  ghost predicate Quoted(historical: seq<Record>) {
    forall j :: 0 <= j < |historical| ==> "date" in historical[j] && "open" in historical[j] && "close" in historical[j]
  }

  /** The quote table fails exactly when some quote lacks one of its keys. */
  lemma QuoteTableFails(historical: seq<Record>)
    ensures QuoteTable(historical).Some? <==> Quoted(historical)
  {
    var e := QuoteEntries(historical);
    CollectFails(e);
    assert forall j :: 0 <= j < |e| ==> (e[j].Fail? <==> !("date" in historical[j] && "open" in historical[j] && "close" in historical[j]));
  }

  /** A non-empty feed with no string symbol, no `historical` key, or a
      quote without its date, open or close. */
  ghost predicate Broken(feed: Feed) {
    feed.Feed? && (!feed.symbol.Text? || feed.historical.None? || !Quoted(feed.historical.value))
  }

  /** `clean_prices_data` fails exactly when some feed is broken. */
  lemma PricesFails(raw: seq<Feed>)
    ensures Collect(FeedEntries(raw)).None? <==> exists i :: 0 <= i < |raw| && Broken(raw[i])
  {
    var e := FeedEntries(raw);
    CollectFails(e);
    forall i | 0 <= i < |raw| ensures e[i].Fail? <==> Broken(raw[i]) {
      if raw[i].Feed? && raw[i].historical.Some? {
        QuoteTableFails(raw[i].historical.value);
      }
    }
  }

  /** A repeated date keeps the open and close of its last quote. */
  lemma QuoteTableLast(historical: seq<Record>, i: nat)
    requires QuoteTable(historical).Some? && i < |historical|
    requires forall j :: i < j < |historical| ==> Get(historical[j], "date") != Get(historical[i], "date")
    ensures "date" in historical[i] && "open" in historical[i] && "close" in historical[i]
    ensures historical[i]["date"] in QuoteTable(historical).value
    ensures QuoteTable(historical).value[historical[i]["date"]]
      == map["open" := historical[i]["open"], "close" := historical[i]["close"]]
  {
    var e := QuoteEntries(historical);
    CollectFails(e);
    assert !e[i].Fail?;
    assert forall j :: 0 <= j < |e| && !e[j].Fail? ==> e[j].Put? && "date" in historical[j];
    CollectLast(e, i);
  }

  /** A normalised ticker is a key exactly when some non-empty feed has
      that symbol. */
  lemma PricesKeys(raw: seq<Feed>, k: string)
    requires Collect(FeedEntries(raw)).Some?
    ensures k in Collect(FeedEntries(raw)).value <==>
      exists i :: 0 <= i < |raw| && raw[i].Feed? && FeedKey(raw[i].symbol) == Some(k)
  {
    var e := FeedEntries(raw);
    CollectKeys(e, k);
    CollectFails(e);
    assert forall i :: 0 <= i < |raw| ==> (e[i].Put? && e[i].key == k <==> raw[i].Feed? && FeedKey(raw[i].symbol) == Some(k));
  }

  /** Under a ticker is the quote table of the last feed with that
      normalised symbol. */
  lemma PricesLast(raw: seq<Feed>, i: nat)
    requires Collect(FeedEntries(raw)).Some? && i < |raw| && raw[i].Feed?
    requires forall j :: i < j < |raw| && raw[j].Feed? ==> FeedKey(raw[j].symbol) != FeedKey(raw[i].symbol)
    ensures FeedKey(raw[i].symbol).Some? && raw[i].historical.Some? && QuoteTable(raw[i].historical.value).Some?
    ensures FeedKey(raw[i].symbol).value in Collect(FeedEntries(raw)).value
    ensures Collect(FeedEntries(raw)).value[FeedKey(raw[i].symbol).value] == QuoteTable(raw[i].historical.value).value
  {
    var e := FeedEntries(raw);
    CollectFails(e);
    assert !e[i].Fail?;
    assert forall j :: 0 <= j < |e| && e[j].Put? ==> e[j].key == FeedKey(raw[j].symbol).value && FeedKey(raw[j].symbol).Some?;
    CollectLast(e, i);
  }
}
