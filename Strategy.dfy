/** The "demo replace" portfolio strategy (`compute_ptf_performance`): on
    every portfolio date the held positions are marked to market from open
    to open, positions without a quote are liquidated, names that left the
    membership are sold, names that entered it are bought with the free
    cash, and optionally the positions are rebalanced to equal weight on the
    first trading day of a month. Every trade pays a proportional fee. */
module Strategy {
  import opened Wrappers
  import opened Seqs
  import opened Strings
  import opened Calendar
  import opened MapSums
  import Returns

  /** The arguments of `compute_ptf_performance`. `opens[t][d]` is the
      `Open` quote of ticker t on date d. */
  datatype Inputs = Inputs(
    membership: map<string, seq<Date>>,
    ptfDates: seq<Date>,
    opens: map<string, map<Date, real>>,
    firstTradingDatesOfMonth: seq<Date>,
    isRebalanced: bool,
    fee: real,
    initCapital: real)

  /** The exceptions the source lets escape. */
  datatype Fault =
    | NoInitialHoldings          // `cap_invested / len(tickers)` with no ticker on the first date
    | ZeroInitialCapital         // `cap / cap_invested` on the first date
    | ZeroStartPrice(date: Date) // `end_price / start_price`
    | RebalanceWithoutHoldings(date: Date) // `ptf_cap / len(tickers_cap)`
    | NoPortfolioDates           // `ptf_df['invested']` on an empty frame (a `KeyError`)

  /** The variables carried from one date to the next. */
  datatype State = State(tickers: seq<string>, caps: map<string, real>, freeCash: real)

  /** One row of the ledger (`ptf[date]`), with the per-ticker capital
      (`cap_in_ptf[date]`) and shares (`share_in_ptf[date]`) of that date.
      Entries the source leaves out of a row (NaN in the frame) are None. */
  datatype Row = Row(
    date: Date,
    invested: real,
    returnsOnInvested: Option<real>,
    freeCash: real,
    nav: real,
    stocksInPtf: nat,
    tickers: seq<string>,
    sellTrans: nat,
    buyTrans: nat,
    replaceTransCounts: nat,
    replaceTransCosts: real,
    rebalTransCounts: Option<nat>,
    rebalTransCosts: Option<real>,
    sold: Option<seq<string>>,
    bought: Option<seq<string>>,
    caps: map<string, real>,
    shares: map<string, real>)

  /** The running variables of one date: `tickers_cap`, `free_cash`,
      `replace_trans_costs` and `replace_trans_count`. */
  datatype Book = Book(caps: map<string, real>, freeCash: real, costs: real, count: nat)

  /** The result of marking the held positions to market: the marked
      positions (`tickers_new_cap`) and the book, whose `caps` is
      `tickers_cap` after the liquidated positions were popped. */
  datatype Marked = Marked(newCaps: map<string, real>, book: Book)

  function Abs(x: real): real {
    if x < 0.0 then -x else x
  }

  /** The transaction fee charged on a traded amount. */
  function FeeOn(amount: real, fee: real): real {
    amount * fee
  }

  /** What is left of a traded amount once the fee is paid. */
  function Net(amount: real, fee: real): real {
    amount - FeeOn(amount, fee)
  }

  /** An amount split in n equal parts. */
  function Share(amount: real, n: nat): real
    requires n > 0
  {
    amount / n as real
  }

  // ---- membership ------------------------------------------------------------

  /** The tickers whose membership dates contain `date`. */
  function Target(membership: map<string, seq<Date>>, date: Date): set<string> {
    set t | t in membership && date in membership[t]
  }

  /** Every membership date of a ticker is one of its quoted dates; this is
      how the membership lists are built, and it rules out the path where a
      held ticker lacks its previous quote. */
  ghost predicate Quoted(args: Inputs) {
    forall t, d :: t in args.membership && d in args.membership[t] ==> t in args.opens && d in args.opens[t]
  }

  /** The state holds exactly the sorted target of `date`. */
  ghost predicate Holds(args: Inputs, date: Date, st: State) {
    st.tickers == Sorted(Target(args.membership, date)) && st.caps.Keys == Target(args.membership, date)
  }

  // ---- mark to market ----------------------------------------------------------

  /** The held tickers quoted on `date`. */
  function Trading(held: set<string>, opens: map<string, map<Date, real>>, date: Date): set<string> {
    set t | t in held && t in opens && date in opens[t]
  }

  /** The open-to-open value of a position: `start_cap + start_cap * returns`. */
  function MarkedCap(cap: real, startPrice: real, endPrice: real): real
    requires startPrice != 0.0
  {
    cap + cap * (endPrice / startPrice - 1.0)
  }

  ghost predicate MarkReady(held: set<string>, caps: map<string, real>, opens: map<string, map<Date, real>>, prev: Date) {
    held <= caps.Keys && forall t :: t in held ==> t in opens && prev in opens[t]
  }

  /** Some still-quoted position has a zero previous open. */
  ghost predicate ZeroStart(trading: set<string>, opens: map<string, map<Date, real>>, prev: Date)
    requires forall t :: t in trading ==> t in opens && prev in opens[t]
  {
    exists t :: t in trading && opens[t][prev] == 0.0
  }

  /** The open-to-open values of the still-quoted positions. */
  ghost function MarkedCaps(trading: set<string>, caps: map<string, real>,
                            opens: map<string, map<Date, real>>, prev: Date, date: Date): (r: map<string, real>)
    requires forall t :: t in trading ==> t in caps && t in opens && prev in opens[t] && date in opens[t] && opens[t][prev] != 0.0
    ensures r.Keys == trading
  {
    map t | t in trading :: MarkedCap(caps[t], opens[t][prev], opens[t][date])
  }

  /** Marking to market: the still-quoted positions get their open-to-open
      value, the others are liquidated into free cash net of the fee. */
  ghost function MarkSpec(held: set<string>, caps: map<string, real>, freeCash: real,
                          opens: map<string, map<Date, real>>, prev: Date, date: Date, fee: real): Result<Marked, Fault>
    requires MarkReady(held, caps, opens, prev)
  {
    var trading := Trading(held, opens, date);
    if ZeroStart(trading, opens, prev) then Err(ZeroStartPrice(date))
    else
      Ok(Marked(MarkedCaps(trading, caps, opens, prev, date), Liquidate(Book(caps, freeCash, 0.0, 0), held - trading, fee)))
  }

  /** Closing the positions `gone`: they leave the book, their capital goes
      to free cash net of the fee, the fee goes to the costs and each
      counts as one trade. */
  ghost function Liquidate(b: Book, gone: set<string>, fee: real): Book
    requires gone <= b.caps.Keys
  {
    var released := SumOver(gone, b.caps);
    Book(b.caps - gone, b.freeCash + released - FeeOn(released, fee), b.costs + FeeOn(released, fee), b.count + |gone|)
  }

  /** Closing one more position is one more iteration of a closing loop. */
  lemma LiquidateAdd(b: Book, gone: set<string>, t: string, fee: real)
    requires gone <= b.caps.Keys && t in b.caps && t !in gone
    ensures t in Liquidate(b, gone, fee).caps && Liquidate(b, gone, fee).caps[t] == b.caps[t]
    ensures Liquidate(b, gone + {t}, fee) == Close(Liquidate(b, gone, fee), t, fee)
  {
    SumOverAdd(gone, b.caps, t);
    MapMinusAdd(b.caps, gone, t);
    FeeSplit(b.freeCash, b.costs, SumOver(gone, b.caps), b.caps[t], fee);
  }

  ghost predicate FoldReady(held: seq<string>, caps: map<string, real>, opens: map<string, map<Date, real>>, prev: Date) {
    forall t :: t in held ==> t in caps && t in opens && prev in opens[t]
  }

  /** One iteration of the loop over the held tickers (lines 94-114). */
  function MarkOne(m: Marked, t: string, caps: map<string, real>,
                   opens: map<string, map<Date, real>>, prev: Date, date: Date, fee: real): Result<Marked, Fault>
    requires t in caps && t in opens && prev in opens[t]
  {
    if date in opens[t] then
      if opens[t][prev] == 0.0 then Err(ZeroStartPrice(date))
      else Ok(m.(newCaps := m.newCaps[t := MarkedCap(caps[t], opens[t][prev], opens[t][date])]))
    else
      var c := caps[t];
      Ok(Marked(m.newCaps, Book(m.book.caps - {t}, m.book.freeCash + (c - FeeOn(c, fee)), m.book.costs + FeeOn(c, fee), m.book.count + 1)))
  }

  /** The loop over the held tickers, as a left fold. */
  function MarkFold(held: seq<string>, caps: map<string, real>, freeCash: real,
                    opens: map<string, map<Date, real>>, prev: Date, date: Date, fee: real): Result<Marked, Fault>
    requires FoldReady(held, caps, opens, prev)
  {
    if |held| == 0 then Ok(Marked(map[], Book(caps, freeCash, 0.0, 0)))
    else
      var n := |held| - 1;
      match MarkFold(held[..n], caps, freeCash, opens, prev, date, fee)
      case Err(e) => Err(e)
      case Ok(m) => MarkOne(m, held[n], caps, opens, prev, date, fee)
  }

  /** The loop over the held tickers in list order (lines 94-114). */
  method MarkToMarket(held: seq<string>, caps: map<string, real>, freeCash: real,
                      opens: map<string, map<Date, real>>, prev: Date, date: Date, fee: real)
    returns (r: Result<Marked, Fault>)
    requires StrictlySorted(held)
    requires MarkReady(Elems(held), caps, opens, prev)
    ensures r == MarkSpec(Elems(held), caps, freeCash, opens, prev, date, fee)
  {
    var newCaps: map<string, real> := map[];
    var tickersCap := caps;
    var cash := freeCash;
    var costs := 0.0;
    var count := 0;
    var i := 0;
    while i < |held|
      invariant 0 <= i <= |held|
      invariant MarkFold(held[..i], caps, freeCash, opens, prev, date, fee)
        == Ok(Marked(newCaps, Book(tickersCap, cash, costs, count)))
    {
      var t := held[i];
      MarkFoldSnoc(held, i, caps, freeCash, opens, prev, date, fee);
      var failed;
      failed, newCaps, tickersCap, cash, costs, count := MarkHeld(t, caps, opens, prev, date, fee, newCaps, tickersCap, cash, costs, count);
      if failed {
        MarkFoldIsSpec(held, caps, freeCash, opens, prev, date, fee);
        MarkFoldErr(held, i + 1, caps, freeCash, opens, prev, date, fee);
        return Err(ZeroStartPrice(date));
      }
      i := i + 1;
    }
    assert held[..i] == held;
    MarkFoldIsSpec(held, caps, freeCash, opens, prev, date, fee);
    r := Ok(Marked(newCaps, Book(tickersCap, cash, costs, count)));
  }

  /** One ticker of the loop (lines 94-114): a ticker still traded on date
      is marked to its new open price, one that is not is closed. A zero
      start price stops the loop. */
  method MarkHeld(t: string, caps: map<string, real>, opens: map<string, map<Date, real>>, prev: Date, date: Date, fee: real,
                  newCaps: map<string, real>, tickersCap: map<string, real>, cash: real, costs: real, count: nat)
    returns (failed: bool, newCaps': map<string, real>, tickersCap': map<string, real>, cash': real, costs': real, count': nat)
    requires t in caps && t in opens && prev in opens[t]
    ensures var one := MarkOne(Marked(newCaps, Book(tickersCap, cash, costs, count)), t, caps, opens, prev, date, fee);
      if failed then one == Err(ZeroStartPrice(date))
      else one == Ok(Marked(newCaps', Book(tickersCap', cash', costs', count')))
  {
    failed := false;
    newCaps', tickersCap', cash', costs', count' := newCaps, tickersCap, cash, costs, count;
    if date in opens[t] {
      var startPrice := opens[t][prev];
      if startPrice == 0.0 {
        failed := true;
        return;
      }
      newCaps' := newCaps[t := MarkedCap(caps[t], startPrice, opens[t][date])];
    } else {
      var startCap := caps[t];
      var stopCost := FeeOn(startCap, fee);
      cash' := cash + (startCap - stopCost);
      costs' := costs + stopCost;
      count' := count + 1;
      tickersCap' := tickersCap - {t};
    }
  }

  lemma MarkFoldSnoc(held: seq<string>, i: nat, caps: map<string, real>, freeCash: real,
                     opens: map<string, map<Date, real>>, prev: Date, date: Date, fee: real)
    requires MarkReady(Elems(held), caps, opens, prev) && i < |held|
    ensures FoldReady(held[..i], caps, opens, prev) && FoldReady(held[..i + 1], caps, opens, prev)
    ensures held[i] in caps && held[i] in opens && prev in opens[held[i]]
    ensures MarkFold(held[..i + 1], caps, freeCash, opens, prev, date, fee)
      == match MarkFold(held[..i], caps, freeCash, opens, prev, date, fee)
         case Err(e) => Err(e)
         case Ok(m) => MarkOne(m, held[i], caps, opens, prev, date, fee)
  {
    assert held[i] in Elems(held);
    forall k | 0 <= k <= i ensures held[k] in Elems(held) { }
    assert held[..i + 1][..i] == held[..i];
  }

  /** Once the fold fails on a prefix, it fails on the whole list. */
  lemma {:induction false} MarkFoldErr(held: seq<string>, i: nat, caps: map<string, real>, freeCash: real,
                                       opens: map<string, map<Date, real>>, prev: Date, date: Date, fee: real)
    requires FoldReady(held, caps, opens, prev) && i <= |held|
    requires MarkFold(held[..i], caps, freeCash, opens, prev, date, fee).Err?
    ensures MarkFold(held, caps, freeCash, opens, prev, date, fee) == MarkFold(held[..i], caps, freeCash, opens, prev, date, fee)
    decreases |held| - i
  {
    if i < |held| {
      var n := |held| - 1;
      assert held[..n][..i] == held[..i];
      MarkFoldErr(held[..n], i, caps, freeCash, opens, prev, date, fee);
      if i == |held| - 1 { }
    } else {
      assert held[..i] == held;
    }
  }

  /** The loop computes the set-based specification: it does not depend on
      the order of the held tickers. */
  lemma {:induction false} MarkFoldIsSpec(held: seq<string>, caps: map<string, real>, freeCash: real,
                                          opens: map<string, map<Date, real>>, prev: Date, date: Date, fee: real)
    requires StrictlySorted(held)
    requires MarkReady(Elems(held), caps, opens, prev)
    ensures FoldReady(held, caps, opens, prev)
    ensures MarkFold(held, caps, freeCash, opens, prev, date, fee) == MarkSpec(Elems(held), caps, freeCash, opens, prev, date, fee)
    decreases |held|
  {
    FoldReadyOf(held, caps, opens, prev);
    if |held| > 0 {
      var n := |held| - 1;
      var h := held[..n];
      var t := held[n];
      assert held == h + [t];
      assert held[..n] == h;
      assert Elems(held) == Elems(h) + {t};
      NotYetSeen(held, n);
      SortedPrefix(held, n);
      MarkFoldIsSpec(h, caps, freeCash, opens, prev, date, fee);
      MarkSpecAdd(Elems(h), t, caps, freeCash, opens, prev, date, fee);
      var left := MarkFold(h, caps, freeCash, opens, prev, date, fee);
      var whole := MarkFold(held, caps, freeCash, opens, prev, date, fee);
      assert whole == match left case Err(e) => Err(e) case Ok(m) => MarkOne(m, t, caps, opens, prev, date, fee);
      assert MarkSpec(Elems(held), caps, freeCash, opens, prev, date, fee)
        == MarkSpec(Elems(h) + {t}, caps, freeCash, opens, prev, date, fee);
    } else {
      assert Elems(held) == {};
      MarkSpecEmpty(caps, freeCash, opens, prev, date, fee);
    }
  }

  lemma FoldReadyOf(held: seq<string>, caps: map<string, real>, opens: map<string, map<Date, real>>, prev: Date)
    requires MarkReady(Elems(held), caps, opens, prev)
    ensures FoldReady(held, caps, opens, prev)
  {
    forall t | t in held ensures t in caps && t in opens && prev in opens[t] {
      assert t in Elems(held);
    }
  }

  lemma MarkSpecEmpty(caps: map<string, real>, freeCash: real,
                      opens: map<string, map<Date, real>>, prev: Date, date: Date, fee: real)
    ensures MarkReady({}, caps, opens, prev)
    ensures MarkSpec({}, caps, freeCash, opens, prev, date, fee) == Ok(Marked(map[], Book(caps, freeCash, 0.0, 0)))
  {
    var spec := MarkSpec({}, caps, freeCash, opens, prev, date, fee);
    assert spec.Ok?;
    assert spec.value.newCaps == map[];
    assert spec.value.book == Book(caps, freeCash, 0.0, 0);
  }

  lemma SortedPrefix(s: seq<string>, n: nat)
    requires StrictlySorted(s) && n <= |s|
    ensures StrictlySorted(s[..n])
  {
  }

  /** Adding one more held ticker to the set-based specification is one
      more iteration of the loop. */
  lemma MarkSpecAdd(held: set<string>, t: string, caps: map<string, real>, freeCash: real,
                    opens: map<string, map<Date, real>>, prev: Date, date: Date, fee: real)
    requires t !in held
    requires MarkReady(held + {t}, caps, opens, prev)
    ensures MarkReady(held, caps, opens, prev)
    ensures MarkSpec(held + {t}, caps, freeCash, opens, prev, date, fee)
      == match MarkSpec(held, caps, freeCash, opens, prev, date, fee)
         case Err(e) => Err(e)
         case Ok(m) => MarkOne(m, t, caps, opens, prev, date, fee)
  {
    if date in opens[t] {
      MarkSpecAddTrading(held, t, caps, freeCash, opens, prev, date, fee);
    } else {
      MarkSpecAddGone(held, t, caps, freeCash, opens, prev, date, fee);
    }
  }

  lemma MarkSpecAddTrading(held: set<string>, t: string, caps: map<string, real>, freeCash: real,
                           opens: map<string, map<Date, real>>, prev: Date, date: Date, fee: real)
    requires t !in held
    requires MarkReady(held + {t}, caps, opens, prev) && date in opens[t]
    ensures MarkReady(held, caps, opens, prev)
    ensures MarkSpec(held + {t}, caps, freeCash, opens, prev, date, fee)
      == match MarkSpec(held, caps, freeCash, opens, prev, date, fee)
         case Err(e) => Err(e)
         case Ok(m) => MarkOne(m, t, caps, opens, prev, date, fee)
  {
    var h := held + {t};
    var tr := Trading(held, opens, date);
    assert Trading(h, opens, date) == tr + {t};
    assert h - (tr + {t}) == held - tr;
    ZeroStartAdd(tr, t, opens, prev);
    var before := MarkSpec(held, caps, freeCash, opens, prev, date, fee);
    if before.Ok? && opens[t][prev] != 0.0 {
      MarkedCapsAdd(tr, t, caps, opens, prev, date);
    }
  }

  lemma ZeroStartAdd(trading: set<string>, t: string, opens: map<string, map<Date, real>>, prev: Date)
    requires forall u :: u in trading + {t} ==> u in opens && prev in opens[u]
    ensures ZeroStart(trading + {t}, opens, prev) <==> ZeroStart(trading, opens, prev) || opens[t][prev] == 0.0
  {
  }

  lemma MarkedCapsAdd(trading: set<string>, t: string, caps: map<string, real>,
                      opens: map<string, map<Date, real>>, prev: Date, date: Date)
    requires forall u :: u in trading + {t} ==> u in caps && u in opens && prev in opens[u] && date in opens[u] && opens[u][prev] != 0.0
    ensures MarkedCaps(trading + {t}, caps, opens, prev, date)
      == MarkedCaps(trading, caps, opens, prev, date)[t := MarkedCap(caps[t], opens[t][prev], opens[t][date])]
  {
  }

  lemma MarkSpecAddGone(held: set<string>, t: string, caps: map<string, real>, freeCash: real,
                        opens: map<string, map<Date, real>>, prev: Date, date: Date, fee: real)
    requires t !in held
    requires MarkReady(held + {t}, caps, opens, prev) && date !in opens[t]
    ensures MarkReady(held, caps, opens, prev)
    ensures MarkSpec(held + {t}, caps, freeCash, opens, prev, date, fee)
      == match MarkSpec(held, caps, freeCash, opens, prev, date, fee)
         case Err(e) => Err(e)
         case Ok(m) => MarkOne(m, t, caps, opens, prev, date, fee)
  {
    var h := held + {t};
    var tr := Trading(held, opens, date);
    assert Trading(h, opens, date) == tr;
    var gone := held - tr;
    assert h - tr == gone + {t};
    var b0 := Book(caps, freeCash, 0.0, 0);
    LiquidateAdd(b0, gone, t, fee);
    var before := MarkSpec(held, caps, freeCash, opens, prev, date, fee);
    if before.Ok? {
      assert before.value == Marked(MarkedCaps(tr, caps, opens, prev, date), Liquidate(b0, gone, fee));
      MarkOneGone(before.value, t, caps, opens, prev, date, fee);
      assert MarkSpec(h, caps, freeCash, opens, prev, date, fee)
        == Ok(Marked(MarkedCaps(tr, caps, opens, prev, date), Liquidate(b0, gone + {t}, fee)));
    }
  }

  /** A ticker no longer quoted on date is closed at its book value. */
  lemma MarkOneGone(m: Marked, t: string, caps: map<string, real>,
                    opens: map<string, map<Date, real>>, prev: Date, date: Date, fee: real)
    requires t in caps && t in opens && prev in opens[t] && date !in opens[t]
    requires t in m.book.caps && m.book.caps[t] == caps[t]
    ensures MarkOne(m, t, caps, opens, prev, date, fee) == Ok(Marked(m.newCaps, Close(m.book, t, fee)))
  {
  }

  lemma MapMinusAdd<K, V>(m: map<K, V>, s: set<K>, k: K)
    ensures m - (s + {k}) == (m - s) - {k}
  {
  }

  /** Liquidating r and then c pays the same fee as liquidating r + c. */
  lemma FeeSplit(cash: real, costs: real, r: real, c: real, fee: real)
    ensures cash + (r + c) - FeeOn(r + c, fee) == cash + r - FeeOn(r, fee) + (c - FeeOn(c, fee))
    ensures costs + FeeOn(r + c, fee) == costs + FeeOn(r, fee) + FeeOn(c, fee)
  {
  }

  /** The elements of a strictly sorted list are distinct. */
  lemma NotYetSeen(held: seq<string>, i: nat)
    requires StrictlySorted(held) && i < |held|
    ensures held[i] !in Elems(held[..i])
  {
    if held[i] in Elems(held[..i]) {
      var j :| 0 <= j < i && held[j] == held[i];
      LexIrreflexive(held[i]);
    }
  }

  // ---- replacing names -----------------------------------------------------------

  /** Closing one position that is in the book. */
  function Close(b: Book, t: string, fee: real): Book
    requires t in b.caps
  {
    var c := b.caps[t];
    Book(b.caps - {t}, b.freeCash + (c - FeeOn(c, fee)), b.costs + FeeOn(c, fee), b.count + 1)
  }

  /** The sell loop over the names in visiting order: a name no longer in
      the book is skipped (the `KeyError` branch, line 152). */
  function SellFold(b: Book, names: seq<string>, fee: real): Book {
    if |names| == 0 then b
    else
      var r := SellFold(b, names[..|names| - 1], fee);
      var t := names[|names| - 1];
      if t in r.caps then Close(r, t, fee) else r
  }

  /** In whatever order the names are visited, the sell loop closes exactly
      the listed names that are in the book. */
  lemma {:induction false} SellFoldIsLiquidate(b: Book, names: seq<string>, fee: real)
    requires Distinct(names)
    ensures Elems(names) * b.caps.Keys <= b.caps.Keys
    ensures SellFold(b, names, fee) == Liquidate(b, Elems(names) * b.caps.Keys, fee)
    decreases |names|
  {
    if |names| == 0 {
      assert Elems(names) * b.caps.Keys == {};
      LiquidateNone(b, fee);
    } else {
      var n := |names| - 1;
      var t := names[n];
      DistinctLast(names);
      SellFoldIsLiquidate(b, names[..n], fee);
      var sold := Elems(names[..n]) * b.caps.Keys;
      assert Liquidate(b, sold, fee).caps == b.caps - sold;
      if t in b.caps {
        assert Elems(names) * b.caps.Keys == sold + {t};
        LiquidateAdd(b, sold, t, fee);
      } else {
        assert Elems(names) * b.caps.Keys == sold;
      }
    }
  }

  lemma LiquidateNone(b: Book, fee: real)
    ensures Liquidate(b, {}, fee) == b
  {
    assert b.caps - {} == b.caps;
  }

  /** The sell loop (lines 146-166). The set `tickers_to_sell` is visited in
      ascending order, one of the orders Python may use. */
  method Sell(b: Book, toSell: set<string>, fee: real) returns (r: Book)
    ensures toSell * b.caps.Keys <= b.caps.Keys
    ensures r == Liquidate(b, toSell * b.caps.Keys, fee)
  {
    var names := Sorted(toSell);
    r := b;
    var i := 0;
    while i < |names|
      invariant 0 <= i <= |names|
      invariant r == SellFold(b, names[..i], fee)
    {
      var t := names[i];
      assert names[..i + 1][..i] == names[..i];
      if t in r.caps {
        var tickerCap := r.caps[t];
        var sellTransCost := FeeOn(tickerCap, fee);
        r := Book(r.caps - {t}, r.freeCash + (tickerCap - sellTransCost), r.costs + sellTransCost, r.count + 1);
      }
      i := i + 1;
    }
    assert names[..i] == names;
    SortedDistinct(names);
    SellFoldIsLiquidate(b, names, fee);
  }

  /** Investing the free cash in equal parts in the names that entered the
      membership (lines 168-176). */
  ghost function Invest(b: Book, toBuy: set<string>, fee: real): Book {
    if toBuy == {} then b else BuyAll(b, toBuy, Share(b.freeCash, |toBuy|), fee)
  }

  /** Buying `capital` of each name net of the fee, leaving no free cash. */
  function BuyAll(b: Book, names: set<string>, capital: real, fee: real): Book {
    Book(b.caps + Positions(names, Net(capital, fee)), 0.0,
         b.costs + Times(|names|, FeeOn(capital, fee)), b.count + |names|)
  }

  /** The same capital in each of the names. */
  function Positions(names: set<string>, cap: real): (r: map<string, real>)
    ensures r.Keys == names
  {
    map t | t in names :: cap
  }

  /** The buy loop over the names in visiting order. */
  function BuyFold(b: Book, names: seq<string>, position: real, buyCost: real): Book {
    if |names| == 0 then b
    else
      var r := BuyFold(b, names[..|names| - 1], position, buyCost);
      Book(r.caps[names[|names| - 1] := position], r.freeCash, r.costs + buyCost, r.count + 1)
  }

  /** In whatever order the names are visited, each gets the same position
      and pays the same fee. */
  lemma {:induction false} BuyFoldIsPositions(b: Book, names: seq<string>, position: real, buyCost: real)
    requires Distinct(names)
    ensures BuyFold(b, names, position, buyCost)
      == Book(b.caps + Positions(Elems(names), position), b.freeCash, b.costs + Times(|names|, buyCost), b.count + |names|)
    decreases |names|
  {
    if |names| == 0 {
      PlusNone(b.caps, Elems(names), position);
    } else {
      var n := |names| - 1;
      DistinctLast(names);
      BuyFoldIsPositions(b, names[..n], position, buyCost);
      PositionsAdd(b.caps, Elems(names[..n]), names[n], position);
    }
  }

  lemma PositionsAdd(caps: map<string, real>, names: set<string>, t: string, cap: real)
    requires t !in names
    ensures (caps + Positions(names, cap))[t := cap] == caps + Positions(names + {t}, cap)
  {
  }

  lemma PlusNone(caps: map<string, real>, names: set<string>, cap: real)
    requires names == {}
    ensures caps + Positions(names, cap) == caps
  {
    assert Positions(names, cap) == map[];
  }

  /** The buy step (lines 168-176); `tickers_to_buy` is visited in
      ascending order. */
  method Buy(b: Book, toBuy: set<string>, fee: real) returns (r: Book)
    ensures r == Invest(b, toBuy, fee)
  {
    r := b;
    if toBuy != {} {
      var names := Sorted(toBuy);
      var capitalToInvest := Share(b.freeCash, |toBuy|);
      SortedDistinct(names);
      r := BuyEach(b, names, capitalToInvest, fee);
    }
  }

  /** The buy loop, once per name, then `free_cash = 0`. */
  method BuyEach(b: Book, names: seq<string>, capitalToInvest: real, fee: real) returns (r: Book)
    requires Distinct(names)
    ensures r == BuyAll(b, Elems(names), capitalToInvest, fee)
  {
    var buyTransCost := FeeOn(capitalToInvest, fee);
    var position := capitalToInvest - buyTransCost;
    assert position == Net(capitalToInvest, fee);
    r := b;
    var i := 0;
    while i < |names|
      invariant 0 <= i <= |names|
      invariant r == BuyFold(b, names[..i], position, buyTransCost)
    {
      assert names[..i + 1][..i] == names[..i];
      r := Book(r.caps[names[i] := position], r.freeCash, r.costs + buyTransCost, r.count + 1);
      i := i + 1;
    }
    assert names[..i] == names;
    BuyFoldIsBuyAll(b, names, capitalToInvest, fee);
    r := r.(freeCash := 0.0);
  }

  lemma BuyFoldIsBuyAll(b: Book, names: seq<string>, capital: real, fee: real)
    requires Distinct(names)
    ensures BuyFold(b, names, Net(capital, fee), FeeOn(capital, fee)).(freeCash := 0.0) == BuyAll(b, Elems(names), capital, fee)
  {
    BuyFoldIsPositions(b, names, Net(capital, fee), FeeOn(capital, fee));
    DistinctCard(names);
  }

  // ---- rebalancing ----------------------------------------------------------------

  /** The equal-weight target of a rebalancing: `ptf_cap / len(tickers_cap)`. */
  ghost function Mean(caps: map<string, real>): real
    requires |caps| > 0
  {
    Share(SumValues(caps), |caps|)
  }

  /** The fee paid to move a position of capital `cap` to `mean`. */
  function MoveCost(cap: real, mean: real, fee: real): real {
    FeeOn(Abs(cap - mean), fee)
  }

  /** The fee paid to move each position to `mean`. */
  ghost function Deviations(caps: map<string, real>, mean: real, fee: real): (r: map<string, real>)
    ensures r.Keys == caps.Keys
  {
    map t | t in caps :: MoveCost(caps[t], mean, fee)
  }

  /** The positions `names` moved to `mean`, each paying the fee on what it moves. */
  ghost function Moved(names: set<string>, caps: map<string, real>, mean: real, fee: real): (r: map<string, real>)
    requires names <= caps.Keys
    ensures r.Keys == names
  {
    map t | t in names :: mean - MoveCost(caps[t], mean, fee)
  }

  /** Every position moves to `mean`. */
  ghost function Rebalanced(caps: map<string, real>, mean: real, fee: real): (r: map<string, real>)
    ensures r.Keys == caps.Keys
  {
    Moved(caps.Keys, caps, mean, fee)
  }

  /** The rebalancing loop over the positions in visiting order. */
  function MoveFold(caps: map<string, real>, names: seq<string>, mean: real, fee: real): map<string, real>
    requires forall t :: t in names ==> t in caps
  {
    if |names| == 0 then map[]
    else
      var t := names[|names| - 1];
      MoveFold(caps, names[..|names| - 1], mean, fee)[t := mean - MoveCost(caps[t], mean, fee)]
  }

  /** In whatever order the positions are visited, each moves to `mean`. */
  lemma {:induction false} MoveFoldIsMoved(caps: map<string, real>, names: seq<string>, mean: real, fee: real)
    requires forall t :: t in names ==> t in caps
    ensures Elems(names) <= caps.Keys
    ensures MoveFold(caps, names, mean, fee) == Moved(Elems(names), caps, mean, fee)
    decreases |names|
  {
    if |names| == 0 {
      assert Moved(Elems(names), caps, mean, fee) == map[];
    } else {
      var n := |names| - 1;
      assert names == names[..n] + [names[n]];
      assert Elems(names) == Elems(names[..n]) + {names[n]};
      assert forall t :: t in names[..n] ==> t in names;
      MoveFoldIsMoved(caps, names[..n], mean, fee);
      MovedAdd(Elems(names[..n]), names[n], caps, mean, fee);
    }
  }

  lemma MovedAdd(names: set<string>, t: string, caps: map<string, real>, mean: real, fee: real)
    requires names <= caps.Keys && t in caps
    ensures Moved(names, caps, mean, fee)[t := mean - MoveCost(caps[t], mean, fee)] == Moved(names + {t}, caps, mean, fee)
  {
  }

  /** The rebalancing step (lines 184-197): the new positions, the fees
      paid and the number of trades. The positions are visited in
      ascending order of their names. */
  method Rebalance(caps: map<string, real>, fee: real) returns (newCaps: map<string, real>, costs: real, count: nat)
    requires |caps| > 0
    ensures newCaps == Rebalanced(caps, Mean(caps), fee)
    ensures costs == SumValues(Deviations(caps, Mean(caps), fee))
    ensures count == |caps|
  {
    var ptfCap := Total(caps);
    var rebalancedStockCap := Share(ptfCap, |caps|);
    var names := Sorted(caps.Keys);
    assert forall t :: t in names ==> t in caps by {
      assert Elems(names) == caps.Keys;
    }
    newCaps, costs, count := RebalanceEach(caps, names, rebalancedStockCap, fee);
    MoveFoldIsMoved(caps, names, rebalancedStockCap, fee);
    SortedDistinct(names);
    SumOnIsSumOver(names, Deviations(caps, rebalancedStockCap, fee));
    assert |caps.Keys| == |caps|;
  }

  /** The rebalancing loop (lines 187-195). */
  method RebalanceEach(caps: map<string, real>, names: seq<string>, rebalancedStockCap: real, fee: real)
    returns (newCaps: map<string, real>, costs: real, count: nat)
    requires forall t :: t in names ==> t in caps
    ensures newCaps == MoveFold(caps, names, rebalancedStockCap, fee)
    ensures costs == SumOn(names, Deviations(caps, rebalancedStockCap, fee))
    ensures count == |names|
  {
    ghost var dev := Deviations(caps, rebalancedStockCap, fee);
    newCaps := map[];
    costs := 0.0;
    count := 0;
    while count < |names|
      invariant count <= |names|
      invariant newCaps == MoveFold(caps, names[..count], rebalancedStockCap, fee)
      invariant costs == SumOn(names[..count], dev)
    {
      var t := names[count];
      var cap := caps[t];
      assert names[..count + 1][..count] == names[..count];
      newCaps := newCaps[t := rebalancedStockCap - MoveCost(cap, rebalancedStockCap, fee)];
      costs := costs + MoveCost(cap, rebalancedStockCap, fee);
      count := count + 1;
    }
    assert names[..count] == names;
  }

  // ---- one portfolio date --------------------------------------------------------

  /** `share_in_ptf[date]` (lines 207-212): each position over the invested
      total, or nothing when that total is zero. */
  function SharesOf(caps: map<string, real>, invested: real): (r: map<string, real>)
    ensures invested == 0.0 ==> r == map[]
    ensures invested != 0.0 ==> r.Keys == caps.Keys && forall t :: t in caps ==> r[t] * invested == caps[t]
  {
    if invested == 0.0 then map[] else map t | t in caps :: caps[t] / invested
  }

  /** The variables a date leaves to the next one. */
  function StateOf(row: Row): State {
    State(row.tickers, row.caps, row.freeCash)
  }

  /** The first portfolio date (lines 35-76): the free cash is invested in
      equal parts in the sorted target, net of the fee. */
  function Start(args: Inputs, date: Date): (r: Result<Row, Fault>)
    ensures r.Err? <==> Target(args.membership, date) == {} || args.initCapital == 0.0
  {
    var tickers := Target(args.membership, date);
    if tickers == {} then Err(NoInitialHoldings)
    else if args.initCapital == 0.0 then Err(ZeroInitialCapital)
    else
      var caps := Positions(tickers, Net(Share(args.initCapital, |tickers|), args.fee));
      Ok(Row(date, args.initCapital, Some(0.0), 0.0, args.initCapital + 0.0, |tickers|, Sorted(tickers),
             0, |tickers|, |tickers|, FeeOn(args.initCapital, args.fee), None, None, None, Some(Sorted(tickers)),
             caps, SharesOf(caps, args.initCapital)))
  }

  /** The ledger row of a later date, from its final book. */
  function Record(date: Date, held: set<string>, target: set<string>, b: Book, ret: Option<real>,
                  rebalCosts: real, rebalCount: nat, invested: real): Row
  {
    var toSell := held - target;
    var toBuy := target - held;
    Row(date, invested, ret, b.freeCash, invested + b.freeCash, |target|, Sorted(target), |toSell|, |toBuy|,
        b.count, b.costs, Some(rebalCount), Some(rebalCosts),
        if toSell == {} then None else Some(Sorted(toSell)),
        if toBuy == {} then None else Some(Sorted(toBuy)),
        b.caps, SharesOf(b.caps, invested))
  }

  /** Selling the names that left the target and buying those that entered it. */
  ghost function Replace(b: Book, held: set<string>, target: set<string>, fee: real): Book {
    Invest(Liquidate(b, (held - target) * b.caps.Keys, fee), target - held, fee)
  }

  /** Replacement, the optional rebalancing and the row (lines 132-235). */
  ghost function Settle(args: Inputs, date: Date, held: set<string>, b: Book, ret: Option<real>): Result<Row, Fault> {
    var target := Target(args.membership, date);
    var replaced := Replace(b, held, target, args.fee);
    if args.isRebalanced && date in args.firstTradingDatesOfMonth then
      if |replaced.caps| == 0 then Err(RebalanceWithoutHoldings(date))
      else
        var mean := Mean(replaced.caps);
        var rebalanced := Rebalanced(replaced.caps, mean, args.fee);
        Ok(Record(date, held, target, replaced.(caps := rebalanced), ret,
                  SumValues(Deviations(replaced.caps, mean, args.fee)), |replaced.caps|, SumValues(rebalanced)))
    else
      Ok(Record(date, held, target, replaced, ret, 0.0, 0, SumValues(replaced.caps)))
  }

  /** The held tickers are ready to be marked on the date after `prev`. */
  lemma HeldReady(args: Inputs, prev: Date, st: State)
    requires Quoted(args) && Holds(args, prev, st)
    ensures StrictlySorted(st.tickers) && Elems(st.tickers) == Target(args.membership, prev)
    ensures MarkReady(Elems(st.tickers), st.caps, args.opens, prev)
  {
  }

  /** A later portfolio date (lines 83-235). */
  ghost function Advance(args: Inputs, prev: Date, st: State, date: Date): Result<Row, Fault>
    requires Quoted(args) && Holds(args, prev, st)
  {
    HeldReady(args, prev, st);
    var held := Elems(st.tickers);
    match MarkSpec(held, st.caps, st.freeCash, args.opens, prev, date, args.fee)
    case Err(e) => Err(e)
    case Ok(m) =>
      Settle(args, date, held, m.book.(caps := m.newCaps), Returns.Change(SumValues(m.newCaps), SumValues(m.book.caps)))
  }

  /** After replacement the book holds exactly the target. */
  lemma ReplaceKeys(b: Book, held: set<string>, target: set<string>, fee: real)
    requires b.caps.Keys <= held && held * target <= b.caps.Keys
    ensures Replace(b, held, target, fee).caps.Keys == target
  {
    var sold := Liquidate(b, (held - target) * b.caps.Keys, fee);
    assert sold.caps.Keys == held * target;
  }

  /** Every date leaves exactly its sorted target in the portfolio
      (lines 134-137, 200): the held names that stay are quoted on the
      date, so none of them was liquidated. */
  lemma AdvanceHolds(args: Inputs, prev: Date, st: State, date: Date)
    requires Quoted(args) && Holds(args, prev, st)
    requires Advance(args, prev, st, date).Ok?
    ensures Advance(args, prev, st, date).value.date == date
    ensures Holds(args, date, StateOf(Advance(args, prev, st, date).value))
  {
    HeldReady(args, prev, st);
    var held := Elems(st.tickers);
    var m := MarkSpec(held, st.caps, st.freeCash, args.opens, prev, date, args.fee).value;
    var target := Target(args.membership, date);
    assert m.newCaps.Keys == Trading(held, args.opens, date);
    ReplaceKeys(m.book.(caps := m.newCaps), held, target, args.fee);
  }

  lemma StartHolds(args: Inputs, date: Date)
    requires Start(args, date).Ok?
    ensures Start(args, date).value.date == date
    ensures Holds(args, date, StateOf(Start(args, date).value))
  {
  }

  /** The ledger after one more date. */
  ghost function Extend(args: Inputs, rows: seq<Row>, date: Date): (r: Result<seq<Row>, Fault>)
    requires Quoted(args) && |rows| > 0
    requires Holds(args, rows[|rows| - 1].date, StateOf(rows[|rows| - 1]))
    ensures r.Ok? ==> |r.value| == |rows| + 1 && r.value == rows + [r.value[|rows|]] && r.value[|rows|].date == date
    ensures r.Ok? ==> Holds(args, date, StateOf(r.value[|rows|]))
  {
    var last := rows[|rows| - 1];
    match Advance(args, last.date, StateOf(last), date)
    case Err(e) => Err(e)
    case Ok(row) =>
      AdvanceHolds(args, last.date, StateOf(last), date);
      Ok(rows + [row])
  }

  /** The rows of the first k portfolio dates. */
  ghost function Ledger(args: Inputs, k: nat): (r: Result<seq<Row>, Fault>)
    requires Quoted(args) && 1 <= k <= |args.ptfDates|
    ensures r.Ok? ==> |r.value| == k && Holds(args, r.value[k - 1].date, StateOf(r.value[k - 1]))
    ensures r.Ok? ==> forall i :: 0 <= i < k ==> r.value[i].date == args.ptfDates[i]
  {
    if k == 1 then
      match Start(args, args.ptfDates[0])
      case Err(e) => Err(e)
      case Ok(row) => StartHolds(args, args.ptfDates[0]); Ok([row])
    else
      match Ledger(args, k - 1)
      case Err(e) => Err(e)
      case Ok(rows) =>
        match Extend(args, rows, args.ptfDates[k - 1])
        case Err(e) => Err(e)
        case Ok(more) => DatedSnoc(rows, more[k - 1], args.ptfDates, k); Ok(more)
  }

  lemma DatedSnoc(rows: seq<Row>, row: Row, dates: seq<Date>, k: nat)
    requires 1 <= k <= |dates| && |rows| == k - 1
    requires forall i :: 0 <= i < k - 1 ==> rows[i].date == dates[i]
    requires row.date == dates[k - 1]
    ensures forall i :: 0 <= i < k ==> (rows + [row])[i].date == dates[i]
  {
  }

  /** `compute_ptf_performance`: the ledger over all portfolio dates. With
      no date the frame has no `invested` column and line 238 fails. */
  ghost function Simulate(args: Inputs): Result<seq<Row>, Fault>
    requires Quoted(args)
  {
    if |args.ptfDates| == 0 then Err(NoPortfolioDates) else Ledger(args, |args.ptfDates|)
  }

  /** Once a date fails, the whole run fails with its error. */
  lemma {:induction false} LedgerErr(args: Inputs, k: nat, j: nat)
    requires Quoted(args) && 1 <= k <= j <= |args.ptfDates|
    requires Ledger(args, k).Err?
    ensures Ledger(args, j) == Ledger(args, k)
    decreases j
  {
    if j > k {
      LedgerErr(args, k, j - 1);
    }
  }

  /** Replacement, rebalancing and the ledger row of a later date
      (lines 132-235). Every sum of `tickers_cap` the source stores in
      `cap_invested` ends up as the sum of the final positions. */
  method SettleDay(args: Inputs, date: Date, held: set<string>, b: Book, returnsInvested: Option<real>)
    returns (r: Result<Row, Fault>)
    ensures r == Settle(args, date, held, b, returnsInvested)
  {
    var newTickers := Sorted(Target(args.membership, date));
    var target := Elems(newTickers);
    var toSell := held - target;
    var toBuy := target - held;
    var book := b;
    if toSell != {} {
      book := Sell(book, toSell, args.fee);
    } else {
      assert toSell * book.caps.Keys == {};
      LiquidateNone(book, args.fee);
    }
    book := Buy(book, toBuy, args.fee);
    var capInvested := Total(book.caps);
    var rebalanceTransCosts := 0.0;
    var rebalanceTransCount := 0;
    if args.isRebalanced && date in args.firstTradingDatesOfMonth {
      if |book.caps| == 0 {
        return Err(RebalanceWithoutHoldings(date));
      }
      var rebalancedCaps;
      rebalancedCaps, rebalanceTransCosts, rebalanceTransCount := Rebalance(book.caps, args.fee);
      book := book.(caps := rebalancedCaps);
      capInvested := Total(book.caps);
    }
    r := Ok(Record(date, held, target, book, returnsInvested, rebalanceTransCosts, rebalanceTransCount, capInvested));
  }

  /** A later portfolio date (lines 83-235). */
  method Step(args: Inputs, prev: Date, st: State, date: Date) returns (r: Result<Row, Fault>)
    requires Quoted(args) && Holds(args, prev, st)
    ensures r == Advance(args, prev, st, date)
  {
    HeldReady(args, prev, st);
    var marked := MarkToMarket(st.tickers, st.caps, st.freeCash, args.opens, prev, date, args.fee);
    if marked.Err? {
      return Err(marked.error);
    }
    var capInvested := Total(marked.value.newCaps);
    var startTotal := Total(marked.value.book.caps);
    var returnsInvested := Returns.Change(capInvested, startTotal);
    r := SettleDay(args, date, Elems(st.tickers), marked.value.book.(caps := marked.value.newCaps), returnsInvested);
    AdvanceOk(args, prev, st, date, marked.value);
  }

  /** `compute_ptf_performance` (lines 9-238). */
  method ComputePtfPerformance(args: Inputs) returns (r: Result<seq<Row>, Fault>)
    requires Quoted(args)
    ensures r == Simulate(args)
  {
    if |args.ptfDates| == 0 {
      return Err(NoPortfolioDates);
    }
    var first := Start(args, args.ptfDates[0]);
    if first.Err? {
      assert Ledger(args, 1) == Err(first.error);
      LedgerErr(args, 1, |args.ptfDates|);
      return Err(first.error);
    }
    assert Ledger(args, 1) == Ok([first.value]);
    r := Walk(args, first.value);
  }

  /** The loop over the later portfolio dates, carrying `tickers`,
      `tickers_cap` and `free_cash` and collecting the rows of `ptf`. */
  method Walk(args: Inputs, first: Row) returns (r: Result<seq<Row>, Fault>)
    requires Quoted(args) && |args.ptfDates| > 0 && Ledger(args, 1) == Ok([first])
    ensures r == Ledger(args, |args.ptfDates|)
  {
    var ptf := [first];
    var tickers := first.tickers;
    var tickersCap := first.caps;
    var freeCash := first.freeCash;
    var n := 1;
    while n < |args.ptfDates|
      invariant 1 <= n <= |args.ptfDates|
      invariant Ledger(args, n) == Ok(ptf)
      invariant State(tickers, tickersCap, freeCash) == StateOf(ptf[n - 1])
    {
      LedgerSnoc(args, n, ptf);
      var row := Step(args, args.ptfDates[n - 1], State(tickers, tickersCap, freeCash), args.ptfDates[n]);
      if row.Err? {
        LedgerErr(args, n + 1, |args.ptfDates|);
        return Err(row.error);
      }
      ptf := ptf + [row.value];
      tickers, tickersCap, freeCash := row.value.tickers, row.value.caps, row.value.freeCash;
      n := n + 1;
    }
    r := Ok(ptf);
  }

  lemma AdvanceOk(args: Inputs, prev: Date, st: State, date: Date, m: Marked)
    requires Quoted(args) && Holds(args, prev, st)
    requires MarkReady(Elems(st.tickers), st.caps, args.opens, prev)
    requires MarkSpec(Elems(st.tickers), st.caps, st.freeCash, args.opens, prev, date, args.fee) == Ok(m)
    ensures Advance(args, prev, st, date)
      == Settle(args, date, Elems(st.tickers), m.book.(caps := m.newCaps), Returns.Change(SumValues(m.newCaps), SumValues(m.book.caps)))
  {
  }

  /** One more date of the ledger is one more `Advance`. */
  lemma LedgerSnoc(args: Inputs, n: nat, rows: seq<Row>)
    requires Quoted(args) && 1 <= n < |args.ptfDates|
    requires Ledger(args, n) == Ok(rows)
    ensures rows[n - 1].date == args.ptfDates[n - 1]
    ensures Holds(args, args.ptfDates[n - 1], StateOf(rows[n - 1]))
    ensures Ledger(args, n + 1)
      == match Advance(args, args.ptfDates[n - 1], StateOf(rows[n - 1]), args.ptfDates[n])
         case Err(e) => Err(e)
         case Ok(row) => Ok(rows + [row])
  {
    var last := rows[n - 1];
    var e := Extend(args, rows, args.ptfDates[n]);
    assert Ledger(args, n + 1) == e;
    assert last.date == args.ptfDates[n - 1];
  }

  // ---- properties of a date ---------------------------------------------------------

  /** A held ticker still quoted ends with its capital scaled by the ratio
      of the two opens. */
  lemma MarkedCapIsRatio(cap: real, startPrice: real, endPrice: real)
    requires startPrice != 0.0
    ensures MarkedCap(cap, startPrice, endPrice) == cap * endPrice / startPrice
  {
  }

  /** The value of a book: positions, free cash and the fees paid so far. */
  ghost function Worth(b: Book): real {
    SumValues(b.caps) + b.freeCash + b.costs
  }

  /** Closing positions only moves value from the positions to the free
      cash and the fees. */
  lemma LiquidateWorth(b: Book, gone: set<string>, fee: real)
    requires gone <= b.caps.Keys
    ensures Worth(Liquidate(b, gone, fee)) == Worth(b)
  {
    var rest := b.caps.Keys - gone;
    SumOverSplit(rest, gone, b.caps);
    assert rest + gone == b.caps.Keys;
    assert (b.caps - gone).Keys == rest;
    SumOverAgree(rest, b.caps - gone, b.caps);
  }

  /** Buying spends the free cash on positions and fees. */
  lemma InvestWorth(b: Book, toBuy: set<string>, fee: real)
    requires toBuy !! b.caps.Keys
    ensures Worth(Invest(b, toBuy, fee)) == Worth(b)
  {
    if toBuy != {} {
      var n := |toBuy|;
      var share := Share(b.freeCash, n);
      AddedPositions(b.caps, toBuy, Net(share, fee));
      SpentInParts(n, b.freeCash, fee);
    }
  }

  /** The capital of new positions adds to the capital of the book. */
  lemma AddedPositions(caps: map<string, real>, names: set<string>, cap: real)
    requires names !! caps.Keys
    ensures SumValues(caps + Positions(names, cap)) == SumValues(caps) + Times(|names|, cap)
  {
    var all := caps + Positions(names, cap);
    assert all.Keys == caps.Keys + names;
    SumOverSplit(caps.Keys, names, all);
    SumOverAgree(caps.Keys, all, caps);
    SumOverSame(names, all, cap);
  }

  /** Net positions and fees of n equal parts of x add up to x. */
  lemma SpentInParts(n: nat, x: real, fee: real)
    requires n > 0
    ensures Times(n, Net(Share(x, n), fee)) + Times(n, FeeOn(Share(x, n), fee)) == x
  {
    var share := Share(x, n);
    TimesPlus(n, Net(share, fee), FeeOn(share, fee));
    assert Net(share, fee) + FeeOn(share, fee) == share;
    TimesPart(n, x);
  }

  /** Rebalancing moves to the fees exactly what the positions lose. */
  lemma RebalanceWorth(caps: map<string, real>, fee: real)
    requires |caps| > 0
    ensures SumValues(Rebalanced(caps, Mean(caps), fee)) + SumValues(Deviations(caps, Mean(caps), fee)) == SumValues(caps)
  {
    var mean := Mean(caps);
    var even := Positions(caps.Keys, mean);
    SumOverPlus(caps.Keys, even, Rebalanced(caps, mean, fee), Deviations(caps, mean, fee));
    SumOverSame(caps.Keys, even, mean);
    assert |caps.Keys| == |caps|;
    TimesPart(|caps|, SumValues(caps));
  }

  /** Replacement and rebalancing keep the value of the book: what the
      positions and the free cash lose is what the fees take. */
  lemma SettleWorth(args: Inputs, date: Date, held: set<string>, b: Book, ret: Option<real>)
    requires b.caps.Keys <= held
    requires Settle(args, date, held, b, ret).Ok?
    ensures Settle(args, date, held, b, ret).value.rebalTransCosts.Some?
    ensures var row := Settle(args, date, held, b, ret).value;
      row.nav + row.replaceTransCosts + row.rebalTransCosts.value == Worth(b)
  {
    var target := Target(args.membership, date);
    var gone := (held - target) * b.caps.Keys;
    var sold := Liquidate(b, gone, args.fee);
    LiquidateWorth(b, gone, args.fee);
    assert sold.caps.Keys <= held;
    InvestWorth(sold, target - held, args.fee);
    var replaced := Replace(b, held, target, args.fee);
    if args.isRebalanced && date in args.firstTradingDatesOfMonth {
      RebalanceWorth(replaced.caps, args.fee);
    }
  }

  /** Wealth conservation on a later date (lines 100-197, 238): the nav
      plus every fee of the date is the marked value of the still-quoted
      positions plus the capital of the delisted ones plus the free cash
      carried from the previous date. */
  lemma AdvanceConserves(args: Inputs, prev: Date, st: State, date: Date)
    requires Quoted(args) && Holds(args, prev, st)
    requires Advance(args, prev, st, date).Ok?
    ensures var trading := Trading(Elems(st.tickers), args.opens, date);
      (forall t :: t in trading ==> t in st.caps && t in args.opens && prev in args.opens[t] && date in args.opens[t] && args.opens[t][prev] != 0.0)
      && Elems(st.tickers) - trading <= st.caps.Keys
      && Advance(args, prev, st, date).value.rebalTransCosts.Some?
    ensures var trading := Trading(Elems(st.tickers), args.opens, date);
      var row := Advance(args, prev, st, date).value;
      row.nav + row.replaceTransCosts + row.rebalTransCosts.value
        == SumValues(MarkedCaps(trading, st.caps, args.opens, prev, date)) + SumOver(Elems(st.tickers) - trading, st.caps) + st.freeCash
  {
    HeldReady(args, prev, st);
    var held := Elems(st.tickers);
    var m := MarkSpec(held, st.caps, st.freeCash, args.opens, prev, date, args.fee).value;
    var b := m.book.(caps := m.newCaps);
    var ret := Returns.Change(SumValues(m.newCaps), SumValues(m.book.caps));
    AdvanceOk(args, prev, st, date, m);
    SettleWorth(args, date, held, b, ret);
  }

  /** Without a fee, selling and buying cost nothing. */
  lemma ReplaceZeroFee(b: Book, held: set<string>, target: set<string>)
    requires b.costs == 0.0
    ensures Replace(b, held, target, 0.0).costs == 0.0
  {
    var gone := (held - target) * b.caps.Keys;
    var sold := Liquidate(b, gone, 0.0);
    assert FeeOn(SumOver(gone, b.caps), 0.0) == 0.0;
    var toBuy := target - held;
    if toBuy != {} {
      assert FeeOn(Share(sold.freeCash, |toBuy|), 0.0) == 0.0;
      TimesZero(|toBuy|);
    }
  }

  /** Without a fee, a rebalancing costs nothing and every position
      becomes the mean. */
  lemma RebalanceZeroFee(caps: map<string, real>)
    requires |caps| > 0
    ensures SumValues(Deviations(caps, Mean(caps), 0.0)) == 0.0
    ensures forall t :: t in caps ==> Rebalanced(caps, Mean(caps), 0.0)[t] == Mean(caps)
    ensures SumValues(Rebalanced(caps, Mean(caps), 0.0)) == SumValues(caps)
  {
    var mean := Mean(caps);
    var dev := Deviations(caps, mean, 0.0);
    forall t | t in dev ensures dev[t] == 0.0 {
      assert FeeOn(Abs(caps[t] - mean), 0.0) == 0.0;
    }
    SumOverSame(dev.Keys, dev, 0.0);
    TimesZero(|dev.Keys|);
    RebalanceWorth(caps, 0.0);
    forall t | t in caps ensures Rebalanced(caps, mean, 0.0)[t] == mean {
      assert MoveCost(caps[t], mean, 0.0) == 0.0;
    }
  }

  /** The row of a later date, case by case. */
  lemma SettleCases(args: Inputs, date: Date, held: set<string>, b: Book, ret: Option<real>)
    requires Settle(args, date, held, b, ret).Ok?
    ensures var target := Target(args.membership, date);
      var replaced := Replace(b, held, target, args.fee);
      var row := Settle(args, date, held, b, ret).value;
      if args.isRebalanced && date in args.firstTradingDatesOfMonth then
        |replaced.caps| > 0 &&
        var rebalanced := Rebalanced(replaced.caps, Mean(replaced.caps), args.fee);
        row == Record(date, held, target, replaced.(caps := rebalanced), ret,
                      SumValues(Deviations(replaced.caps, Mean(replaced.caps), args.fee)), |replaced.caps|, SumValues(rebalanced))
      else
        row == Record(date, held, target, replaced, ret, 0.0, 0, SumValues(replaced.caps))
  {
  }

  /** Without a fee, replacement and rebalancing cost nothing, and a
      rebalancing leaves equal positions. */
  lemma SettleZeroFee(args: Inputs, date: Date, held: set<string>, b: Book, ret: Option<real>)
    requires args.fee == 0.0 && b.costs == 0.0
    requires Settle(args, date, held, b, ret).Ok?
    ensures var row := Settle(args, date, held, b, ret).value;
      row.replaceTransCosts == 0.0 && row.rebalTransCosts == Some(0.0)
    ensures var row := Settle(args, date, held, b, ret).value;
      args.isRebalanced && date in args.firstTradingDatesOfMonth ==>
        |row.caps| > 0 && forall t :: t in row.caps ==> row.caps[t] == Share(row.invested, |row.caps|)
  {
    var target := Target(args.membership, date);
    ReplaceZeroFee(b, held, target);
    SettleCases(args, date, held, b, ret);
    var replaced := Replace(b, held, target, args.fee);
    if args.isRebalanced && date in args.firstTradingDatesOfMonth {
      RebalanceZeroFee(replaced.caps);
      var rebalanced := Rebalanced(replaced.caps, Mean(replaced.caps), 0.0);
      assert |rebalanced.Keys| == |rebalanced| && |replaced.caps.Keys| == |replaced.caps|;
    }
  }

  /** Without a fee, no date pays anything: by `AdvanceConserves` its nav
      is then the marked value of the positions plus the delisted capital
      plus the previous free cash. */
  lemma AdvanceZeroFee(args: Inputs, prev: Date, st: State, date: Date)
    requires Quoted(args) && Holds(args, prev, st) && args.fee == 0.0
    requires Advance(args, prev, st, date).Ok?
    ensures var row := Advance(args, prev, st, date).value;
      row.replaceTransCosts == 0.0 && row.rebalTransCosts == Some(0.0)
    ensures var row := Advance(args, prev, st, date).value;
      args.isRebalanced && date in args.firstTradingDatesOfMonth ==>
        |row.caps| > 0 && forall t :: t in row.caps ==> row.caps[t] == Share(row.invested, |row.caps|)
  {
    HeldReady(args, prev, st);
    var held := Elems(st.tickers);
    var m := MarkSpec(held, st.caps, st.freeCash, args.opens, prev, date, args.fee).value;
    assert FeeOn(SumOver(held - Trading(held, args.opens, date), st.caps), 0.0) == 0.0;
    var ret := Returns.Change(SumValues(m.newCaps), SumValues(m.book.caps));
    AdvanceOk(args, prev, st, date, m);
    SettleZeroFee(args, date, held, m.book.(caps := m.newCaps), ret);
  }

  /** The shares of the positions add up to their total over `invested`. */
  lemma SharesSum(caps: map<string, real>, invested: real)
    requires invested != 0.0
    ensures SumValues(SharesOf(caps, invested)) == SumValues(caps) / invested
  {
    var shares := SharesOf(caps, invested);
    forall t | t in caps ensures shares[t] == (1.0 / invested) * caps[t] {
    }
    assert shares.Keys == caps.Keys;
    SumOverScale(caps.Keys, shares, caps, 1.0 / invested);
    assert SumValues(shares) == SumOver(caps.Keys, shares);
    assert SumOver(caps.Keys, shares) == (1.0 / invested) * SumValues(caps);
    ScaleIsDivision(SumValues(caps), invested);
  }

  lemma ScaleIsDivision(x: real, y: real)
    requires y != 0.0
    ensures (1.0 / y) * x == x / y
  {
  }

  lemma NetRatio(x: real, fee: real)
    requires x != 0.0
    ensures Net(x, fee) / x == 1.0 - fee
  {
    var q := Net(x, fee) / x;
    assert q * x == Net(x, fee);
    assert Net(x, fee) == x - x * fee;
    var d := q - (1.0 - fee);
    assert d * x == q * x - (x - x * fee);
    if d != 0.0 {
      assert false;
    }
  }

  /** A row records the sum of its positions as invested, and then its
      shares add up to one unless that sum is zero. */
  lemma RecordShares(date: Date, held: set<string>, target: set<string>, b: Book, ret: Option<real>, rebalCosts: real, rebalCount: nat)
    ensures var row := Record(date, held, target, b, ret, rebalCosts, rebalCount, SumValues(b.caps));
      row.invested == SumValues(row.caps) && row.nav == row.invested + row.freeCash
      && (row.invested != 0.0 ==> SumValues(row.shares) == 1.0)
  {
    var row := Record(date, held, target, b, ret, rebalCosts, rebalCount, SumValues(b.caps));
    assert row.caps == b.caps && row.shares == SharesOf(b.caps, SumValues(b.caps));
    if SumValues(b.caps) != 0.0 {
      SharesSum(b.caps, SumValues(b.caps));
      Returns.SelfRatio(SumValues(b.caps));
    }
  }

  /** On a later date `invested` is the sum of the positions, and the shares
      of a non-zero portfolio add up to one (lines 166, 176, 197, 207-216). */
  lemma AdvanceShares(args: Inputs, prev: Date, st: State, date: Date)
    requires Quoted(args) && Holds(args, prev, st)
    requires Advance(args, prev, st, date).Ok?
    ensures var row := Advance(args, prev, st, date).value;
      row.invested == SumValues(row.caps) && row.nav == row.invested + row.freeCash
    ensures var row := Advance(args, prev, st, date).value;
      row.invested != 0.0 ==> SumValues(row.shares) == 1.0
  {
    HeldReady(args, prev, st);
    var held := Elems(st.tickers);
    var m := MarkSpec(held, st.caps, st.freeCash, args.opens, prev, date, args.fee).value;
    var b := m.book.(caps := m.newCaps);
    var ret := Returns.Change(SumValues(m.newCaps), SumValues(m.book.caps));
    AdvanceOk(args, prev, st, date, m);
    SettleCases(args, date, held, b, ret);
    var target := Target(args.membership, date);
    var replaced := Replace(b, held, target, args.fee);
    if args.isRebalanced && date in args.firstTradingDatesOfMonth {
      var rebalanced := Rebalanced(replaced.caps, Mean(replaced.caps), args.fee);
      RecordShares(date, held, target, replaced.(caps := rebalanced), ret,
                   SumValues(Deviations(replaced.caps, Mean(replaced.caps), args.fee)), |replaced.caps|);
    } else {
      RecordShares(date, held, target, replaced, ret, 0.0, 0);
    }
  }

  /** n net parts of x are x net of the fee. */
  lemma PartsNet(n: nat, x: real, fee: real)
    requires n > 0
    ensures Times(n, Net(Share(x, n), fee)) == Net(x, fee)
  {
    var share := Share(x, n);
    TimesIsProduct(n, Net(share, fee));
    assert n as real * share == x;
    assert n as real * (share - share * fee) == n as real * share - (n as real * share) * fee;
  }

  lemma NetIsScaled(x: real, fee: real)
    ensures Net(x, fee) == x * (1.0 - fee)
  {
  }

  /** The first date (lines 35-76): every target name gets the same part
      of the initial capital net of the fee; the row counts the fees as
      invested, so its shares add up to one minus the fee. */
  lemma StartFacts(args: Inputs, date: Date)
    requires Start(args, date).Ok?
    ensures var n := |Target(args.membership, date)|; var row := Start(args, date).value;
      n > 0 && row.caps.Keys == Target(args.membership, date)
      && (forall t :: t in row.caps ==> row.caps[t] == Net(Share(args.initCapital, n), args.fee))
    ensures var row := Start(args, date).value;
      row.invested == args.initCapital && SumValues(row.caps) + row.replaceTransCosts == row.invested
      && row.freeCash == 0.0 && row.nav == row.invested
    ensures SumValues(Start(args, date).value.shares) == 1.0 - args.fee
  {
    var tickers := Target(args.membership, date);
    var n := |tickers|;
    var part := Net(Share(args.initCapital, n), args.fee);
    var caps := Positions(tickers, part);
    StartRow(args, date);
    var row := Start(args, date).value;
    assert row.caps == caps;
    StartSums(tickers, args.initCapital, args.fee);
  }

  lemma StartRow(args: Inputs, date: Date)
    requires Start(args, date).Ok?
    ensures var tickers := Target(args.membership, date);
      var caps := Positions(tickers, Net(Share(args.initCapital, |tickers|), args.fee));
      |tickers| > 0 && args.initCapital != 0.0 &&
      Start(args, date) == Ok(Row(date, args.initCapital, Some(0.0), 0.0, args.initCapital + 0.0, |tickers|, Sorted(tickers),
             0, |tickers|, |tickers|, FeeOn(args.initCapital, args.fee), None, None, None, Some(Sorted(tickers)),
             caps, SharesOf(caps, args.initCapital)))
  {
  }

  lemma StartSums(tickers: set<string>, init: real, fee: real)
    requires |tickers| > 0 && init != 0.0
    ensures var caps := Positions(tickers, Net(Share(init, |tickers|), fee));
      SumValues(caps) + FeeOn(init, fee) == init && SumValues(SharesOf(caps, init)) == 1.0 - fee
  {
    var part := Net(Share(init, |tickers|), fee);
    var caps := Positions(tickers, part);
    SumOverSame(tickers, caps, part);
    PartsNet(|tickers|, init, fee);
    SharesSum(caps, init);
    NetRatio(init, fee);
  }

  /** Every position and the free cash are non-negative. */
  ghost predicate NonNegativeBook(b: Book) {
    b.freeCash >= 0.0 && b.costs >= 0.0 && forall t :: t in b.caps ==> b.caps[t] >= 0.0
  }

  lemma FeeNonNegative(amount: real, fee: real)
    requires amount >= 0.0 && 0.0 <= fee <= 1.0
    ensures 0.0 <= FeeOn(amount, fee) <= amount
  {
  }

  /** Closing non-negative positions at a fee of at most 100% keeps the
      book non-negative. */
  lemma LiquidateNonNegative(b: Book, gone: set<string>, fee: real)
    requires gone <= b.caps.Keys && NonNegativeBook(b) && 0.0 <= fee <= 1.0
    ensures NonNegativeBook(Liquidate(b, gone, fee))
  {
    SumOverNonNegative(gone, b.caps);
    FeeNonNegative(SumOver(gone, b.caps), fee);
  }

  lemma InvestNonNegative(b: Book, toBuy: set<string>, fee: real)
    requires NonNegativeBook(b) && 0.0 <= fee <= 1.0
    ensures NonNegativeBook(Invest(b, toBuy, fee))
  {
    if toBuy != {} {
      var share := Share(b.freeCash, |toBuy|);
      assert share >= 0.0;
      FeeNonNegative(share, fee);
      TimesNonNegative(|toBuy|, FeeOn(share, fee));
      var caps := b.caps + Positions(toBuy, Net(share, fee));
      assert forall t :: t in caps ==> caps[t] >= 0.0;
    }
  }

  lemma DeviationsNonNegative(caps: map<string, real>, mean: real, fee: real)
    requires fee >= 0.0
    ensures SumValues(Deviations(caps, mean, fee)) >= 0.0
  {
    var dev := Deviations(caps, mean, fee);
    forall t | t in dev ensures dev[t] >= 0.0 {
      assert Abs(caps[t] - mean) >= 0.0;
    }
    SumOverNonNegative(dev.Keys, dev);
  }

  /** With a fee between 0 and 100% and a non-negative book, replacement
      and rebalancing costs are non-negative. */
  lemma SettleCostsNonNegative(args: Inputs, date: Date, held: set<string>, b: Book, ret: Option<real>)
    requires NonNegativeBook(b) && 0.0 <= args.fee <= 1.0
    requires Settle(args, date, held, b, ret).Ok?
    ensures var row := Settle(args, date, held, b, ret).value;
      row.replaceTransCosts >= 0.0 && row.rebalTransCosts.Some? && row.rebalTransCosts.value >= 0.0
  {
    var target := Target(args.membership, date);
    var gone := (held - target) * b.caps.Keys;
    LiquidateNonNegative(b, gone, args.fee);
    InvestNonNegative(Liquidate(b, gone, args.fee), target - held, args.fee);
    SettleCases(args, date, held, b, ret);
    var replaced := Replace(b, held, target, args.fee);
    if args.isRebalanced && date in args.firstTradingDatesOfMonth {
      DeviationsNonNegative(replaced.caps, Mean(replaced.caps), args.fee);
    }
  }

  /** A position marked with non-negative opens stays non-negative. */
  lemma MarkedNonNegative(cap: real, startPrice: real, endPrice: real)
    requires cap >= 0.0 && startPrice > 0.0 && endPrice >= 0.0
    ensures MarkedCap(cap, startPrice, endPrice) >= 0.0
  {
    MarkedCapIsRatio(cap, startPrice, endPrice);
    assert cap * endPrice >= 0.0;
  }

  /** With non-negative opens, positions and free cash, and a fee between 0
      and 100%, no date pays a negative fee. */
  lemma AdvanceCostsNonNegative(args: Inputs, prev: Date, st: State, date: Date)
    requires Quoted(args) && Holds(args, prev, st) && 0.0 <= args.fee <= 1.0
    requires forall t, d :: t in args.opens && d in args.opens[t] ==> args.opens[t][d] >= 0.0
    requires st.freeCash >= 0.0 && forall t :: t in st.caps ==> st.caps[t] >= 0.0
    requires Advance(args, prev, st, date).Ok?
    ensures var row := Advance(args, prev, st, date).value;
      row.replaceTransCosts >= 0.0 && row.rebalTransCosts.Some? && row.rebalTransCosts.value >= 0.0
  {
    HeldReady(args, prev, st);
    var held := Elems(st.tickers);
    var m := MarkSpec(held, st.caps, st.freeCash, args.opens, prev, date, args.fee).value;
    var trading := Trading(held, args.opens, date);
    LiquidateNonNegative(Book(st.caps, st.freeCash, 0.0, 0), held - trading, args.fee);
    forall t | t in m.newCaps ensures m.newCaps[t] >= 0.0 {
      MarkedNonNegative(st.caps[t], args.opens[t][prev], args.opens[t][date]);
    }
    var ret := Returns.Change(SumValues(m.newCaps), SumValues(m.book.caps));
    AdvanceOk(args, prev, st, date, m);
    SettleCostsNonNegative(args, date, held, m.book.(caps := m.newCaps), ret);
  }
}
