/** The earnings–sales–relative-strength ranking of one rank date and of a
    whole ranking history (`compute_ranked_data`). */
module EsrRank {
  import opened Wrappers
  import opened Seqs
  import opened AverageRank

  /** Technical-indicator columns, present only when they were computed. */
  datatype Tech = Tech(intervalReturns: Option<real>, sma: Option<real>, rsiFast: Option<real>, isSmaBelow: Option<real>)

  /** The factor columns of one stock; None is NaN. */
  datatype Factors = Factors(
    epsGrowth: Option<real>, epsGrowthAcceleration: Option<real>,
    meanSalesGrowth: Option<real>, salesGrowthAcceleration: Option<real>,
    lq0Perf: Option<real>, lq1Perf: Option<real>,
    tech: Option<Tech>)

  /** The factor columns after missing values were replaced by zero. */
  datatype Filled = Filled(
    epsGrowth: real, epsGrowthAcceleration: real,
    meanSalesGrowth: real, salesGrowthAcceleration: real,
    lq0Perf: real, lq1Perf: real,
    tech: Option<Tech>)

  datatype Weights = Weights(
    epsGrowth: real, epsGrowthAcceleration: real,
    meanSalesGrowth: real, salesGrowthAcceleration: real,
    lq0Perf: real, lq1Perf: real,
    epsRank: real, salesRank: real, priceRank: real)

  datatype Stock = Stock(ticker: string, factors: Factors)

  datatype RankedStock = RankedStock(
    ticker: string, factors: Filled,
    epsRank: real, salesRank: real, priceRank: real, rank: real)

  datatype RankError = EmptyPeriod(date: string)

  datatype Column = EpsGrowth | EpsGrowthAcceleration | MeanSalesGrowth | SalesGrowthAcceleration | Lq0Perf | Lq1Perf

  /** The three sub-ranks, each built from a pair of factor columns. */
  datatype Group = Eps | Sales | Price

  function Zeroed(x: Option<real>): (r: real)
    ensures x.None? ==> r == 0.0
    ensures x.Some? ==> r == x.value
  {
    x.GetOr(0.0)
  }

  /** `fillna(0)` on the first nine columns: the six factors and the first
      three technical columns; `is_sma_below`, the tenth, stays as it is. */
  function Fill(f: Factors): (r: Filled)
    ensures r.epsGrowth == Zeroed(f.epsGrowth) && r.epsGrowthAcceleration == Zeroed(f.epsGrowthAcceleration)
    ensures r.meanSalesGrowth == Zeroed(f.meanSalesGrowth) && r.salesGrowthAcceleration == Zeroed(f.salesGrowthAcceleration)
    ensures r.lq0Perf == Zeroed(f.lq0Perf) && r.lq1Perf == Zeroed(f.lq1Perf)
    ensures r.tech.Some? <==> f.tech.Some?
    ensures r.tech.Some? ==>
      var t := f.tech.value;
      r.tech.value == Tech(Some(Zeroed(t.intervalReturns)), Some(Zeroed(t.sma)), Some(Zeroed(t.rsiFast)), t.isSmaBelow)
  {
    Filled(Zeroed(f.epsGrowth), Zeroed(f.epsGrowthAcceleration),
           Zeroed(f.meanSalesGrowth), Zeroed(f.salesGrowthAcceleration),
           Zeroed(f.lq0Perf), Zeroed(f.lq1Perf),
           match f.tech
           case None => None
           case Some(t) => Some(Tech(Some(Zeroed(t.intervalReturns)), Some(Zeroed(t.sma)), Some(Zeroed(t.rsiFast)), t.isSmaBelow)))
  }

  function Field(c: Column, x: Filled): real {
    match c
    case EpsGrowth => x.epsGrowth
    case EpsGrowthAcceleration => x.epsGrowthAcceleration
    case MeanSalesGrowth => x.meanSalesGrowth
    case SalesGrowthAcceleration => x.salesGrowthAcceleration
    case Lq0Perf => x.lq0Perf
    case Lq1Perf => x.lq1Perf
  }

  function Weight(w: Weights, c: Column): real {
    match c
    case EpsGrowth => w.epsGrowth
    case EpsGrowthAcceleration => w.epsGrowthAcceleration
    case MeanSalesGrowth => w.meanSalesGrowth
    case SalesGrowthAcceleration => w.salesGrowthAcceleration
    case Lq0Perf => w.lq0Perf
    case Lq1Perf => w.lq1Perf
  }

  function GroupWeight(w: Weights, g: Group): real {
    match g
    case Eps => w.epsRank
    case Sales => w.salesRank
    case Price => w.priceRank
  }

  function First(g: Group): Column {
    match g
    case Eps => EpsGrowth
    case Sales => MeanSalesGrowth
    case Price => Lq0Perf
  }

  function Second(g: Group): Column {
    match g
    case Eps => EpsGrowthAcceleration
    case Sales => SalesGrowthAcceleration
    case Price => Lq1Perf
  }

  /** One column of the period's table. */
  function Col(fs: seq<Filled>, c: Column): (r: seq<real>)
    ensures |r| == |fs|
  {
    seq(|fs|, i requires 0 <= i < |fs| => Field(c, fs[i]))
  }

  /** Element-wise `x * c` of a series. */
  function Scaled(x: seq<real>, c: real): (r: seq<real>)
    ensures |r| == |x| && forall i :: 0 <= i < |x| ==> r[i] == x[i] * c
  {
    seq(|x|, i requires 0 <= i < |x| => x[i] * c)
  }

  /** Element-wise sum of two aligned series. */
  function Plus(x: seq<real>, y: seq<real>): (r: seq<real>)
    requires |x| == |y|
    ensures |r| == |x| && forall i :: 0 <= i < |x| ==> r[i] == x[i] + y[i]
  {
    seq(|x|, i requires 0 <= i < |x| => x[i] + y[i])
  }

  /** `rank(a) * w_a + rank(b) * w_b` for the two columns of group g. */
  function SubScores(fs: seq<Filled>, w: Weights, g: Group): (r: seq<real>)
    ensures |r| == |fs|
  {
    Plus(Scaled(Rank(Col(fs, First(g))), Weight(w, First(g))),
         Scaled(Rank(Col(fs, Second(g))), Weight(w, Second(g))))
  }

  /** The eps_rank, sales_rank or price_rank column. */
  function SubRanks(fs: seq<Filled>, w: Weights, g: Group): (r: seq<real>)
    ensures |r| == |fs|
  {
    Rank(SubScores(fs, w, g))
  }

  /** `rank(eps_rank) * w + rank(sales_rank) * w + rank(price_rank) * w`. */
  function CompositeScores(fs: seq<Filled>, w: Weights): (r: seq<real>)
    ensures |r| == |fs|
  {
    Plus(Plus(Scaled(Rank(SubRanks(fs, w, Eps)), w.epsRank),
              Scaled(Rank(SubRanks(fs, w, Sales)), w.salesRank)),
         Scaled(Rank(SubRanks(fs, w, Price)), w.priceRank))
  }

  /** The composite `rank` column. */
  function CompositeRanks(fs: seq<Filled>, w: Weights): (r: seq<real>)
    ensures |r| == |fs|
  {
    Rank(CompositeScores(fs, w))
  }

  function Table(stocks: seq<Stock>): (r: seq<Filled>)
    ensures |r| == |stocks|
  {
    seq(|stocks|, i requires 0 <= i < |stocks| => Fill(stocks[i].factors))
  }

  function Rows(stocks: seq<Stock>, w: Weights): (r: seq<RankedStock>)
    ensures |r| == |stocks|
  {
    var fs := Table(stocks);
    var e := SubRanks(fs, w, Eps);
    var s := SubRanks(fs, w, Sales);
    var p := SubRanks(fs, w, Price);
    Assemble(stocks, fs, e, s, p, CompositeRanks(fs, w))
  }

  /** The output table: the filled factor columns joined with the four
      rank columns on the ticker index. */
  function Assemble(stocks: seq<Stock>, fs: seq<Filled>, e: seq<real>, s: seq<real>, p: seq<real>, c: seq<real>)
    : (r: seq<RankedStock>)
    requires |fs| == |e| == |s| == |p| == |c| == |stocks|
    ensures |r| == |stocks|
    ensures forall i :: 0 <= i < |stocks| ==> r[i] == RankedStock(stocks[i].ticker, fs[i], e[i], s[i], p[i], c[i])
  {
    seq(|stocks|, i requires 0 <= i < |stocks| => RankedStock(stocks[i].ticker, fs[i], e[i], s[i], p[i], c[i]))
  }

  /** One rank date: a period with no stock has no factor column at all and
      fails on the first column lookup. */
  function RankPeriod(date: string, stocks: seq<Stock>, w: Weights): (r: Result<seq<RankedStock>, RankError>)
    ensures r.Err? <==> |stocks| == 0
    ensures r.Err? ==> r.error == EmptyPeriod(date)
    ensures r.Ok? ==> |r.value| == |stocks|
    ensures r.Ok? ==> forall i :: 0 <= i < |stocks| ==>
      r.value[i].ticker == stocks[i].ticker && r.value[i].factors == Fill(stocks[i].factors)
  {
    if |stocks| == 0 then Err(EmptyPeriod(date)) else Ok(Rows(stocks, w))
  }

  /** The loop over rank dates: every period is ranked on its own and the
      output keeps the period keys, in order. */
  method ComputeRankedData(periods: seq<(string, seq<Stock>)>, w: Weights)
    returns (r: Result<seq<(string, seq<RankedStock>)>, RankError>)
    ensures r.Ok? <==> forall i :: 0 <= i < |periods| ==> |periods[i].1| > 0
    ensures r.Err? ==> exists i :: 0 <= i < |periods| && |periods[i].1| == 0 && r.error == EmptyPeriod(periods[i].0)
    ensures r.Ok? ==> |r.value| == |periods| && forall i :: 0 <= i < |periods| ==>
      r.value[i].0 == periods[i].0 && RankPeriod(periods[i].0, periods[i].1, w) == Ok(r.value[i].1)
  {
    var out: seq<(string, seq<RankedStock>)> := [];
    var n := 0;
    while n < |periods|
      invariant 0 <= n <= |periods| && |out| == n
      invariant forall i :: 0 <= i < n ==> |periods[i].1| > 0
      invariant forall i :: 0 <= i < n ==>
        out[i].0 == periods[i].0 && RankPeriod(periods[i].0, periods[i].1, w) == Ok(out[i].1)
    {
      var ranked := RankPeriod(periods[n].0, periods[n].1, w);
      if ranked.Err? {
        return Err(ranked.error);
      }
      out := out + [(periods[n].0, ranked.value)];
      n := n + 1;
    }
    return Ok(out);
  }

  // ---- properties -------------------------------------------------------

  /** Every sub-rank and the composite rank lie in [1, n]. */
  lemma RanksBounded(stocks: seq<Stock>, w: Weights, i: nat)
    requires i < |stocks|
    ensures var x := Rows(stocks, w)[i];
      1.0 <= x.epsRank <= |stocks| as real && 1.0 <= x.salesRank <= |stocks| as real &&
      1.0 <= x.priceRank <= |stocks| as real && 1.0 <= x.rank <= |stocks| as real
  {
    var fs := Table(stocks);
    RankBounds(SubScores(fs, w, Eps), i);
    RankBounds(SubScores(fs, w, Sales), i);
    RankBounds(SubScores(fs, w, Price), i);
    RankBounds(CompositeScores(fs, w), i);
  }

  /** Ranking a sub-rank column again returns it unchanged, so the
      composite score combines the sub-ranks themselves. */
  lemma CompositeOfSubRanks(fs: seq<Filled>, w: Weights, i: nat)
    requires i < |fs|
    ensures CompositeScores(fs, w)[i]
         == SubRanks(fs, w, Eps)[i] * w.epsRank + SubRanks(fs, w, Sales)[i] * w.salesRank
          + SubRanks(fs, w, Price)[i] * w.priceRank
  {
    SubRanksIdempotent(fs, w, Eps);
    SubRanksIdempotent(fs, w, Sales);
    SubRanksIdempotent(fs, w, Price);
    CombineFixedAt(SubRanks(fs, w, Eps), SubRanks(fs, w, Sales), SubRanks(fs, w, Price),
                   w.epsRank, w.salesRank, w.priceRank, i);
  }

  lemma CombineFixedAt(a: seq<real>, b: seq<real>, c: seq<real>, x: real, y: real, z: real, i: nat)
    requires |a| == |b| == |c| && i < |a|
    requires Rank(a) == a && Rank(b) == b && Rank(c) == c
    ensures Plus(Plus(Scaled(Rank(a), x), Scaled(Rank(b), y)), Scaled(Rank(c), z))[i] == a[i] * x + b[i] * y + c[i] * z
  {
    PlusScaledAt(a, b, c, x, y, z, i);
  }

  lemma CompositeScoresAt(fs: seq<Filled>, w: Weights, i: nat)
    requires i < |fs|
    ensures CompositeScores(fs, w)[i]
         == Rank(SubRanks(fs, w, Eps))[i] * w.epsRank + Rank(SubRanks(fs, w, Sales))[i] * w.salesRank
          + Rank(SubRanks(fs, w, Price))[i] * w.priceRank
  {
    PlusScaledAt(Rank(SubRanks(fs, w, Eps)), Rank(SubRanks(fs, w, Sales)), Rank(SubRanks(fs, w, Price)),
                 w.epsRank, w.salesRank, w.priceRank, i);
  }

  lemma SubRanksIdempotent(fs: seq<Filled>, w: Weights, g: Group)
    ensures Rank(SubRanks(fs, w, g)) == SubRanks(fs, w, g)
  {
    RankIdempotent(SubScores(fs, w, g));
  }

  lemma PlusScaledAt(a: seq<real>, b: seq<real>, c: seq<real>, x: real, y: real, z: real, i: nat)
    requires |a| == |b| == |c| && i < |a|
    ensures Plus(Plus(Scaled(a, x), Scaled(b, y)), Scaled(c, z))[i] == a[i] * x + b[i] * y + c[i] * z
  {
  }

  /** With every group weight zero, all stocks tie at (n + 1) / 2. */
  lemma AllZeroWeightsTie(stocks: seq<Stock>, w: Weights, i: nat)
    requires w.epsRank == 0.0 && w.salesRank == 0.0 && w.priceRank == 0.0
    requires i < |stocks|
    ensures Rows(stocks, w)[i].rank == (|stocks| as real + 1.0) / 2.0
  {
    RankConstant(CompositeScores(Table(stocks), w), 0.0, i);
  }

  /** A zero sales weight makes the composite rank independent of the sales
      factors: two periods that differ only there rank alike. */
  lemma ZeroSalesWeightIgnoresSales(s: seq<Stock>, t: seq<Stock>, w: Weights)
    requires w.salesRank == 0.0
    requires |s| == |t|
    requires forall k :: 0 <= k < |s| ==>
      var a := s[k].factors; var b := t[k].factors;
      a.epsGrowth == b.epsGrowth && a.epsGrowthAcceleration == b.epsGrowthAcceleration &&
      a.lq0Perf == b.lq0Perf && a.lq1Perf == b.lq1Perf
    ensures forall i :: 0 <= i < |s| ==> Rows(s, w)[i].rank == Rows(t, w)[i].rank
  {
    var fs := Table(s);
    var gs := Table(t);
    assert Col(fs, EpsGrowth) == Col(gs, EpsGrowth);
    assert Col(fs, EpsGrowthAcceleration) == Col(gs, EpsGrowthAcceleration);
    assert Col(fs, Lq0Perf) == Col(gs, Lq0Perf);
    assert Col(fs, Lq1Perf) == Col(gs, Lq1Perf);
    SameColumnsSameSubRanks(fs, gs, w, Eps);
    SameColumnsSameSubRanks(fs, gs, w, Price);
    ZeroScaled(Rank(SubRanks(fs, w, Sales)), Rank(SubRanks(gs, w, Sales)), w.salesRank);
    assert CompositeScores(fs, w) == CompositeScores(gs, w);
  }

  lemma SameColumnsSameSubRanks(fs: seq<Filled>, gs: seq<Filled>, w: Weights, g: Group)
    requires |fs| == |gs| && Col(fs, First(g)) == Col(gs, First(g)) && Col(fs, Second(g)) == Col(gs, Second(g))
    ensures SubRanks(fs, w, g) == SubRanks(gs, w, g)
  {
  }

  lemma ZeroScaled(x: seq<real>, y: seq<real>, c: real)
    requires |x| == |y| && c == 0.0
    ensures Scaled(x, c) == Scaled(y, c)
  {
    assert forall i :: 0 <= i < |x| ==> Scaled(x, c)[i] == 0.0 == Scaled(y, c)[i];
  }

  /** `v` with the elements at i and j exchanged. */
  function Swap<T>(v: seq<T>, i: nat, j: nat): (r: seq<T>)
    requires i < |v| && j < |v|
    ensures |r| == |v|
    ensures forall k :: 0 <= k < |v| ==> r[k] == if k == j then v[i] else if k == i then v[j] else v[k]
  {
    v[i := v[j]][j := v[i]]
  }

  lemma SwapMultiset<T>(v: seq<T>, i: nat, j: nat)
    requires i < |v| && j < |v|
    ensures multiset(Swap(v, i, j)) == multiset(v)
  {
  }

  lemma RankSwap(v: seq<real>, i: nat, j: nat)
    requires i < |v| && j < |v|
    ensures Rank(Swap(v, i, j)) == Swap(Rank(v), i, j)
  {
    SwapMultiset(v, i, j);
    forall k | 0 <= k < |v| ensures Rank(Swap(v, i, j))[k] == Swap(Rank(v), i, j)[k] {
      RankOfMultiset(Swap(v, i, j), v, Swap(v, i, j)[k]);
    }
  }

  lemma ColSwap(fs: seq<Filled>, c: Column, i: nat, j: nat)
    requires i < |fs| && j < |fs|
    ensures Col(Swap(fs, i, j), c) == Swap(Col(fs, c), i, j)
  {
  }

  lemma ScaledSwap(a: seq<real>, x: real, i: nat, j: nat)
    requires i < |a| && j < |a|
    ensures Scaled(Swap(a, i, j), x) == Swap(Scaled(a, x), i, j)
  {
    forall k | 0 <= k < |a| ensures Scaled(Swap(a, i, j), x)[k] == Swap(Scaled(a, x), i, j)[k] {
      if k == j {
        assert Swap(a, i, j)[k] == a[i];
      } else if k == i {
        assert Swap(a, i, j)[k] == a[j];
      }
    }
  }

  lemma PlusSwap(a: seq<real>, b: seq<real>, i: nat, j: nat)
    requires |a| == |b| && i < |a| && j < |a|
    ensures Plus(Swap(a, i, j), Swap(b, i, j)) == Swap(Plus(a, b), i, j)
  {
  }

  lemma PlusScaledSwap(a: seq<real>, b: seq<real>, x: real, y: real, i: nat, j: nat)
    requires |a| == |b| && i < |a| && j < |a|
    ensures Plus(Scaled(Swap(a, i, j), x), Scaled(Swap(b, i, j), y)) == Swap(Plus(Scaled(a, x), Scaled(b, y)), i, j)
  {
    ScaledSwap(a, x, i, j);
    ScaledSwap(b, y, i, j);
    PlusSwap(Scaled(a, x), Scaled(b, y), i, j);
  }

  lemma SubScoresSwap(fs: seq<Filled>, w: Weights, g: Group, i: nat, j: nat)
    requires i < |fs| && j < |fs|
    ensures SubScores(Swap(fs, i, j), w, g) == Swap(SubScores(fs, w, g), i, j)
  {
    ColSwap(fs, First(g), i, j);
    ColSwap(fs, Second(g), i, j);
    RankSwap(Col(fs, First(g)), i, j);
    RankSwap(Col(fs, Second(g)), i, j);
    PlusScaledSwap(Rank(Col(fs, First(g))), Rank(Col(fs, Second(g))), Weight(w, First(g)), Weight(w, Second(g)), i, j);
  }

  lemma SubRanksSwap(fs: seq<Filled>, w: Weights, g: Group, i: nat, j: nat)
    requires i < |fs| && j < |fs|
    ensures SubRanks(Swap(fs, i, j), w, g) == Swap(SubRanks(fs, w, g), i, j)
    ensures Rank(SubRanks(Swap(fs, i, j), w, g)) == Swap(Rank(SubRanks(fs, w, g)), i, j)
  {
    SubScoresSwap(fs, w, g, i, j);
    RankSwap(SubScores(fs, w, g), i, j);
    RankSwap(SubRanks(fs, w, g), i, j);
  }

  /** Exchanging two stocks of a period exchanges their ranked rows and
      leaves every other row as it was; any reordering is a sequence of
      such exchanges. */
  lemma RowsSwap(stocks: seq<Stock>, w: Weights, i: nat, j: nat)
    requires i < |stocks| && j < |stocks|
    ensures Rows(Swap(stocks, i, j), w) == Swap(Rows(stocks, w), i, j)
  {
    var fs := Table(stocks);
    assert Table(Swap(stocks, i, j)) == Swap(fs, i, j);
    SubRanksSwap(fs, w, Eps, i, j);
    SubRanksSwap(fs, w, Sales, i, j);
    SubRanksSwap(fs, w, Price, i, j);
    CompositeSwap(fs, w, i, j);
    RankSwap(CompositeScores(fs, w), i, j);
    AssembleSwap(stocks, fs, SubRanks(fs, w, Eps), SubRanks(fs, w, Sales), SubRanks(fs, w, Price),
                 CompositeRanks(fs, w), i, j);
  }

  lemma AssembleSwap(stocks: seq<Stock>, fs: seq<Filled>, e: seq<real>, s: seq<real>, p: seq<real>, c: seq<real>, i: nat, j: nat)
    requires |fs| == |e| == |s| == |p| == |c| == |stocks|
    requires i < |stocks| && j < |stocks|
    ensures Assemble(Swap(stocks, i, j), Swap(fs, i, j), Swap(e, i, j), Swap(s, i, j), Swap(p, i, j), Swap(c, i, j))
         == Swap(Assemble(stocks, fs, e, s, p, c), i, j)
  {
  }

  lemma CompositeSwap(fs: seq<Filled>, w: Weights, i: nat, j: nat)
    requires i < |fs| && j < |fs|
    ensures CompositeScores(Swap(fs, i, j), w) == Swap(CompositeScores(fs, w), i, j)
  {
    SubRanksSwap(fs, w, Eps, i, j);
    SubRanksSwap(fs, w, Sales, i, j);
    SubRanksSwap(fs, w, Price, i, j);
    var e := Rank(SubRanks(fs, w, Eps));
    var s := Rank(SubRanks(fs, w, Sales));
    var p := Rank(SubRanks(fs, w, Price));
    PlusScaledSwap(e, s, w.epsRank, w.salesRank, i, j);
    ScaledSwap(p, w.priceRank, i, j);
    PlusSwap(Plus(Scaled(e, w.epsRank), Scaled(s, w.salesRank)), Scaled(p, w.priceRank), i, j);
  }
}
