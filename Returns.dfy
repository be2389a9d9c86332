/** Percent changes of a series (pandas `pct_change`), their compounded
    product (`(1 + r).prod()`, `(1 + r).cumprod()`, which skip undefined
    values) and the selection of a series at given labels (`.loc[list]`). */
module Returns {
  import opened Wrappers
  import opened Seqs

  /** `x / base - 1`; a zero base gives an infinite or NaN value in pandas,
      undefined here. */
  function Change(x: real, base: real): (r: Option<real>)
    ensures r.None? <==> base == 0.0
    ensures r.Some? ==> (r.value + 1.0) * base == x
  {
    if base == 0.0 then None else Some(x / base - 1.0)
  }

  /** `pct_change()`: undefined at the first position, then each value
      against the one before it. */
  function PctChange(v: seq<real>): (r: seq<Option<real>>)
    ensures |r| == |v|
    ensures |v| > 0 ==> r[0].None?
    ensures forall i :: 0 < i < |v| ==> (r[i].None? <==> v[i - 1] == 0.0)
    ensures forall i :: 0 < i < |v| && r[i].Some? ==> (r[i].value + 1.0) * v[i - 1] == v[i]
  {
    seq(|v|, i requires 0 <= i < |v| => if i == 0 then None else Change(v[i], v[i - 1]))
  }

  /** Only the values up to a position matter for the changes up to it. */
  lemma PctChangePrefix(v: seq<real>, k: nat)
    requires k <= |v|
    ensures PctChange(v)[..k] == PctChange(v[..k])
  {
  }

  /** The growth factor `1 + r`; an undefined change is skipped. */
  function Growth(x: Option<real>): real {
    match x
    case None => 1.0
    case Some(r) => 1.0 + r
  }

  /** `(1 + r).prod()` with pandas' default of skipping NaN. */
  function GrowthProduct(s: seq<Option<real>>): real {
    if |s| == 0 then 1.0 else GrowthProduct(s[..|s| - 1]) * Growth(s[|s| - 1])
  }

  /** One more factor `c / b` after a product equal to `b / a`. */
  lemma TelescopeStep(s: seq<Option<real>>, x: Option<real>, a: real, b: real, c: real)
    requires a != 0.0 && b != 0.0
    requires GrowthProduct(s) == b / a && Growth(x) == c / b
    ensures GrowthProduct(s + [x]) == c / a
  {
    GrowthProductAppend(s, x);
    var p, g := GrowthProduct(s), Growth(x);
    assert p * g == (b / a) * (c / b);
  }

  /** The growth factor of a defined change is the ratio of the values. */
  lemma ChangeGrowth(x: real, base: real)
    requires base != 0.0
    ensures Growth(Change(x, base)) == x / base
  {
  }

  lemma SelfRatio(x: real)
    requires x != 0.0
    ensures x / x == 1.0
  {
  }

  /** Compounding the changes of a series without zeros telescopes to the
      ratio of its last and first values. */
  lemma {:induction false} GrowthTelescopes(v: seq<real>, k: nat)
    requires 1 <= k <= |v|
    requires forall i :: 0 <= i < |v| ==> v[i] != 0.0
    ensures GrowthProduct(PctChange(v)[..k]) == v[k - 1] / v[0]
  {
    var r := PctChange(v);
    if k == 1 {
      assert r[..1][..0] == [];
      SelfRatio(v[0]);
    } else {
      GrowthTelescopes(v, k - 1);
      assert r[..k] == r[..k - 1] + [r[k - 1]];
      assert r[k - 1] == Change(v[k - 1], v[k - 2]);
      ChangeGrowth(v[k - 1], v[k - 2]);
      TelescopeStep(r[..k - 1], r[k - 1], v[0], v[k - 2], v[k - 1]);
    }
  }

  /** An undefined change does not move the product. */
  lemma GrowthProductAppend(s: seq<Option<real>>, x: Option<real>)
    ensures GrowthProduct(s + [x]) == GrowthProduct(s) * Growth(x)
  {
    assert (s + [x])[..|s|] == s;
  }

  /** The position of a label in a list of distinct labels. */
  function IndexOf<T(==)>(labels: seq<T>, x: T): (i: nat)
    requires x in labels
    ensures i < |labels| && labels[i] == x
    ensures forall j :: 0 <= j < i ==> labels[j] != x
  {
    if labels[0] == x then 0 else 1 + IndexOf(labels[1..], x)
  }

  /** `series.loc[selected]`: the values at the selected labels, in the
      order of the selection; a missing label is a `KeyError` (None). */
  function Select<T(==)>(labels: seq<T>, values: seq<real>, selected: seq<T>): (r: Option<seq<real>>)
    requires |labels| == |values|
    ensures r.None? <==> exists k :: 0 <= k < |selected| && selected[k] !in labels
    ensures r.Some? ==> |r.value| == |selected|
    ensures r.Some? ==> forall k :: 0 <= k < |selected| ==>
      selected[k] in labels && r.value[k] == values[IndexOf(labels, selected[k])]
  {
    if forall k :: 0 <= k < |selected| ==> selected[k] in labels then
      Some(seq(|selected|, k requires 0 <= k < |selected| => values[IndexOf(labels, selected[k])]))
    else None
  }

  /** `series.loc[selected].pct_change()`: the change from one selected
      label to the next. */
  function PeriodReturns<T(==)>(labels: seq<T>, values: seq<real>, selected: seq<T>): (r: Option<seq<Option<real>>>)
    requires |labels| == |values|
    ensures r.None? <==> exists k :: 0 <= k < |selected| && selected[k] !in labels
    ensures r.Some? ==> |r.value| == |selected| && (|selected| > 0 ==> r.value[0].None?)
    ensures r.Some? ==> forall k :: 0 < k < |selected| ==>
      r.value[k] == Change(values[IndexOf(labels, selected[k])], values[IndexOf(labels, selected[k - 1])])
  {
    match Select(labels, values, selected)
    case None => None
    case Some(v) => Some(PctChange(v))
  }
}
