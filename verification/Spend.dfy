/** Laying money onto the monthly programme: an amount spread over consecutive months by a list of weights. */
module Spend {
  import opened Numbers

  /** `amount * weights[i]` falls in month `start + i` (months are 1-based; entry 0 of a series is unused). */
  datatype Spread = Spread(amount: real, start: nat, weights: seq<real>) {
    /** Every month it touches is inside a series of `size` entries, and none is month 0. */
    ghost predicate Fits(size: nat) {
      1 <= start && start + |weights| <= size
    }

    ghost predicate NonNegativeWeights() {
      forall i :: 0 <= i < |weights| ==> weights[i] >= 0.0
    }
  }

  /** The series after the first `k` months of a spread have been added to it. */
  function AddMonths(s: seq<real>, x: Spread, k: nat): (t: seq<real>)
    requires k <= |x.weights|
    ensures |t| == |s|
  {
    seq(|s|, m requires 0 <= m < |s| =>
      if x.start <= m < x.start + k then s[m] + Times(x.amount, x.weights[m - x.start]) else s[m])
  }

  function AddSpread(s: seq<real>, x: Spread): (t: seq<real>)
    ensures |t| == |s|
  {
    AddMonths(s, x, |x.weights|)
  }

  function ApplyAll(s: seq<real>, xs: seq<Spread>): (t: seq<real>)
    ensures |t| == |s|
  {
    if |xs| == 0 then s else AddSpread(ApplyAll(s, xs[..|xs| - 1]), xs[|xs| - 1])
  }

  /** What a spread puts on the programme in all. */
  function Laid(x: Spread): real { Times(x.amount, Sum(x.weights)) }

  ghost predicate AllFit(xs: seq<Spread>, size: nat) {
    forall i :: 0 <= i < |xs| ==> xs[i].Fits(size)
  }

  ghost predicate AllWeightsNonNegative(xs: seq<Spread>) {
    forall i :: 0 <= i < |xs| ==> xs[i].NonNegativeWeights()
  }

  /** `for (i < months) series[start + i] += amount * w[i]`. */
  method SpreadInto(series: array<real>, x: Spread)
    requires x.Fits(series.Length)
    modifies series
    ensures series[..] == AddSpread(old(series[..]), x)
  {
    hide Times;
    ghost var before := series[..];
    for i := 0 to |x.weights|
      invariant series[..] == AddMonths(before, x, i)
    {
      AddMonthsStep(before, x, i);
      series[x.start + i] := series[x.start + i] + Times(x.amount, x.weights[i]);
    }
  }

  lemma AddMonthsStep(s: seq<real>, x: Spread, k: nat)
    requires x.Fits(|s|) && k < |x.weights|
    ensures AddMonths(s, x, k)[x.start + k] == s[x.start + k]
    ensures AddMonths(s, x, k + 1)
         == AddMonths(s, x, k)[x.start + k := AddMonths(s, x, k)[x.start + k] + Times(x.amount, x.weights[k])]
  {
    hide Times;
  }

  // ---------------------------------------------------------------- nothing lost, nothing added

  lemma {:induction false} AddMonthsSum(s: seq<real>, x: Spread, k: nat)
    requires x.Fits(|s|) && k <= |x.weights|
    ensures Sum(AddMonths(s, x, k)) == Sum(s) + Times(x.amount, Sum(x.weights[..k]))
  {
    if k == 0 {
      assert AddMonths(s, x, 0) == s;
      assert Times(x.amount, 0.0) == 0.0;
    } else {
      AddMonthsSum(s, x, k - 1);
      AddMonthsSumStep(s, x, k - 1);
      var w := x.weights;
      assert w[..k][..k - 1] == w[..k - 1];
      TimesAdds(x.amount, Sum(w[..k - 1]), w[k - 1]);
      hide Times, AddMonths;
    }
  }

  lemma AddMonthsSumStep(s: seq<real>, x: Spread, k: nat)
    requires x.Fits(|s|) && k < |x.weights|
    ensures Sum(AddMonths(s, x, k + 1)) == Sum(AddMonths(s, x, k)) + Times(x.amount, x.weights[k])
  {
    hide Times, Sum;
    AddMonthsStep(s, x, k);
    var t, i := AddMonths(s, x, k), x.start + k;
    SumUpdate(t, i, t[i] + Times(x.amount, x.weights[k]));
  }

  /** However many spreads are laid on the programme, the series holds exactly what they add up to. */
  lemma {:induction false} ApplyAllSum(s: seq<real>, xs: seq<Spread>)
    requires AllFit(xs, |s|)
    ensures Sum(ApplyAll(s, xs)) == Sum(s) + SumOf(Laid, xs)
  {
    hide Times;
    if |xs| > 0 {
      var init, x := xs[..|xs| - 1], xs[|xs| - 1];
      ApplyAllSum(s, init);
      AddMonthsSum(ApplyAll(s, init), x, |x.weights|);
      assert x.weights[..|x.weights|] == x.weights;
    }
  }

  /** A programme that starts empty holds what was laid on it, and nothing in month 0. */
  lemma LaidTotal(size: nat, xs: seq<Spread>)
    requires size > 0 && AllFit(xs, size)
    ensures Sum(ApplyAll(Zeros(size), xs)) == SumOf(Laid, xs)
    ensures ApplyAll(Zeros(size), xs)[0] == 0.0
  {
    hide Laid;
    SumZeros(size);
    ApplyAllSum(Zeros(size), xs);
    ApplyAllBefore(Zeros(size), xs, 1);
  }

  // ---------------------------------------------------------------- order

  /** The same windows and weights, with no amount larger. */
  ghost predicate NoLarger(xs: seq<Spread>, ys: seq<Spread>) {
    && |xs| == |ys|
    && forall i :: 0 <= i < |xs| ==>
         xs[i].amount <= ys[i].amount && xs[i].start == ys[i].start && xs[i].weights == ys[i].weights
  }

  lemma NoLargerConcat(xs: seq<Spread>, ys: seq<Spread>, us: seq<Spread>, vs: seq<Spread>)
    requires NoLarger(xs, ys) && NoLarger(us, vs)
    ensures NoLarger(xs + us, ys + vs)
  {
  }

  lemma AddSpreadMono(s: seq<real>, t: seq<real>, x: Spread, y: Spread)
    requires |s| == |t| && x.Fits(|s|) && x.NonNegativeWeights() && NoLarger([x], [y])
    requires forall m :: 0 <= m < |s| ==> s[m] <= t[m]
    ensures forall m :: 0 <= m < |s| ==> AddSpread(s, x)[m] <= AddSpread(t, y)[m]
  {
    hide Times;
    assert [x][0] == x && [y][0] == y;
    forall m | 0 <= m < |s| ensures AddSpread(s, x)[m] <= AddSpread(t, y)[m] {
      if x.start <= m < x.start + |x.weights| {
        TimesMono(x.amount, y.amount, x.weights[m - x.start]);
      }
    }
  }

  /** Raising amounts raises, or leaves, every month. */
  lemma {:induction false} ApplyAllMono(s: seq<real>, xs: seq<Spread>, ys: seq<Spread>)
    requires AllFit(xs, |s|) && AllWeightsNonNegative(xs) && NoLarger(xs, ys)
    ensures forall m :: 0 <= m < |s| ==> ApplyAll(s, xs)[m] <= ApplyAll(s, ys)[m]
  {
    var n := |xs| - 1;
    if n >= 0 {
      ApplyAllMono(s, xs[..n], ys[..n]);
      AddSpreadMono(ApplyAll(s, xs[..n]), ApplyAll(s, ys[..n]), xs[n], ys[n]);
    }
  }

  /** Non-negative amounts never make a month negative. */
  lemma {:induction false} ApplyAllNonNegative(s: seq<real>, xs: seq<Spread>)
    requires AllFit(xs, |s|) && AllWeightsNonNegative(xs)
    requires forall m :: 0 <= m < |s| ==> s[m] >= 0.0
    requires forall i :: 0 <= i < |xs| ==> xs[i].amount >= 0.0
    ensures forall m :: 0 <= m < |s| ==> ApplyAll(s, xs)[m] >= 0.0
  {
    var n := |xs| - 1;
    if n >= 0 {
      hide Times;
      var t := ApplyAll(s, xs[..n]);
      ApplyAllNonNegative(s, xs[..n]);
      forall m | 0 <= m < |s| ensures AddSpread(t, xs[n])[m] >= 0.0 {
        if xs[n].start <= m < xs[n].start + |xs[n].weights| {
          TimesMono(xs[n].amount, xs[n].amount, xs[n].weights[m - xs[n].start]);
        }
      }
    }
  }

  /** Months before every spread's start are never written. */
  lemma {:induction false} ApplyAllBefore(s: seq<real>, xs: seq<Spread>, first: nat)
    requires forall i :: 0 <= i < |xs| ==> first <= xs[i].start
    ensures forall m :: 0 <= m < |s| && m < first ==> ApplyAll(s, xs)[m] == s[m]
  {
    var n := |xs| - 1;
    if n >= 0 { ApplyAllBefore(s, xs[..n], first); }
  }

  lemma {:induction false} ApplyAllConcat(s: seq<real>, xs: seq<Spread>, ys: seq<Spread>)
    ensures ApplyAll(s, xs + ys) == ApplyAll(ApplyAll(s, xs), ys)
  {
    if |ys| == 0 {
      assert xs + ys == xs;
    } else {
      var init := ys[..|ys| - 1];
      ApplyAllConcat(s, xs, init);
      assert (xs + ys)[..|xs + ys| - 1] == xs + init;
    }
  }

  lemma ApplyAllSnoc(s: seq<real>, xs: seq<Spread>, x: Spread)
    ensures ApplyAll(s, xs + [x]) == AddSpread(ApplyAll(s, xs), x)
  {
    assert (xs + [x])[..|xs|] == xs;
  }

  // ---------------------------------------------------------------- on-costs

  function Scale(s: seq<real>, c: real): seq<real> {
    seq(|s|, m requires 0 <= m < |s| => Times(s[m], c))
  }

  function ScaleAmounts(xs: seq<Spread>, c: real): seq<Spread> {
    seq(|xs|, i requires 0 <= i < |xs| => xs[i].(amount := Times(xs[i].amount, c)))
  }

  lemma AddSpreadScaled(s: seq<real>, x: Spread, c: real)
    requires x.Fits(|s|)
    ensures Scale(AddSpread(s, x), c) == AddSpread(Scale(s, c), x.(amount := Times(x.amount, c)))
  {
    hide Times;
    var y := x.(amount := Times(x.amount, c));
    forall m | 0 <= m < |s| ensures Scale(AddSpread(s, x), c)[m] == AddSpread(Scale(s, c), y)[m] {
      if x.start <= m < x.start + |x.weights| {
        TimesScales(s[m], x.amount, x.weights[m - x.start], c);
      }
    }
  }

  /** Marking a whole series up by on-costs is marking each cost up before it is laid. */
  lemma {:induction false} ApplyAllScaled(s: seq<real>, xs: seq<Spread>, c: real)
    requires AllFit(xs, |s|)
    ensures Scale(ApplyAll(s, xs), c) == ApplyAll(Scale(s, c), ScaleAmounts(xs, c))
  {
    var n := |xs| - 1;
    if n >= 0 {
      hide Times;
      ApplyAllScaled(s, xs[..n], c);
      AddSpreadScaled(ApplyAll(s, xs[..n]), xs[n], c);
      assert ScaleAmounts(xs, c)[..n] == ScaleAmounts(xs[..n], c);
    }
  }


  // ---------------------------------------------------------------- one spread among others

  lemma SpreadsCommute(s: seq<real>, x: Spread, y: Spread)
    ensures AddSpread(AddSpread(s, x), y) == AddSpread(AddSpread(s, y), x)
  {
    hide Times;
  }

  /** Wherever a spread stands in the list, the series is as if it came last. */
  lemma {:induction false} Inserted(s: seq<real>, xs: seq<Spread>, x: Spread, ys: seq<Spread>)
    ensures ApplyAll(s, xs + [x] + ys) == AddSpread(ApplyAll(s, xs + ys), x)
  {
    if |ys| == 0 {
      assert xs + [x] + ys == xs + [x] && xs + ys == xs;
      ApplyAllSnoc(s, xs, x);
    } else {
      var init, y := ys[..|ys| - 1], ys[|ys| - 1];
      Inserted(s, xs, x, init);
      assert xs + [x] + ys == (xs + [x] + init) + [y] && xs + ys == (xs + init) + [y];
      ApplyAllSnoc(s, xs + [x] + init, y);
      ApplyAllSnoc(s, xs + init, y);
      SpreadsCommute(ApplyAll(s, xs + init), x, y);
    }
  }

  /** A spread leaves every month outside its window alone, and inside it adds its weights as they come. */
  lemma SpreadRuns(s: seq<real>, x: Spread, k: nat)
    requires x.Fits(|s|) && k <= |x.weights|
    ensures forall m :: 0 <= m < |s| && !(x.start <= m < x.start + |x.weights|) ==> AddSpread(s, x)[m] == s[m]
    ensures Sum(AddSpread(s, x)[..x.start + k]) == Sum(s[..x.start + k]) + Times(x.amount, Sum(x.weights[..k]))
  {
    hide Times;
    var first := x.(weights := x.weights[..k]);
    assert AddSpread(s, x)[..x.start + k] == AddMonths(s[..x.start + k], first, k);
    AddMonthsSum(s[..x.start + k], first, k);
    assert first.weights[..k] == x.weights[..k];
  }
}
