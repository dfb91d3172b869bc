/** Splitting the appraisal's build cost across its trades, to the penny. */
module CostPlan {
  import opened Numbers

  function SumPence(s: seq<int>): int { if |s| == 0 then 0 else SumPence(s[..|s| - 1]) + s[|s| - 1] }

  function Divisor(rateSum: real): (d: real)
    ensures d != 0.0
  {
    if rateSum == 0.0 then 1.0 else rateSum
  }

  /** A trade's share of the total before rounding. */
  function Proportion(total: int, rate: real, rateSum: real): real { Div(total as real * rate, Divisor(rateSum)) }

  function TotalPence(build: real): int { Round(build * 100.0) }

  /** Every line but the last is rounded; the last takes what is left. */
  function Budgets(rates: seq<real>, total: int): (b: seq<int>)
    ensures |b| == |rates|
  {
    if |rates| == 0 then []
    else
      var rounded := RoundedShares(rates, total);
      rounded + [total - SumPence(rounded)]
  }

  function RoundedShares(rates: seq<real>, total: int): (b: seq<int>)
    requires |rates| > 0
    ensures |b| == |rates| - 1
  {
    seq(|rates| - 1, i requires 0 <= i < |rates| - 1 => Round(Proportion(total, rates[i], Sum(rates))))
  }

  method TradeBudgets(rates: seq<real>, build: real) returns (out: seq<int>)
    ensures out == Budgets(rates, TotalPence(build))
  {
    if |rates| == 0 { return []; }
    var total := Round(build * 100.0);
    var rateSum := Sum(rates);
    out := [];
    var placed := 0;
    for i := 0 to |rates|
      invariant placed == SumPence(out)
      invariant i < |rates| ==> out == RoundedShares(rates, total)[..i]
      invariant i == |rates| ==> out == Budgets(rates, total)
    {
      hide Div, Round;
      var last := i == |rates| - 1;
      var pence := if last then total - placed else Round(Proportion(total, rates[i], rateSum));
      assert last ==> out == RoundedShares(rates, total);
      placed := placed + pence;
      assert (out + [pence])[..|out|] == out;
      out := out + [pence];
    }
  }

  // ---------------------------------------------------------------- exact in total

  lemma SumPenceSnoc(s: seq<int>, x: int)
    ensures SumPence(s + [x]) == SumPence(s) + x
  {
    assert (s + [x])[..|s|] == s;
  }

  /** The budgets add up to the build cost in whole pence, for any rates at all. */
  lemma BudgetsExact(rates: seq<real>, build: real)
    requires |rates| > 0
    ensures SumPence(Budgets(rates, TotalPence(build))) == TotalPence(build)
    ensures Abs(TotalPence(build) as real - 100.0 * build) <= 0.5
  {
    RoundNearest(build * 100.0);
    hide Round;
    var total := TotalPence(build);
    SumPenceSnoc(RoundedShares(rates, total), total - SumPence(RoundedShares(rates, total)));
  }

  // ---------------------------------------------------------------- close line by line

  /** The unrounded shares of the first `k` trades. */
  function ShareUpTo(rates: seq<real>, total: int, k: nat): real
    requires k <= |rates|
  {
    if k == 0 then 0.0 else ShareUpTo(rates, total, k - 1) + Proportion(total, rates[k - 1], Sum(rates))
  }

  lemma {:induction false} SharesAddUp(rates: seq<real>, total: int, k: nat)
    requires k <= |rates|
    ensures ShareUpTo(rates, total, k) * Divisor(Sum(rates)) == total as real * Sum(rates[..k])
  {
    if k > 0 {
      hide Div, Divisor;
      SharesAddUp(rates, total, k - 1);
      assert rates[..k][..k - 1] == rates[..k - 1];
      DivLaw(total as real * rates[k - 1], Divisor(Sum(rates)));
      var d, p, q := Divisor(Sum(rates)), ShareUpTo(rates, total, k - 1), Proportion(total, rates[k - 1], Sum(rates));
      assert (p + q) * d == p * d + q * d;
      assert total as real * (Sum(rates[..k - 1]) + rates[k - 1])
          == total as real * Sum(rates[..k - 1]) + total as real * rates[k - 1];
      hide Sum, Proportion;
    }
  }

  /** Rounding each of `k` lines moves their sum by at most half a penny a line. */
  lemma {:induction false} RoundingDrift(rates: seq<real>, total: int, k: nat)
    requires k < |rates|
    ensures Abs(SumPence(RoundedShares(rates, total)[..k]) as real - ShareUpTo(rates, total, k)) <= k as real / 2.0
  {
    hide Proportion, Sum;
    if k > 0 {
      RoundingDrift(rates, total, k - 1);
      var b := RoundedShares(rates, total);
      assert b[..k][..k - 1] == b[..k - 1];
      RoundNearest(Proportion(total, rates[k - 1], Sum(rates)));
      hide Round;
    }
  }

  /** Half a penny for each line but the last. */
  lemma LinesNearShare(rates: seq<real>, total: int, i: nat)
    requires i + 1 < |rates|
    ensures Abs(Budgets(rates, total)[i] as real - Proportion(total, rates[i], Sum(rates))) <= 0.5
  {
    LastBudget(rates, total);
    RoundNearest(Proportion(total, rates[i], Sum(rates)));
    hide Budgets, Round, Proportion, Sum;
    assert Budgets(rates, total)[..|rates| - 1][i] == RoundedShares(rates, total)[i];
  }

  /** The last line carries everyone's rounding. */
  lemma LastNearShare(rates: seq<real>, total: int)
    requires |rates| > 0 && Sum(rates) != 0.0
    ensures Abs(Budgets(rates, total)[|rates| - 1] as real - Proportion(total, rates[|rates| - 1], Sum(rates)))
         <= (|rates| - 1) as real / 2.0
  {
    hide *;
    var n := |rates|;
    SharesTotal(rates, total);
    RoundingDrift(rates, total, n - 1);
    LastShare(rates, total);
    LastBudget(rates, total);
    var b := RoundedShares(rates, total);
    assert b[..n - 1] == b;
    DriftIsLast(SumPence(b), total, ShareUpTo(rates, total, n - 1), Proportion(total, rates[n - 1], Sum(rates)),
                (n - 1) as real / 2.0);
  }

  lemma DriftIsLast(rounded: int, total: int, shares: real, last: real, drift: real)
    requires Abs(rounded as real - shares) <= drift && shares + last == total as real
    ensures Abs((total - rounded) as real - last) <= drift
  {
  }

  lemma LastShare(rates: seq<real>, total: int)
    requires |rates| > 0
    ensures ShareUpTo(rates, total, |rates|)
         == ShareUpTo(rates, total, |rates| - 1) + Proportion(total, rates[|rates| - 1], Sum(rates))
  {
    hide Proportion, Sum;
  }

  lemma LastBudget(rates: seq<real>, total: int)
    requires |rates| > 0
    ensures Budgets(rates, total)[|rates| - 1] == total - SumPence(RoundedShares(rates, total))
    ensures Budgets(rates, total)[..|rates| - 1] == RoundedShares(rates, total)
  {
    hide RoundedShares;
  }

  lemma SharesTotal(rates: seq<real>, total: int)
    requires Sum(rates) != 0.0
    ensures ShareUpTo(rates, total, |rates|) == total as real
  {
    SharesAddUp(rates, total, |rates|);
    assert rates[..|rates|] == rates;
    hide ShareUpTo, Sum;
    MulCancel(ShareUpTo(rates, total, |rates|), total as real, Sum(rates));
  }

  /** When there is a sum to share by, every line is close to its share of the total. */
  lemma BudgetsProportional(rates: seq<real>, build: real)
    requires |rates| > 0 && Sum(rates) != 0.0
    ensures var total := TotalPence(build);
            && (forall i :: 0 <= i < |rates| - 1 ==>
                 Abs(Budgets(rates, total)[i] as real - Proportion(total, rates[i], Sum(rates))) <= 0.5)
            && Abs(Budgets(rates, total)[|rates| - 1] as real
                   - Proportion(total, rates[|rates| - 1], Sum(rates))) <= (|rates| - 1) as real / 2.0
  {
    hide *;
    var total := TotalPence(build);
    forall i | 0 <= i < |rates| - 1
      ensures Abs(Budgets(rates, total)[i] as real - Proportion(total, rates[i], Sum(rates))) <= 0.5
    {
      LinesNearShare(rates, total, i);
    }
    LastNearShare(rates, total);
  }

  // ---------------------------------------------------------------- nothing to share by

  /** With rates that sum to nothing, every line but the last takes its rate times the total, rounded. */
  lemma UndividedShare(rates: seq<real>, total: int, i: nat)
    requires i + 1 < |rates| && Sum(rates) == 0.0
    ensures Budgets(rates, total)[i] == Round(total as real * rates[i])
  {
    LastBudget(rates, total);
    DivUnique(total as real * rates[i], 1.0, total as real * rates[i]);
    hide Budgets, Sum, Div, Round;
    assert Budgets(rates, total)[..|rates| - 1][i] == RoundedShares(rates, total)[i];
  }

  /** A rate too small to come to a penny of the total. */
  predicate RoundsAway(total: int, rate: real) { -0.5 <= total as real * rate < 0.5 }

  lemma RoundsToNothing(total: int, rate: real)
    ensures Round(total as real * rate) == 0 <==> RoundsAway(total, rate)
    ensures RoundsAway(total, 0.0)
  {
    assert total as real * 0.0 == 0.0;
  }

  /** With rates that sum to nothing, the whole falls to the last line exactly when every other line rounds to nothing. */
  lemma WholeFallsToLast(rates: seq<real>, total: int)
    requires |rates| > 0 && Sum(rates) == 0.0
    ensures (Budgets(rates, total)[|rates| - 1] == total
             && forall i :: 0 <= i < |rates| - 1 ==> Budgets(rates, total)[i] == 0)
      <==> forall i :: 0 <= i < |rates| - 1 ==> RoundsAway(total, rates[i])
  {
    LastBudget(rates, total);
    var b := Budgets(rates, total);
    var rounded := RoundedShares(rates, total);
    hide Budgets, RoundedShares, Sum, SumPence, Round, RoundsAway;
    forall i | 0 <= i < |rates| - 1 ensures b[i] == 0 <==> RoundsAway(total, rates[i]) {
      UndividedShare(rates, total, i);
      RoundsToNothing(total, rates[i]);
    }
    if forall i :: 0 <= i < |rates| - 1 ==> b[i] == 0 {
      forall i | 0 <= i < |rounded| ensures rounded[i] == 0 { assert rounded[i] == b[..|rates| - 1][i]; }
      NilPence(rounded);
    }
  }

  /** So with every rate nil, the whole figure falls to the last line. */
  lemma NothingToShareBy(rates: seq<real>, total: int)
    requires |rates| > 0 && Sum(rates) == 0.0 && forall i :: 0 <= i < |rates| ==> rates[i] >= 0.0
    ensures Budgets(rates, total)[|rates| - 1] == total
    ensures forall i :: 0 <= i < |rates| - 1 ==> Budgets(rates, total)[i] == 0
  {
    SumNonNegative(rates);
    WholeFallsToLast(rates, total);
    RoundsToNothing(total, 0.0);
    hide Budgets, Sum, RoundsAway;
    forall i | 0 <= i < |rates| - 1 ensures RoundsAway(total, rates[i]) { assert rates[i] == 0.0; }
  }

  lemma {:induction false} NilPence(s: seq<int>)
    requires forall i :: 0 <= i < |s| ==> s[i] == 0
    ensures SumPence(s) == 0
  {
    if |s| > 0 { NilPence(s[..|s| - 1]); }
  }

  /** Rates that cancel are not rates that are absent: here the first line takes everything. */
  lemma CancellingRates(total: int)
    ensures Sum([1.0, -1.0]) == 0.0 && Budgets([1.0, -1.0], total) == [total, 0]
  {
    var rates := [1.0, -1.0];
    assert rates[..1] == [1.0] && [1.0][..0] == [];
    assert Sum(rates) == Sum([1.0]) - 1.0 && Sum([1.0]) == Sum([]) + 1.0;
    DivUnique(total as real * 1.0, 1.0, total as real);
    var b := RoundedShares(rates, total);
    assert b[..0] == [] && b[0] == total;
    assert SumPence(b) == SumPence(b[..0]) + b[0];
  }


  /** The same without dividing: a line's pence times the rate sum is the total times its rate, to half the sum. */
  lemma BudgetsNearShare(rates: seq<real>, build: real, i: nat)
    requires i + 1 < |rates| && Sum(rates) != 0.0
    ensures var total := TotalPence(build);
            Abs(Times(Budgets(rates, total)[i] as real, Sum(rates)) - Times(total as real, rates[i])) <= Abs(Sum(rates)) / 2.0
  {
    var total, s := TotalPence(build), Sum(rates);
    BudgetsProportional(rates, build);
    ProportionIs(total, rates[i], s);
    hide *;
    Spread(Budgets(rates, total)[i] as real, Proportion(total, rates[i], s), s, Times(total as real, rates[i]));
  }

  lemma ProportionIs(total: int, rate: real, s: real)
    requires s != 0.0
    ensures Times(Proportion(total, rate, s), s) == Times(total as real, rate)
  {
    DivLaw(total as real * rate, s);
    hide Div;
  }

  lemma Spread(b: real, p: real, s: real, whole: real)
    requires Abs(b - p) <= 0.5 && Times(p, s) == whole
    ensures Abs(Times(b, s) - whole) <= Abs(s) / 2.0
  {
    TimesSplits(b, p, b - p, s);
    Turned(b - p, s);
    Halves(s);
    hide Times;
    var w := Abs(s);
    TimesMono(b - p, 0.5, w);
    TimesMono(-0.5, b - p, w);
  }

  lemma Turned(x: real, s: real)
    ensures Abs(Times(x, s)) == Abs(Times(x, Abs(s)))
  {
    if s < 0.0 { Negated(x, s); }
  }

  lemma Negated(x: real, s: real)
    ensures Times(x, -s) == -Times(x, s)
  {
  }

  lemma Halves(s: real)
    ensures Times(0.5, Abs(s)) == Abs(s) / 2.0 && Times(-0.5, Abs(s)) == -Abs(s) / 2.0
  {
  }
}
