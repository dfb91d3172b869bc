/** Sales absorption: how many months a unit count takes to sell, and the share arriving each month. */
module Absorption {
  import opened Numbers

  const ABSORPTION_CAP := 24

  predicate Absorbed(units: real, perMonth: Option<real>) {
    perMonth.Some? && perMonth.value > 0.0 && units > 0.0
  }

  function Months(units: real, perMonth: Option<real>, fallback: real, cap: nat): (n: nat)
    ensures n >= 1
  {
    if Absorbed(units, perMonth) then Clamp(Ceil(Div(units, perMonth.value)), 1, ABSORPTION_CAP)
    else Clamp(OrElse(Round(fallback), 1), 1, cap)
  }

  /** Units still unsold after `k` whole months at `rate`. */
  function Remaining(units: real, rate: real, k: nat): real { Max(0.0, units - Capacity(rate, k)) }

  /** What `k` months at `rate` could sell if nothing ran out. */
  function Capacity(rate: real, k: nat): real { k as real * rate }

  function Shares(units: real, perMonth: Option<real>, fallback: real, cap: nat): (s: seq<real>)
    ensures |s| == Months(units, perMonth, fallback, cap)
  {
    var n := Months(units, perMonth, fallback, cap);
    if Absorbed(units, perMonth) then
      seq(n, k requires 0 <= k < n => Div(Min(perMonth.value, Remaining(units, perMonth.value, k)), units))
    else FlatShares(n)
  }

  function FlatShares(n: nat): (s: seq<real>)
    requires n > 0
    ensures |s| == n
  {
    seq(n, _ => Div(1.0, n as real))
  }

  /** `absorptionShare`: sell what the rate allows until the units run out. */
  method AbsorptionShare(unitCount: real, perMonth: Option<real>, fallbackMonths: real, cap: nat)
    returns (share: seq<real>)
    ensures share == Shares(unitCount, perMonth, fallbackMonths, cap)
  {
    hide Div, Capacity;
    var months := Months(unitCount, perMonth, fallbackMonths, cap);
    if Absorbed(unitCount, perMonth) {
      var rate := perMonth.value;
      share := [];
      var remaining := unitCount;
      CapacityStep(rate, 0);
      for k := 0 to months
        invariant remaining == Remaining(unitCount, rate, k)
        invariant share == Shares(unitCount, perMonth, fallbackMonths, cap)[..k]
      {
        CapacityStep(rate, k);
        var sold := Min(rate, remaining);
        remaining := remaining - sold;
        share := share + [Div(sold, unitCount)];
      }
    } else {
      share := FlatShares(months);
    }
  }

  /** The share of the units sold by the time the window closes. */
  function SoldShare(units: real, perMonth: Option<real>): real {
    if Absorbed(units, perMonth) then Min(1.0, Div(Capacity(perMonth.value, ABSORPTION_CAP), units)) else 1.0
  }

  lemma CapacityStep(rate: real, k: nat)
    ensures Capacity(rate, 0) == 0.0
    ensures Capacity(rate, k + 1) == Capacity(rate, k) + rate
    ensures rate >= 0.0 ==> Capacity(rate, k) >= 0.0
  {
    if rate >= 0.0 { MulNonNegative(k as real, rate); }
  }

  lemma {:induction false} SoldSoFar(units: real, perMonth: Option<real>, fallback: real, cap: nat, k: nat)
    requires Absorbed(units, perMonth) && k <= Months(units, perMonth, fallback, cap)
    ensures Times(Sum(Shares(units, perMonth, fallback, cap)[..k]), units) == Min(units, Capacity(perMonth.value, k))
  {
    var s, rate := Shares(units, perMonth, fallback, cap), perMonth.value;
    if k == 0 {
      NoneSold(units, rate, s);
    } else {
      SoldSoFar(units, perMonth, fallback, cap, k - 1);
      ShareIs(units, perMonth, fallback, cap, k - 1);
      SumPrefix(s, k);
      ShareSells(units, Min(rate, Remaining(units, rate, k - 1)));
      hide *;
      SoldStep(units, rate, k - 1, Sum(s[..k - 1]), s[k - 1], Sum(s[..k]));
    }
  }

  lemma NoneSold(units: real, rate: real, s: seq<real>)
    requires units > 0.0
    ensures Times(Sum(s[..0]), units) == Min(units, Capacity(rate, 0))
  {
  }

  lemma SumPrefix(s: seq<real>, k: nat)
    requires 0 < k <= |s|
    ensures Sum(s[..k]) == Sum(s[..k - 1]) + s[k - 1]
  {
    assert s[..k][..k - 1] == s[..k - 1];
  }

  lemma ShareSells(units: real, sold: real)
    requires units > 0.0
    ensures Times(Div(sold, units), units) == sold
  {
    DivLaw(sold, units);
    hide Div;
  }

  lemma ShareIs(units: real, perMonth: Option<real>, fallback: real, cap: nat, k: nat)
    requires Absorbed(units, perMonth) && k < Months(units, perMonth, fallback, cap)
    ensures Shares(units, perMonth, fallback, cap)[k]
         == Div(Min(perMonth.value, Remaining(units, perMonth.value, k)), units)
  {
    hide Div, Months, Remaining;
  }

  lemma SoldStep(units: real, rate: real, k: nat, before: real, share: real, after: real)
    requires units > 0.0 && rate > 0.0 && after == before + share
    requires Times(before, units) == Min(units, Capacity(rate, k))
    requires Times(share, units) == Min(rate, Remaining(units, rate, k))
    ensures Times(after, units) == Min(units, Capacity(rate, k + 1))
  {
    CapacityStep(rate, k);
    TimesAdds(units, before, share);
    hide Capacity, Times;
  }

  /** Exactly min(1, 24·rate/units) of an absorbed scheme sells inside the window, and all of any other. */
  lemma SoldShareExact(units: real, perMonth: Option<real>, fallback: real, cap: nat)
    ensures Sum(Shares(units, perMonth, fallback, cap)) == SoldShare(units, perMonth)
    ensures SoldShare(units, perMonth) ==
      if perMonth.Some? && perMonth.value > 0.0 && units > 0.0 then Min(1.0, Div(24.0 * perMonth.value, units)) else 1.0
  {
    SoldShareIs(units, perMonth);
    hide Div, Sum, Capacity, SoldShare;
    var s, n := Shares(units, perMonth, fallback, cap), Months(units, perMonth, fallback, cap);
    if Absorbed(units, perMonth) {
      hide Shares, Months;
      SoldSoFar(units, perMonth, fallback, cap, n);
      assert s[..n] == s;
      SoldByTheEnd(units, perMonth, fallback, cap);
      CappedShare(units, Capacity(perMonth.value, ABSORPTION_CAP), Sum(s));
    } else {
      EqualShares(n);
    }
  }

  lemma SoldShareIs(units: real, perMonth: Option<real>)
    ensures SoldShare(units, perMonth) ==
      if perMonth.Some? && perMonth.value > 0.0 && units > 0.0 then Min(1.0, Div(24.0 * perMonth.value, units)) else 1.0
    ensures Absorbed(units, perMonth) ==>
      SoldShare(units, perMonth) == Min(1.0, Div(Capacity(perMonth.value, ABSORPTION_CAP), units))
  {
    hide Div;
  }

  /** A product capped at the divisor is a quotient capped at one. */
  lemma CappedShare(units: real, all: real, share: real)
    requires units > 0.0 && share * units == Min(units, all)
    ensures share == Min(1.0, Div(all, units))
  {
    hide Div;
    DivUnique(units, units, 1.0);
    if all <= units {
      DivMono(all, units, units);
      DivUnique(all, units, share);
    } else {
      DivMono(units, all, units);
      MulCancel(share, 1.0, units);
    }
  }

  lemma SoldByTheEnd(units: real, perMonth: Option<real>, fallback: real, cap: nat)
    requires Absorbed(units, perMonth)
    ensures Min(units, Capacity(perMonth.value, Months(units, perMonth, fallback, cap)))
         == Min(units, Capacity(perMonth.value, ABSORPTION_CAP))
  {
    hide Div;
    var rate, c, n := perMonth.value, ABSORPTION_CAP, Months(units, perMonth, fallback, cap);
    if n < c {
      DivLaw(units, rate);
      CeilBounds(Div(units, rate));
      MulMono(Div(units, rate), n as real, rate);
      MulMono(n as real, c as real, rate);
    }
  }

  lemma EqualShares(n: nat)
    requires n >= 1
    ensures Sum(FlatShares(n)) == 1.0
  {
    var ones := seq(n, _ => 1.0);
    OnesSum(ones);
    var c := Div(1.0, n as real);
    forall i | 0 <= i < n ensures FlatShares(n)[i] == ones[i] * c { }
    SumScaled(ones, FlatShares(n), c);
    DivLaw(1.0, n as real);
  }

  lemma {:induction false} OnesSum(s: seq<real>)
    requires forall i :: 0 <= i < |s| ==> s[i] == 1.0
    ensures Sum(s) == |s| as real
  {
    if |s| > 0 { OnesSum(s[..|s| - 1]); }
  }

  lemma SharesNonNegative(units: real, perMonth: Option<real>, fallback: real, cap: nat)
    ensures forall k :: 0 <= k < |Shares(units, perMonth, fallback, cap)| ==>
              Shares(units, perMonth, fallback, cap)[k] >= 0.0
  {
    hide Div;
    var s := Shares(units, perMonth, fallback, cap);
    forall k | 0 <= k < |s| ensures s[k] >= 0.0 {
      if Absorbed(units, perMonth) {
        DivPositive(Min(perMonth.value, Remaining(units, perMonth.value, k)), units);
      } else {
        DivPositive(1.0, |s| as real);
      }
    }
  }


  // ---------------------------------------------------------------- month by month

  /** A scheme with a rate sells out in the fewest whole months that hold its units, but no more than 24. */
  lemma MonthsExact(units: real, perMonth: Option<real>, fallback: real, cap: nat)
    ensures var n := Months(units, perMonth, fallback, cap);
            if perMonth.Some? && perMonth.value > 0.0 && units > 0.0 then
              && 1 <= n <= 24
              && (n < 24 ==> units <= n as real * perMonth.value)
            else
              var r := if Round(fallback) == 0 then 1 else Round(fallback);
              n == if r > cap && cap >= 1 then cap else if r < 1 || cap < 1 then 1 else r
  {
    hide Div, Round;
    if Absorbed(units, perMonth) {
      var q := Div(units, perMonth.value);
      CeilBounds(q);
      DivLaw(units, perMonth.value);
      hide Ceil;
      LeastMonths(units, perMonth.value, q, Ceil(q), Months(units, perMonth, fallback, cap));
    }
  }

  lemma LeastMonths(units: real, rate: real, q: real, whole: int, n: nat)
    requires rate > 0.0 && q * rate == units && q <= whole as real < q + 1.0 && n == Clamp(whole, 1, 24)
    ensures n < 24 ==> units <= n as real * rate
  {
    if n < 24 { MulMono(q, n as real, rate); }
  }

  /** Fewer months would not have sold them. */
  lemma FewerFallShort(units: real, perMonth: Option<real>, fallback: real, cap: nat, k: nat)
    requires perMonth.Some? && perMonth.value > 0.0 && units > 0.0 && 1 <= k < Months(units, perMonth, fallback, cap)
    ensures k as real * perMonth.value < units
  {
    var q := Div(units, perMonth.value);
    CeilBounds(q);
    DivLaw(units, perMonth.value);
    hide Ceil, Div;
    assert k + 1 <= Ceil(q);
    assert k as real < q;
    MulStrict(k as real, q, perMonth.value);
  }

  /** After `k` months: what the rate has sold of the units, or equal parts of the whole. */
  function SoldBy(units: real, perMonth: Option<real>, n: nat, k: nat): real
    requires k <= n && n > 0
  {
    if perMonth.Some? && perMonth.value > 0.0 && units > 0.0 then Div(Min(units, k as real * perMonth.value), units)
    else Div(k as real, n as real)
  }

  /** The shares run as they should, not only to the right total. */
  lemma SharesRun(units: real, perMonth: Option<real>, fallback: real, cap: nat, k: nat)
    requires k <= Months(units, perMonth, fallback, cap)
    ensures Sum(Shares(units, perMonth, fallback, cap)[..k])
         == SoldBy(units, perMonth, Months(units, perMonth, fallback, cap), k)
  {
    hide Div, Months;
    var n := Months(units, perMonth, fallback, cap);
    if Absorbed(units, perMonth) {
      SoldShares(units, perMonth, fallback, cap, k);
      hide *;
      SoldQuotient(units, perMonth.value, k, Sum(Shares(units, perMonth, fallback, cap)[..k]));
      SoldByRate(units, perMonth, n, k);
    } else {
      FlatRun(n, k);
    }
  }

  lemma SoldShares(units: real, perMonth: Option<real>, fallback: real, cap: nat, k: nat)
    requires Absorbed(units, perMonth) && k <= Months(units, perMonth, fallback, cap)
    ensures units > 0.0
    ensures Times(Sum(Shares(units, perMonth, fallback, cap)[..k]), units) == Min(units, Capacity(perMonth.value, k))
  {
    SoldSoFar(units, perMonth, fallback, cap, k);
    hide Shares, Months, Sum, Times, Capacity;
  }

  lemma SoldQuotient(units: real, rate: real, k: nat, share: real)
    requires units > 0.0 && Times(share, units) == Min(units, Capacity(rate, k))
    ensures share == Div(Min(units, k as real * rate), units)
  {
    DivUnique(Min(units, k as real * rate), units, share);
    hide Div;
  }

  lemma SoldByRate(units: real, perMonth: Option<real>, n: nat, k: nat)
    requires Absorbed(units, perMonth) && k <= n && n > 0
    ensures SoldBy(units, perMonth, n, k) == Div(Min(units, k as real * perMonth.value), units)
  {
    hide Div;
  }

  lemma FlatRun(n: nat, k: nat)
    requires k <= n && n > 0
    ensures Sum(FlatShares(n)[..k]) == Div(k as real, n as real)
  {
    var c, ones := Div(1.0, n as real), seq(k, _ => 1.0);
    OnesSum(ones);
    SumScaled(ones, FlatShares(n)[..k], c);
    DivReciprocal(k as real, n as real);
    hide Div;
  }
}
