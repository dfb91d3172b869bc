/** Years-purchase arithmetic: discount factors, annuities and perpetuities. */
module Yields {
  import opened Numbers

  /** `Math.pow(1 + i, -n)` at a whole number of years. */
  function Discount(i: real, n: nat): real
    requires i > -1.0
  {
    PowPositive(1.0 + i, n);
    Div(1.0, Pow(1.0 + i, n))
  }

  function YpPerpetuity(i: real): real { if i > 0.0 then Div(1.0, i) else 0.0 }

  function YpYears(n: nat, i: real): real { if i > 0.0 then Div(1.0 - Discount(i, n), i) else n as real }

  function PvOfPound(n: nat, i: real): real { if i > -1.0 then Discount(i, n) else 0.0 }

  /** The annuity written out: one pound at the end of each of `n` years. */
  function AnnuitySum(n: nat, i: real): real
    requires i > -1.0
  {
    if n == 0 then 0.0 else AnnuitySum(n - 1, i) + Discount(i, n)
  }

  lemma DiscountStep(i: real, n: nat)
    requires i > -1.0
    ensures 0.0 < Discount(i, n)
    ensures Discount(i, 0) == 1.0
    ensures n > 0 ==> Discount(i, n) * (1.0 + i) == Discount(i, n - 1)
  {
    hide Div;
    PowPositive(1.0 + i, n);
    DivPositive(1.0, Pow(1.0 + i, n));
    assert Pow(1.0 + i, 0) == 1.0;
    DivUnique(1.0, 1.0, 1.0);
    if n > 0 {
      var p := Pow(1.0 + i, n - 1);
      PowPositive(1.0 + i, n - 1);
      DivLaw(1.0, Pow(1.0 + i, n));
      var d := Discount(i, n);
      assert Pow(1.0 + i, n) == (1.0 + i) * p;
      assert d * ((1.0 + i) * p) == (d * (1.0 + i)) * p;
      DivUnique(1.0, p, d * (1.0 + i));
    }
  }

  /** A higher rate discounts harder. */
  lemma DiscountFalls(i: real, j: real, n: nat)
    requires -1.0 < i < j
    ensures 0.0 < Discount(j, n) <= Discount(i, n)
    ensures n > 0 ==> Discount(j, n) < Discount(i, n)
  {
    hide Div;
    PowIncreasing(1.0 + i, 1.0 + j, n);
    ReciprocalFalls(Pow(1.0 + i, n), Pow(1.0 + j, n));
  }

  lemma ReciprocalFalls(a: real, b: real)
    requires 0.0 < a <= b
    ensures 0.0 < Div(1.0, b) <= Div(1.0, a)
    ensures a < b ==> Div(1.0, b) < Div(1.0, a)
  {
    hide Div;
    DivPositive(1.0, a);
    DivPositive(1.0, b);
    DivLaw(1.0, a);
    DivLaw(1.0, b);
    SmallerFactor(Div(1.0, a), a, Div(1.0, b), b);
  }

  /** Of two equal products, the larger factor has the smaller partner. */
  lemma SmallerFactor(p: real, a: real, q: real, b: real)
    requires 0.0 < a <= b && 0.0 < p && 0.0 < q && p * a == q * b
    ensures q <= p && (a < b ==> q < p)
  {
    hide *;
    MulMono(a, b, q);
    if a < b { MulStrict(a, b, q); }
    if p <= q { MulMono(p, q, a); }
    if p < q { MulStrict(p, q, a); }
  }

  lemma {:induction false} DiscountAtMostOne(i: real, n: nat)
    requires i >= 0.0
    ensures Discount(i, n) <= 1.0
  {
    DiscountStep(i, n);
    if n > 0 {
      DiscountAtMostOne(i, n - 1);
      MulNonNegative(Discount(i, n), i);
    }
  }

  /** The closed form `(1 - v^n) / i` is the annuity it is quoted as. */
  lemma {:induction false} YpYearsIsAnnuity(n: nat, i: real)
    requires i > 0.0
    ensures YpYears(n, i) == AnnuitySum(n, i)
  {
    hide Div;
    AnnuityTimesRate(n, i);
    DivUnique(1.0 - Discount(i, n), i, AnnuitySum(n, i));
  }

  lemma {:induction false} AnnuityTimesRate(n: nat, i: real)
    requires i > -1.0
    ensures AnnuitySum(n, i) * i == 1.0 - Discount(i, n)
  {
    DiscountStep(i, n);
    assert n == 0 ==> AnnuitySum(n, i) == 0.0;
    assert n > 0 ==> AnnuitySum(n, i) == AnnuitySum(n - 1, i) + Discount(i, n);
    hide *;
    if n > 0 {
      AnnuityTimesRate(n - 1, i);
      AnotherYear(AnnuitySum(n - 1, i), Discount(i, n), AnnuitySum(n, i), Discount(i, n - 1), i);
    }
  }

  /** One more year of a pound: what it adds at the rate is what it takes off the discount factor. */
  lemma AnotherYear(sum: real, d: real, total: real, before: real, i: real)
    requires total == sum + d && sum * i == 1.0 - before && d * (1.0 + i) == before
    ensures total * i == 1.0 - d
  {
    assert total * i == sum * i + d * i;
    assert d * (1.0 + i) == d + d * i;
  }

  lemma {:induction false} AnnuityFalls(n: nat, i: real, j: real)
    requires -1.0 < i < j
    ensures 0.0 <= AnnuitySum(n, j) <= AnnuitySum(n, i)
    ensures n > 0 ==> 0.0 < AnnuitySum(n, j) < AnnuitySum(n, i)
  {
    if n > 0 {
      hide Discount;
      AnnuityFalls(n - 1, i, j);
      DiscountFalls(i, j, n);
    }
  }

  /** The term and its deferred perpetuity are one perpetuity: `(1 - v^n)/i + v^n/i = 1/i`. */
  lemma TermPlusReversion(n: nat, i: real)
    requires i > 0.0
    ensures YpYears(n, i) + YpPerpetuity(i) * PvOfPound(n, i) == YpPerpetuity(i)
  {
    hide Div, Discount;
    var v, y, p := Discount(i, n), YpYears(n, i), YpPerpetuity(i);
    DivLaw(1.0 - v, i);
    DivLaw(1.0, i);
    assert (p * v) * i == (p * i) * v;
    MulCancel(y + p * v, p, i);
  }

  /** A deferred perpetuity is worth less at a higher yield. */
  lemma DeferredPerpetuityFalls(n: nat, i: real, j: real)
    requires 0.0 < i < j
    ensures 0.0 < YpPerpetuity(j) * PvOfPound(n, j) < YpPerpetuity(i) * PvOfPound(n, i)
  {
    hide Div, Discount;
    ReciprocalFalls(i, j);
    DiscountFalls(i, j, n);
    var a, b, v, w := Div(1.0, i), Div(1.0, j), Discount(i, n), Discount(j, n);
    MulStrict(b, a, v);
    MulMono(w, v, b);
    MulStrict(0.0, b, w);
  }


  /** What each factor is at any yield: its defining product where there is a yield, and what stands in for it otherwise. */
  lemma FactorsAre(n: nat, i: real)
    ensures if i > 0.0 then YpPerpetuity(i) * i == 1.0 else YpPerpetuity(i) == 0.0
    ensures if i > 0.0 then YpYears(n, i) == AnnuitySum(n, i) else YpYears(n, i) == n as real
    ensures if i > -1.0 then PvOfPound(n, i) * Pow(1.0 + i, n) == 1.0 else PvOfPound(n, i) == 0.0
  {
    hide Div, AnnuitySum;
    if i > 0.0 {
      DivLaw(1.0, i);
      YpYearsIsAnnuity(n, i);
    }
    if i > -1.0 {
      PowPositive(1.0 + i, n);
      DivLaw(1.0, Pow(1.0 + i, n));
    }
  }
}
