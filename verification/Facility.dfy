/** The development facility: interest rolls up monthly, spend draws on it, receipts repay it. */
module Facility {
  import opened Numbers

  /** What the facility sees: index 0 is unused, month `m` draws `draws[m]` and receives `revs[m]`. */
  datatype Flow = Flow(draws: seq<real>, revs: seq<real>, rate: real) {
    ghost predicate Valid() {
      && |draws| == |revs|
      && |draws| > 0
    }

    /** No negative spend, no negative rate: the schema's sign conventions for the facility. */
    ghost predicate NonNegative()
      requires Valid()
    {
      && rate >= 0.0
      && forall m :: 0 < m < |draws| ==> draws[m] >= 0.0
    }
  }

  /** What is owed once the month's interest and spend are added. */
  function Owed(bal: real, rate: real, draw: real): real { bal + (Accrued(bal, rate) + draw) }

  function Accrued(bal: real, rate: real): real { bal * rate }

  /** The month's receipts service the debt first and never overpay it. */
  function Repayment(owed: real, rev: real): real { if rev > 0.0 then Min(rev, owed) else 0.0 }

  /** Closing balance of month `m`. */
  function Balance(f: Flow, m: nat): real
    requires f.Valid() && m < |f.draws|
  {
    if m == 0 then 0.0
    else
      var owed := Owed(Balance(f, m - 1), f.rate, f.draws[m]);
      owed - Repayment(owed, f.revs[m])
  }

  function Repaid(f: Flow, m: nat): real
    requires f.Valid() && m < |f.draws|
  {
    if m == 0 then 0.0
    else Repaid(f, m - 1) + Repayment(Owed(Balance(f, m - 1), f.rate, f.draws[m]), f.revs[m])
  }

  /** Interest charged in month `m`, on the balance the month before closed at. */
  function Interest(f: Flow, m: nat): real
    requires f.Valid() && m < |f.draws|
  {
    if m == 0 then 0.0 else Accrued(Balance(f, m - 1), f.rate)
  }

  function TotalInterest(f: Flow, m: nat): real
    requires f.Valid() && m < |f.draws|
  {
    if m == 0 then 0.0 else TotalInterest(f, m - 1) + Interest(f, m)
  }

  function Drawn(f: Flow, m: nat): real
    requires f.Valid() && m < |f.draws|
  {
    if m == 0 then 0.0 else Drawn(f, m - 1) + f.draws[m]
  }

  /** The highest closing balance so far; a facility never drawn has peak zero. */
  function Peak(f: Flow, m: nat): real
    requires f.Valid() && m < |f.draws|
  {
    if m == 0 then 0.0
    else if Balance(f, m) > Peak(f, m - 1) then Balance(f, m)
    else Peak(f, m - 1)
  }

  /** The draws a construction series makes at a loan-to-cost fraction. */
  function Draws(constr: seq<real>, ltcF: real): seq<real> {
    seq(|constr|, m requires 0 <= m < |constr| => Draw(constr[m], ltcF))
  }

  /** Only the loan-to-cost fraction of a month's spend is drawn; equity funds the rest. */
  function Draw(spend: real, ltcF: real): real { spend * ltcF }

  /** One pass over the programme, exactly as the engine runs it. */
  method RunFacility(constr: array<real>, rev: array<real>, mRate: real, ltcF: real, totalMonths: nat)
    returns (intSeries: array<real>, totalInterest: real, peak: real, drawn: real, bal: real)
    requires constr.Length == rev.Length == totalMonths + 1
    ensures fresh(intSeries) && intSeries.Length == totalMonths + 1
    ensures var f := Flow(Draws(constr[..], ltcF), rev[..], mRate);
            && totalInterest == TotalInterest(f, totalMonths)
            && peak == Peak(f, totalMonths)
            && drawn == Drawn(f, totalMonths)
            && bal == Balance(f, totalMonths)
            && forall m :: 0 <= m <= totalMonths ==> intSeries[m] == Interest(f, m)
  {
    hide Accrued, Draw;
    ghost var f := Flow(Draws(constr[..], ltcF), rev[..], mRate);
    intSeries := new real[totalMonths + 1](_ => 0.0);
    bal, totalInterest, peak, drawn := 0.0, 0.0, 0.0, 0.0;
    for m := 1 to totalMonths + 1
      invariant f == Flow(Draws(constr[..], ltcF), rev[..], mRate)
      invariant bal == Balance(f, m - 1)
      invariant totalInterest == TotalInterest(f, m - 1)
      invariant peak == Peak(f, m - 1)
      invariant drawn == Drawn(f, m - 1)
      invariant forall k :: 0 <= k < m ==> intSeries[k] == Interest(f, k)
    {
      var intr := Accrued(bal, mRate);
      intSeries[m] := intr;
      totalInterest := totalInterest + intr;
      var draw := Draw(constr[m], ltcF);
      drawn := drawn + draw;
      bal := bal + (intr + draw);
      if rev[m] > 0.0 {
        var repay := Min(rev[m], bal);
        bal := bal - repay;
      }
      if bal > peak { peak := bal; }
    }
  }

  // ---------------------------------------------------------------- the debt is never negative

  lemma {:induction false} BalanceNonNegative(f: Flow, m: nat)
    requires f.Valid() && f.NonNegative() && m < |f.draws|
    ensures Balance(f, m) >= 0.0
  {
    if m > 0 {
      BalanceNonNegative(f, m - 1);
      MulNonNegative(Balance(f, m - 1), f.rate);
    }
  }

  /** Money in equals money out, for every series of draws and receipts: drawn + interest = repaid + owed. */
  lemma {:induction false} MoneyConserved(f: Flow, m: nat)
    requires f.Valid() && m < |f.draws|
    ensures Drawn(f, m) + TotalInterest(f, m) == Repaid(f, m) + Balance(f, m)
  {
    if m > 0 { MoneyConserved(f, m - 1); }
  }

  lemma {:induction false} PeakIsMaximum(f: Flow, m: nat)
    requires f.Valid() && m < |f.draws|
    ensures forall k :: 0 <= k <= m ==> Balance(f, k) <= Peak(f, m)
    ensures exists k :: 0 <= k <= m && Peak(f, m) == Balance(f, k)
  {
    if m == 0 {
      assert Peak(f, m) == Balance(f, 0);
    } else {
      PeakIsMaximum(f, m - 1);
      if Balance(f, m) > Peak(f, m - 1) {
        assert Peak(f, m) == Balance(f, m);
      } else {
        var k :| 0 <= k <= m - 1 && Peak(f, m - 1) == Balance(f, k);
        assert Peak(f, m) == Balance(f, k);
      }
    }
  }

  // ---------------------------------------------------------------- closed form

  /** Net spend of months `k..m`, each compounded to the end of month `m`. */
  function CompoundedSuffix(f: Flow, k: nat, m: nat): real
    requires f.Valid() && m < |f.draws|
    decreases m + 1 - k
  {
    if k > m then 0.0
    else (f.draws[k] - f.revs[k]) * Pow(1.0 + f.rate, m - k) + CompoundedSuffix(f, k + 1, m)
  }

  /** The largest compounded suffix ending at month `m` that starts in months `1..j`. */
  function LargestSuffix(f: Flow, j: nat, m: nat): real
    requires f.Valid() && 1 <= j <= m < |f.draws|
  {
    if j == 1 then CompoundedSuffix(f, 1, m)
    else Max(LargestSuffix(f, j - 1, m), CompoundedSuffix(f, j, m))
  }

  /** A suffix grows by one month: everything in it compounds once and the new month joins. */
  lemma {:induction false} SuffixStep(f: Flow, k: nat, m: nat)
    requires f.Valid() && 1 <= k <= m < |f.draws|
    ensures CompoundedSuffix(f, k, m)
         == (1.0 + f.rate) * CompoundedSuffix(f, k, m - 1) + (f.draws[m] - f.revs[m])
    decreases m - k
  {
    var x, g := f.draws[k] - f.revs[k], 1.0 + f.rate;
    SuffixUnfolds(f, k, m);
    if k == m {
      assert CompoundedSuffix(f, m + 1, m) == 0.0 == CompoundedSuffix(f, m, m - 1);
      PowZero(g);
    } else {
      SuffixStep(f, k + 1, m);
      SuffixUnfolds(f, k, m - 1);
      PowStep(g, m - k);
      hide *;
      CompoundsOnce(g, x, Pow(g, m - 1 - k), CompoundedSuffix(f, k + 1, m - 1), f.draws[m] - f.revs[m]);
    }
  }

  lemma SuffixUnfolds(f: Flow, k: nat, m: nat)
    requires f.Valid() && k <= m < |f.draws|
    ensures CompoundedSuffix(f, k, m)
         == (f.draws[k] - f.revs[k]) * Pow(1.0 + f.rate, m - k) + CompoundedSuffix(f, k + 1, m)
  {
  }

  lemma CompoundsOnce(g: real, x: real, p: real, tail: real, e: real)
    ensures x * (g * p) + (g * tail + e) == g * (x * p + tail) + e
  {
    assert x * (g * p) == g * (x * p);
  }

  lemma {:induction false} LargestStep(f: Flow, j: nat, m: nat)
    requires f.Valid() && f.rate >= 0.0 && 1 <= j < m < |f.draws|
    ensures LargestSuffix(f, j, m) == (1.0 + f.rate) * LargestSuffix(f, j, m - 1) + (f.draws[m] - f.revs[m])
  {
    hide CompoundedSuffix;
    SuffixStep(f, j, m);
    if j > 1 {
      LargestStep(f, j - 1, m);
      MaxScales(LargestSuffix(f, j - 1, m - 1), CompoundedSuffix(f, j, m - 1), 1.0 + f.rate);
    }
  }

  lemma MaxScales(a: real, b: real, c: real)
    requires c >= 0.0
    ensures Max(c * a, c * b) == c * Max(a, b)
  {
    if a <= b { MulMono(a, b, c); } else { MulMono(b, a, c); }
  }

  /** One month of the loop, on a balance already known to be a reflected total. */
  lemma ReflectedStep(bal: real, l: real, rate: real, d: real, v: real)
    requires bal == Max(0.0, l) && rate >= 0.0 && d >= 0.0 && v >= 0.0
    ensures var owed := Owed(bal, rate, d);
            owed - Repayment(owed, v) == Max(0.0, Max((1.0 + rate) * l + (d - v), d - v))
  {
    MulNonNegative(bal, rate);
    MaxScales(0.0, l, 1.0 + rate);
    assert (1.0 + rate) * bal == bal + bal * rate;
  }

  /** The month-by-month loop computes a closed form: the largest compounded shortfall, or nothing. */
  lemma {:induction false} BalanceClosedForm(f: Flow, m: nat)
    requires f.Valid() && f.NonNegative() && 1 <= m < |f.draws|
    requires forall k :: 1 <= k <= m ==> f.revs[k] >= 0.0
    ensures Balance(f, m) == Max(0.0, LargestSuffix(f, m, m))
  {
    hide CompoundedSuffix, Owed, Repayment, Accrued;
    LastSuffix(f, m);
    if m == 1 {
      assert Balance(f, 0) == 0.0;
      ReflectedStep(0.0, 0.0, f.rate, f.draws[m], f.revs[m]);
    } else {
      BalanceClosedForm(f, m - 1);
      LargestStep(f, m - 1, m);
      ReflectedStep(Balance(f, m - 1), LargestSuffix(f, m - 1, m - 1), f.rate, f.draws[m], f.revs[m]);
    }
  }

  lemma LastSuffix(f: Flow, m: nat)
    requires f.Valid() && 1 <= m < |f.draws|
    ensures CompoundedSuffix(f, m, m) == f.draws[m] - f.revs[m]
  {
    assert Pow(1.0 + f.rate, 0) == 1.0;
    assert CompoundedSuffix(f, m + 1, m) == 0.0;
  }

  lemma {:induction false} LargestSuffixIsLargest(f: Flow, j: nat, m: nat)
    requires f.Valid() && 1 <= j <= m < |f.draws|
    ensures forall k :: 1 <= k <= j ==> CompoundedSuffix(f, k, m) <= LargestSuffix(f, j, m)
    ensures exists k :: 1 <= k <= j && LargestSuffix(f, j, m) == CompoundedSuffix(f, k, m)
  {
    if j == 1 {
      assert LargestSuffix(f, j, m) == CompoundedSuffix(f, 1, m);
    } else {
      LargestSuffixIsLargest(f, j - 1, m);
      if LargestSuffix(f, j - 1, m) >= CompoundedSuffix(f, j, m) {
        var k :| 1 <= k <= j - 1 && LargestSuffix(f, j - 1, m) == CompoundedSuffix(f, k, m);
        assert LargestSuffix(f, j, m) == CompoundedSuffix(f, k, m);
      } else {
        assert LargestSuffix(f, j, m) == CompoundedSuffix(f, j, m);
      }
    }
  }

  // ---------------------------------------------------------------- comparing two facilities

  lemma AccruedMono(a: real, b: real, rate: real)
    requires a <= b && rate >= 0.0
    ensures Accrued(a, rate) <= Accrued(b, rate)
    ensures a >= 0.0 ==> Accrued(a, rate) >= 0.0
  {
    MulMono(a, b, rate);
    if a >= 0.0 { MulNonNegative(a, rate); }
  }

  /** `f` never owes more, pays no more interest and peaks no higher than `g`, up to month `m`. */
  ghost predicate Cheaper(f: Flow, g: Flow, m: nat)
    requires f.Valid() && g.Valid() && m < |f.draws| && m < |g.draws|
  {
    && Balance(f, m) <= Balance(g, m)
    && TotalInterest(f, m) <= TotalInterest(g, m)
    && Peak(f, m) <= Peak(g, m)
  }

  /** Smaller draws and larger receipts, month by month, can only make the facility cheaper. */
  lemma {:induction false} LessSpendMoreSalesCheaper(f: Flow, g: Flow, m: nat)
    requires f.Valid() && g.Valid() && |f.draws| == |g.draws| && m < |f.draws|
    requires f.rate == g.rate && f.NonNegative() && g.NonNegative()
    requires forall k :: 1 <= k <= m ==> f.draws[k] <= g.draws[k] && f.revs[k] >= g.revs[k]
    ensures Cheaper(f, g, m)
  {
    if m > 0 {
      hide Accrued;
      LessSpendMoreSalesCheaper(f, g, m - 1);
      BalanceNonNegative(f, m - 1);
      AccruedMono(Balance(f, m - 1), Balance(g, m - 1), f.rate);
    }
  }

  /** Until the first receipt the balance is everything drawn plus everything charged. */
  lemma {:induction false} BalanceBeforeReceipts(f: Flow, m: nat)
    requires f.Valid() && m < |f.draws|
    requires forall k :: 1 <= k <= m ==> f.revs[k] <= 0.0
    ensures Balance(f, m) == Drawn(f, m) + TotalInterest(f, m)
  {
    if m > 0 {
      hide Accrued;
      BalanceBeforeReceipts(f, m - 1);
      assert f.revs[m] <= 0.0;
    }
  }

  /** The same receipts, none before month `p`; spend that runs behind until `p` and agrees afterwards is cheaper. */
  lemma {:induction false} LaterSpendCheaper(f: Flow, g: Flow, p: nat, m: nat)
    requires f.Valid() && g.Valid() && |f.draws| == |g.draws| && m < |f.draws| && p < |f.draws|
    requires f.rate == g.rate >= 0.0 && f.revs == g.revs
    requires forall k :: 1 <= k <= p ==> f.revs[k] <= 0.0
    requires forall k :: 0 <= k <= p ==> Drawn(f, k) <= Drawn(g, k)
    requires forall k :: p < k < |f.draws| ==> f.draws[k] == g.draws[k]
    ensures Cheaper(f, g, m)
  {
    if m > 0 {
      LaterSpendCheaper(f, g, p, m - 1);
      InterestCheaper(f, g, m);
      if m <= p {
        hide Balance, Interest;
        BalanceBeforeReceipts(f, m);
        BalanceBeforeReceipts(g, m);
      } else {
        StepMonotone(Balance(f, m - 1), Balance(g, m - 1), f.rate, f.draws[m], f.revs[m]);
      }
    }
  }

  lemma InterestCheaper(f: Flow, g: Flow, m: nat)
    requires f.Valid() && g.Valid() && 1 <= m < |f.draws| && m < |g.draws|
    requires f.rate == g.rate >= 0.0 && Balance(f, m - 1) <= Balance(g, m - 1)
    ensures Interest(f, m) <= Interest(g, m)
  {
    AccruedMono(Balance(f, m - 1), Balance(g, m - 1), f.rate);
  }

  lemma StepMonotone(a: real, b: real, rate: real, d: real, v: real)
    requires a <= b && rate >= 0.0
    ensures Owed(a, rate, d) - Repayment(Owed(a, rate, d), v) <= Owed(b, rate, d) - Repayment(Owed(b, rate, d), v)
  {
    hide Accrued;
    AccruedMono(a, b, rate);
  }

  /** Nothing drawn, nothing owed. */
  lemma {:induction false} NoSpendNoFinance(f: Flow, m: nat)
    requires f.Valid() && m < |f.draws|
    requires forall k :: 1 <= k <= m ==> f.draws[k] == 0.0
    ensures Balance(f, m) == 0.0 && TotalInterest(f, m) == 0.0 && Peak(f, m) == 0.0
  {
    if m > 0 { NoSpendNoFinance(f, m - 1); }
  }

  lemma {:induction false} FinanceNonNegative(f: Flow, m: nat)
    requires f.Valid() && f.NonNegative() && m < |f.draws|
    ensures TotalInterest(f, m) >= 0.0 && Peak(f, m) >= 0.0
  {
    if m > 0 {
      FinanceNonNegative(f, m - 1);
      BalanceNonNegative(f, m - 1);
      MulNonNegative(Balance(f, m - 1), f.rate);
    }
  }
}
