/** Growth-explicit discounted cashflow over the held element. */
module Dcf {
  import opened Numbers
  import opened Yields
  import opened Valuation

  datatype DcfInput = DcfInput(
    holdYears: real, rentalGrowthPct: real, discountRatePct: real, exitYieldPct: real,
    exitCostsPct: Option<real>, reviewCycleYears: Option<real>)
  {
    function Years(): (n: nat) { AtLeastOne(Round(holdYears)) }

    function Cycle(): (n: nat)
      ensures n > 0
    {
      AtLeastOne(Round(reviewCycleYears.GetOr(5.0)))
    }

    function Growth(): real { rentalGrowthPct / 100.0 }

    function ExitYield(): real { exitYieldPct / 100.0 }
  }

  function AtLeastOne(n: int): nat { if n >= 1 then n else 1 }

  /** The year of the latest review at or before `t`, for a line first reviewed in year `first`. */
  function LastReview(first: nat, cycle: nat, t: nat): (r: nat)
    requires cycle > 0 && first <= t
  {
    first + (t - first) / cycle * cycle
  }

  function FirstReview(l: LineValue, cycle: nat): nat {
    if l.yearsToReview > 0 then l.yearsToReview else cycle
  }

  /** Passing rent until the first review, then the ERV grown to the latest review date. */
  function LineRent(l: LineValue, cycle: nat, growth: real, t: nat): real
    requires cycle > 0
  {
    var first := FirstReview(l, cycle);
    if t < first then l.netPassing
    else l.netErv * Pow(1.0 + growth, LastReview(first, cycle, t))
  }

  predicate LineReviewed(l: LineValue, cycle: nat, t: nat)
    requires cycle > 0
  {
    var first := FirstReview(l, cycle);
    first <= t && t == LastReview(first, cycle, t)
  }

  function RentIn(lines: seq<LineValue>, cycle: nat, growth: real, t: nat): real
    requires cycle > 0
  {
    if |lines| == 0 then 0.0
    else RentIn(lines[..|lines| - 1], cycle, growth, t) + LineRent(lines[|lines| - 1], cycle, growth, t)
  }

  predicate ReviewedIn(lines: seq<LineValue>, cycle: nat, t: nat)
    requires cycle > 0
  {
    exists k :: 0 <= k < |lines| && LineReviewed(lines[k], cycle, t)
  }

  datatype DcfYear = DcfYear(year: nat, rent: real, reviewed: bool, discountFactor: real, presentValue: real)

  function YearRow(lines: seq<LineValue>, cycle: nat, growth: real, discount: real, t: nat): DcfYear
    requires cycle > 0 && discount > -1.0
  {
    var rent := RentIn(lines, cycle, growth, t);
    DcfYear(t, rent, ReviewedIn(lines, cycle, t), Discount(discount, t), rent * Discount(discount, t))
  }

  function IncomePv(lines: seq<LineValue>, cycle: nat, growth: real, discount: real, years: nat): real
    requires cycle > 0 && discount > -1.0
  {
    if years == 0 then 0.0
    else IncomePv(lines, cycle, growth, discount, years - 1)
         + YearRow(lines, cycle, growth, discount, years).presentValue
  }

  /** The buyer capitalises the rent of the year after the last one collected. */
  function ExitValueGross(exitRent: real, exitYield: real): real {
    if exitYield > 0.0 then Div(exitRent, exitYield) else 0.0
  }

  function ExitPv(lines: seq<LineValue>, dcf: DcfInput, growth: real, discount: real): real
    requires discount > -1.0
  {
    var gross := ExitValueGross(RentIn(lines, dcf.Cycle(), growth, dcf.Years() + 1), dcf.ExitYield());
    (gross - gross * dcf.exitCostsPct.GetOr(0.0) / 100.0) * Discount(discount, dcf.Years())
  }

  function Npv(lines: seq<LineValue>, dcf: DcfInput, growth: real, discount: real): real
    requires discount > -1.0
  {
    IncomePv(lines, dcf.Cycle(), growth, discount, dcf.Years()) + ExitPv(lines, dcf, growth, discount)
  }

  /** `rentIn(t, growth)`: one pass over the lines, adding rents and noting a review. */
  method ComputeRent(lines: seq<LineValue>, cycle: nat, growth: real, t: nat) returns (rent: real, reviewed: bool)
    requires cycle > 0
    ensures rent == RentIn(lines, cycle, growth, t) && reviewed == ReviewedIn(lines, cycle, t)
  {
    rent, reviewed := 0.0, false;
    for k := 0 to |lines|
      invariant rent == RentIn(lines[..k], cycle, growth, t)
      invariant reviewed == exists j :: 0 <= j < k && LineReviewed(lines[j], cycle, t)
    {
      hide Pow;
      var l := lines[k];
      assert lines[..k + 1][..k] == lines[..k];
      assert RentIn(lines[..k + 1], cycle, growth, t) == RentIn(lines[..k], cycle, growth, t) + LineRent(l, cycle, growth, t);
      hide RentIn;
      var first := FirstReview(l, cycle);
      if t < first {
        rent := rent + l.netPassing;
      } else {
        var last := first + (t - first) / cycle * cycle;
        if t == last { reviewed := true; }
        rent := rent + l.netErv * Pow(1.0 + growth, last);
      }
    }
    assert lines[..|lines|] == lines;
  }

  /** What one run of the loop over the hold comes to. */
  datatype Built = Built(
    rows: seq<DcfYear>, incomePv: real, exitRent: real, exitValueGross: real, exitCosts: real, exitValueNet: real,
    exitPv: real, npv: real)

  /** The year loop: a row a year, and the income discounted as it goes; then the sale. */
  method Build(lines: seq<LineValue>, dcf: DcfInput, growth: real, discount: real) returns (b: Built)
    requires discount > -1.0
    ensures |b.rows| == dcf.Years()
    ensures forall t :: 1 <= t <= dcf.Years() ==> b.rows[t - 1] == YearRow(lines, dcf.Cycle(), growth, discount, t)
    ensures b.incomePv == IncomePv(lines, dcf.Cycle(), growth, discount, dcf.Years())
    ensures b.exitRent == RentIn(lines, dcf.Cycle(), growth, dcf.Years() + 1)
    ensures b.exitValueGross == (if dcf.exitYieldPct > 0.0 then Div(b.exitRent, dcf.exitYieldPct / 100.0) else 0.0)
    ensures b.exitCosts == b.exitValueGross * dcf.exitCostsPct.GetOr(0.0) / 100.0
    ensures b.exitValueNet == b.exitValueGross - b.exitCosts
    ensures b.exitPv == b.exitValueNet * Discount(discount, dcf.Years())
    ensures b.npv == b.incomePv + b.exitPv
    ensures b.npv == Npv(lines, dcf, growth, discount)
  {
    hide Discount, RentIn, ReviewedIn, Div;
    var rows, incomePv: real := [], 0.0;
    for t := 1 to dcf.Years() + 1
      invariant |rows| == t - 1
      invariant forall k :: 1 <= k < t ==> rows[k - 1] == YearRow(lines, dcf.Cycle(), growth, discount, k)
      invariant incomePv == IncomePv(lines, dcf.Cycle(), growth, discount, t - 1)
    {
      var rent, reviewed := ComputeRent(lines, dcf.Cycle(), growth, t);
      var df := Discount(discount, t);
      var pv := rent * df;
      incomePv := incomePv + pv;
      rows := rows + [DcfYear(t, rent, reviewed, df, pv)];
    }
    var exitRent, _ := ComputeRent(lines, dcf.Cycle(), growth, dcf.Years() + 1);
    var exitGross := ExitValueGross(exitRent, dcf.ExitYield());
    var exitCosts := exitGross * dcf.exitCostsPct.GetOr(0.0) / 100.0;
    var exitPv := (exitGross - exitCosts) * Discount(discount, dcf.Years());
    b := Built(rows, incomePv, exitRent, exitGross, exitCosts, exitGross - exitCosts, exitPv, incomePv + exitPv);
  }

  // ---------------------------------------------------------------- when the rent moves

  /** The year of a line's first review: its own, or a full cycle in when none is given. */
  lemma LineRule(l: LineValue, cycle: nat, growth: real, t: nat)
    requires cycle > 0
    ensures var first := if l.yearsToReview > 0 then l.yearsToReview else cycle;
            && (ReviewedIn([l], cycle, t) <==> t >= first && (t - first) % cycle == 0)
            && (t < first ==> RentIn([l], cycle, growth, t) == l.netPassing)
            && (t >= first && (t - first) % cycle == 0 ==>
                 RentIn([l], cycle, growth, t) == l.netErv * Pow(1.0 + growth, t))
  {
    var first := FirstReview(l, cycle);
    assert [l][0] == l && RentIn([l], cycle, growth, t) == LineRent(l, cycle, growth, t) by {
      assert [l][..0] == [];
      assert RentIn([], cycle, growth, t) == 0.0;
    }
    if t >= first {
      DivMod(t - first, cycle);
      assert LineReviewed(l, cycle, t) <==> (t - first) % cycle == 0;
    }
    assert LineReviewed([l][0], cycle, t) == LineReviewed(l, cycle, t);
    hide Pow;
  }

  lemma DivMod(a: nat, b: nat)
    requires b > 0
    ensures a / b * b == a - a % b
  {
  }

  /** Lines add up, and a year is a review year if any of them is reviewed. */
  lemma LinesAdd(lines: seq<LineValue>, l: LineValue, cycle: nat, growth: real, t: nat)
    requires cycle > 0
    ensures RentIn(lines + [l], cycle, growth, t) == RentIn(lines, cycle, growth, t) + RentIn([l], cycle, growth, t)
    ensures ReviewedIn(lines + [l], cycle, t) <==> ReviewedIn(lines, cycle, t) || ReviewedIn([l], cycle, t)
  {
    hide LineRent, LineReviewed;
    assert (lines + [l])[..|lines|] == lines && [l][..0] == [];
    assert RentIn([], cycle, growth, t) == 0.0;
    assert [l][0] == l && (lines + [l])[|lines|] == l;
    forall k | 0 <= k < |lines| ensures (lines + [l])[k] == lines[k] {}
    if k :| 0 <= k < |lines| && LineReviewed(lines[k], cycle, t) {
      assert LineReviewed((lines + [l])[k], cycle, t);
    }
    if LineReviewed(l, cycle, t) { assert LineReviewed((lines + [l])[|lines|], cycle, t); }
  }

  lemma SameReview(first: nat, cycle: nat, t: nat)
    requires cycle > 0 && first < t && LastReview(first, cycle, t) != t
    ensures LastReview(first, cycle, t - 1) == LastReview(first, cycle, t)
  {
    var a := t - first;
    DivMod(a, cycle);
    assert a % cycle != 0;
    DivMod(a - 1, cycle);
    assert (a - 1) / cycle == a / cycle by { SameQuotient(a, cycle); }
  }

  lemma SameQuotient(a: nat, b: nat)
    requires b > 0 && a > 0 && a % b != 0
    ensures (a - 1) / b == a / b
  {
    var q, r := a / b, a % b;
    assert a == q * b + r && 0 < r < b;
    assert a - 1 == q * b + (r - 1);
    QuotientIs(q, r - 1, b);
  }

  lemma QuotientIs(q: nat, r: nat, b: nat)
    requires r < b
    ensures (q * b + r) / b == q
  {
    var x := q * b + r;
    var d := x / b;
    assert x == d * b + x % b;
    if d < q { WholeMono(d + 1, q, b); }
    if d > q { WholeMono(q + 1, d, b); }
  }

  lemma WholeMono(a: nat, b: nat, c: nat)
    requires a <= b
    ensures a * c <= b * c
  {
  }

  /** A year not reported as reviewed is let at the rent of the year before, whatever the growth. */
  lemma {:induction false} UnreviewedKeepsRent(lines: seq<LineValue>, cycle: nat, growth: real, t: nat)
    requires cycle > 0 && t >= 1 && !ReviewedIn(lines, cycle, t)
    ensures RentIn(lines, cycle, growth, t) == RentIn(lines, cycle, growth, t - 1)
  {
    if |lines| > 0 {
      var n := |lines| - 1;
      var l := lines[n];
      var first := FirstReview(l, cycle);
      forall k | 0 <= k < n ensures !LineReviewed(lines[..n][k], cycle, t) { assert lines[..n][k] == lines[k]; }
      UnreviewedKeepsRent(lines[..n], cycle, growth, t);
      assert !LineReviewed(l, cycle, t);
      if first < t { SameReview(first, cycle, t); }
      hide Pow, LastReview;
    }
  }

  /** Before anything is reviewed the rent is what passes. */
  lemma {:induction false} RentBegins(lines: seq<LineValue>, cycle: nat, growth: real)
    requires cycle > 0
    ensures RentIn(lines, cycle, growth, 0) == SumOf((l: LineValue) => l.netPassing, lines)
  {
    SumOfSame(NetPassing, lines, (l: LineValue) => l.netPassing, lines);
    RentAtStart(lines, cycle, growth);
    hide *;
  }

  lemma {:induction false} RentAtStart(lines: seq<LineValue>, cycle: nat, growth: real)
    requires cycle > 0
    ensures RentIn(lines, cycle, growth, 0) == SumOf(NetPassing, lines)
  {
    if |lines| > 0 { RentAtStart(lines[..|lines| - 1], cycle, growth); }
  }

  lemma {:induction false} IncomeAddsUp(lines: seq<LineValue>, cycle: nat, growth: real, discount: real, rows: seq<DcfYear>)
    requires cycle > 0 && discount > -1.0
    requires forall t :: 1 <= t <= |rows| ==> rows[t - 1] == YearRow(lines, cycle, growth, discount, t)
    ensures IncomePv(lines, cycle, growth, discount, |rows|) == SumOf((r: DcfYear) => r.presentValue, rows)
  {
    IncomeRuns(lines, cycle, growth, discount, rows, |rows|);
    assert rows[..|rows|] == rows;
    SumOfSame(PresentValue, rows, (r: DcfYear) => r.presentValue, rows);
    hide *;
  }

  function PresentValue(r: DcfYear): real { r.presentValue }

  lemma {:induction false} IncomeRuns(lines: seq<LineValue>, cycle: nat, growth: real, discount: real, rows: seq<DcfYear>,
                                      k: nat)
    requires cycle > 0 && discount > -1.0 && k <= |rows|
    requires forall t :: 1 <= t <= |rows| ==> rows[t - 1] == YearRow(lines, cycle, growth, discount, t)
    ensures IncomePv(lines, cycle, growth, discount, k) == SumOf(PresentValue, rows[..k])
  {
    hide YearRow;
    if k > 0 {
      IncomeRuns(lines, cycle, growth, discount, rows, k - 1);
      assert rows[..k][..k - 1] == rows[..k - 1];
      assert rows[k - 1] == YearRow(lines, cycle, growth, discount, k);
    }
  }

  lemma FactorIs(discount: real, t: nat)
    requires discount > -1.0
    ensures Discount(discount, t) * Pow(1.0 + discount, t) == 1.0
  {
    PowPositive(1.0 + discount, t);
    DivLaw(1.0, Pow(1.0 + discount, t));
    hide Div;
  }

  datatype DcfResult = DcfResult(
    years: seq<DcfYear>, incomePv: real, exitRent: real, exitValueGross: real, exitCosts: real, exitValueNet: real,
    exitPv: real, netPresentValue: real, pvFromIncome: real, pvFromExit: real, equatedYield: real)

  /** What a review cycle is when it is given, and when it is not. */
  ghost predicate IsCycle(dcf: DcfInput, cycle: int) {
    var given := Round(if dcf.reviewCycleYears.Some? then dcf.reviewCycleYears.value else 5.0);
    cycle == if given >= 1 then given else 1
  }

  /** A year's row: its rent and whether it was reviewed, and the rent discounted over so many years. */
  ghost predicate YearIs(y: DcfYear, t: nat, lines: seq<LineValue>, cycle: nat, growth: real, discount: real)
    requires cycle > 0
  {
    && y.year == t && y.rent == RentIn(lines, cycle, growth, t) && (y.reviewed <==> ReviewedIn(lines, cycle, t))
    && y.discountFactor * Pow(1.0 + discount, t) == 1.0 && y.presentValue == y.rent * y.discountFactor
  }

  lemma RowIs(lines: seq<LineValue>, cycle: nat, growth: real, discount: real, t: nat)
    requires cycle > 0 && discount > -1.0
    ensures YearIs(YearRow(lines, cycle, growth, discount, t), t, lines, cycle, growth, discount)
    ensures YearRow(lines, cycle, growth, discount, t).discountFactor == Discount(discount, t)
  {
    FactorIs(discount, t);
    hide Discount, Pow, RentIn, ReviewedIn;
  }

  /** `discountedCashflow`, on its own percentages. */
  method DiscountedCashflow(income: IncomeInput, dcf: DcfInput, ghost cycle: nat) returns (r: DcfResult)
    requires income.Valid() && dcf.discountRatePct > -100.0 && IsCycle(dcf, cycle)
    ensures |r.years| == if Round(dcf.holdYears) >= 1 then Round(dcf.holdYears) else 1
    ensures cycle > 0
    ensures var lines, g := Capitalise(income).lines, dcf.rentalGrowthPct / 100.0;
            && (forall k :: 0 <= k < |r.years| ==>
                 YearIs(r.years[k], k + 1, lines, cycle, g, dcf.discountRatePct / 100.0))
            && r.exitRent == RentIn(lines, cycle, g, |r.years| + 1)
    ensures r.incomePv == SumOf((y: DcfYear) => y.presentValue, r.years)
    ensures if dcf.exitYieldPct > 0.0 then r.exitValueGross * dcf.exitYieldPct == 100.0 * r.exitRent
            else r.exitValueGross == 0.0
    ensures 100.0 * r.exitCosts
         == r.exitValueGross * (if dcf.exitCostsPct.Some? then dcf.exitCostsPct.value else 0.0)
    ensures r.exitValueNet == r.exitValueGross - r.exitCosts
    ensures r.exitPv == r.exitValueNet * r.years[|r.years| - 1].discountFactor
    ensures r.netPresentValue == r.incomePv + r.exitPv
    ensures if r.netPresentValue > 0.0
            then r.pvFromIncome * r.netPresentValue == r.incomePv && r.pvFromExit * r.netPresentValue == r.exitPv
            else r.pvFromIncome == 0.0 == r.pvFromExit
    ensures IsEquatedYield(income, dcf, r.equatedYield)
    ensures NpvCurve(Capitalise(income).lines, dcf)(dcf.discountRatePct / 100.0) == r.netPresentValue
  {
    hide *;
    CurveIs(Capitalise(income).lines, dcf, dcf.discountRatePct / 100.0);
    CycleIs(dcf, cycle);
    var g, d := dcf.rentalGrowthPct / 100.0, dcf.discountRatePct / 100.0;
    var lines := Capitalise(income).lines;
    var b := Build(lines, dcf, g, d);
    var y := EquatedYield(income, dcf);
    IncomeAddsUp(lines, cycle, g, d, b.rows);
    forall k | 0 <= k < |b.rows| ensures YearIs(b.rows[k], k + 1, lines, cycle, g, d) {
      assert b.rows[k] == b.rows[(k + 1) - 1];
      RowIs(lines, cycle, g, d, k + 1);
    }
    RowIs(lines, cycle, g, d, |b.rows|);
    assert b.rows[|b.rows| - 1] == YearRow(lines, cycle, g, d, |b.rows|);
    if dcf.exitYieldPct > 0.0 { HundredOver(b.exitRent, dcf.exitYieldPct, b.exitValueGross); }
    CostsAre(dcf, b.exitValueGross, b.exitCosts);
    if b.npv > 0.0 {
      DivLaw(b.incomePv, b.npv);
      DivLaw(b.exitPv, b.npv);
    }
    r := DcfResult(
      b.rows, b.incomePv, b.exitRent, b.exitValueGross, b.exitCosts, b.exitValueNet, b.exitPv, b.npv,
      if b.npv > 0.0 then Div(b.incomePv, b.npv) else 0.0, if b.npv > 0.0 then Div(b.exitPv, b.npv) else 0.0, y);
  }

  /** The curve the equated yield is found on: the same rents and the same sale, discounted at another rate. */
  lemma CurveIs(lines: seq<LineValue>, dcf: DcfInput, discount: real)
    requires discount > -1.0
    ensures NpvCurve(lines, dcf)(discount) == Npv(lines, dcf, dcf.rentalGrowthPct / 100.0, discount)
  {
    hide IncomePv, ExitPv;
    assert dcf.Growth() == dcf.rentalGrowthPct / 100.0;
  }

  /** It does not depend on the rate the cashflow itself is discounted at. */
  lemma CurveIgnoresRate(lines: seq<LineValue>, dcf: DcfInput, pct: real, discount: real)
    requires discount > -1.0
    ensures NpvCurve(lines, dcf.(discountRatePct := pct))(discount) == NpvCurve(lines, dcf)(discount)
  {
    var other, g := dcf.(discountRatePct := pct), dcf.rentalGrowthPct / 100.0;
    CurveIs(lines, dcf, discount);
    CurveIs(lines, other, discount);
    assert other.Cycle() == dcf.Cycle() && other.Years() == dcf.Years() && other.ExitYield() == dcf.ExitYield();
    hide IncomePv, RentIn, Discount, ExitValueGross, NpvCurve;
    assert ExitPv(lines, other, g, discount) == ExitPv(lines, dcf, g, discount);
  }

  lemma CycleIs(dcf: DcfInput, cycle: int)
    requires IsCycle(dcf, cycle)
    ensures cycle > 0 && dcf.Cycle() == cycle
    ensures dcf.Years() == (if Round(dcf.holdYears) >= 1 then Round(dcf.holdYears) else 1) >= 1
  {
    hide Round;
  }

  lemma CostsAre(dcf: DcfInput, gross: real, costs: real)
    requires costs == gross * dcf.exitCostsPct.GetOr(0.0) / 100.0
    ensures 100.0 * costs == gross * (if dcf.exitCostsPct.Some? then dcf.exitCostsPct.value else 0.0)
  {
  }

  lemma HundredOver(a: real, pct: real, q: real)
    requires pct > 0.0 && q == Div(a, pct / 100.0)
    ensures q * pct == 100.0 * a
  {
    DivLaw(a, pct / 100.0);
    hide Div;
    assert q * pct == 100.0 * (q * (pct / 100.0));
  }

  // ---------------------------------------------------------------- the DCF and the perpetuity are one valuation

  /** No line has an uplift to revert to. */
  ghost predicate NoUplift(lines: seq<LineValue>) {
    forall k :: 0 <= k < |lines| ==> lines[k].netErv == lines[k].netPassing
  }

  lemma {:induction false} LevelRent(lines: seq<LineValue>, cycle: nat, t: nat)
    requires cycle > 0 && NoUplift(lines)
    ensures RentIn(lines, cycle, 0.0, t) == SumOf(NetPassing, lines)
  {
    var n := |lines| - 1;
    if n >= 0 {
      LevelRent(lines[..n], cycle, t);
      var first := FirstReview(lines[n], cycle);
      if t >= first { PowOne(LastReview(first, cycle, t)); }
    }
  }

  lemma {:induction false} LevelIncomePv(lines: seq<LineValue>, cycle: nat, discount: real, years: nat)
    requires cycle > 0 && discount > -1.0 && NoUplift(lines)
    ensures IncomePv(lines, cycle, 0.0, discount, years) == SumOf(NetPassing, lines) * AnnuitySum(years, discount)
  {
    hide Discount, RentIn;
    if years > 0 {
      LevelIncomePv(lines, cycle, discount, years - 1);
      LevelRent(lines, cycle, years);
      ProductAdds(SumOf(NetPassing, lines), AnnuitySum(years - 1, discount), Discount(discount, years));
    }
  }

  lemma ProductAdds(a: real, p: real, q: real)
    ensures a * (p + q) == a * p + a * q
  {
  }

  /** Level rent, nothing lost at exit: the present value as a multiple of the rent. */
  lemma LevelNpv(lines: seq<LineValue>, dcf: DcfInput, discount: real)
    requires discount > -1.0 && NoUplift(lines)
    requires dcf.exitCostsPct.GetOr(0.0) == 0.0 && dcf.ExitYield() > 0.0
    ensures Npv(lines, dcf, 0.0, discount)
         == SumOf(NetPassing, lines)
            * (AnnuitySum(dcf.Years(), discount) + YpPerpetuity(dcf.ExitYield()) * Discount(discount, dcf.Years()))
  {
    hide Discount, RentIn, IncomePv, Div;
    var rent, n, p := SumOf(NetPassing, lines), dcf.Years(), YpPerpetuity(dcf.ExitYield());
    LevelIncomePv(lines, dcf.Cycle(), discount, n);
    LevelRent(lines, dcf.Cycle(), n + 1);
    DivReciprocal(rent, dcf.ExitYield());
    var gross := ExitValueGross(rent, dcf.ExitYield());
    assert gross == rent * p;
    assert gross * dcf.exitCostsPct.GetOr(0.0) / 100.0 == 0.0;
    assert (rent * p) * Discount(discount, n) == rent * (p * Discount(discount, n));
    ProductAdds(rent, AnnuitySum(n, discount), p * Discount(discount, n));
  }

  /** With nil growth, no uplift, no exit costs and one rate throughout, every hold period is worth rent / yield. */
  lemma DcfReconciles(lines: seq<LineValue>, dcf: DcfInput)
    requires NoUplift(lines) && dcf.exitCostsPct.GetOr(0.0) == 0.0 && dcf.ExitYield() > 0.0
    ensures Npv(lines, dcf, 0.0, dcf.ExitYield()) == Div(SumOf(NetPassing, lines), dcf.ExitYield())
  {
    hide Discount, Npv, Div, YpYears, YpPerpetuity, AnnuitySum;
    var i, n := dcf.ExitYield(), dcf.Years();
    LevelNpv(lines, dcf, i);
    YpYearsIsAnnuity(n, i);
    TermPlusReversion(n, i);
    PerpetuityValue(SumOf(NetPassing, lines), i);
  }

  lemma PerpetuityValue(rent: real, i: real)
    requires i > 0.0
    ensures rent * YpPerpetuity(i) == Div(rent, i)
  {
    hide Div;
    DivReciprocal(rent, i);
  }

  // ---------------------------------------------------------------- equated yield

  function NpvCurve(lines: seq<LineValue>, dcf: DcfInput): real -> real {
    d => if d > -1.0 then Npv(lines, dcf, dcf.Growth(), d) else 0.0
  }

  ghost predicate IsEquatedYield(income: IncomeInput, dcf: DcfInput, y: real)
    requires income.Valid()
  {
    var cap := Capitalise(income);
    if cap.netCapitalValue > 0.0
    then Bisected(NpvCurve(cap.lines, dcf), cap.netCapitalValue, 0.0005, 0.6, 90, y)
    else y == 0.0
  }

  method EquatedYield(income: IncomeInput, dcf: DcfInput) returns (y: real)
    requires income.Valid()
    ensures IsEquatedYield(income, dcf, y)
  {
    hide Capitalise, Npv, Pow, SumOf;
    var cap := Capitalise(income);
    var target := cap.netCapitalValue;
    y := 0.0;
    if target > 0.0 {
      ghost var curve := NpvCurve(cap.lines, dcf);
      var lo, hi := 0.0005, 0.6;
      PowZero(2.0);
      for k := 0 to 90
        invariant Bracketed(curve, target, 0.0005, 0.6, lo, hi)
        invariant (hi - lo) * Pow(2.0, k) == 0.5995
      {
        Halved(lo, hi, k);
        var mid := (lo + hi) / 2.0;
        var b := Build(cap.lines, dcf, dcf.Growth(), mid);
        if b.npv > target { lo := mid; } else { hi := mid; }
      }
      y := (lo + hi) / 2.0;
    }
  }

  /** Capitalised and discounted on the same terms: one yield, level rents and nothing deducted on either side. */
  ghost predicate SameTerms(income: IncomeInput, dcf: DcfInput, pct: real)
    requires income.Valid()
  {
    && OneYield(income, pct) && SoundIncome(income) && NoUplift(CapitaliseLines(income))
    && dcf.rentalGrowthPct == 0.0 && dcf.exitYieldPct == pct && dcf.exitCostsPct.GetOr(0.0) == 0.0
    && income.PurchaserCosts() == 0.0 && income.letUpMonths.GetOr(0.0) == 0.0
  }

  lemma LevelNpvFalls(lines: seq<LineValue>, dcf: DcfInput, lo: real, hi: real)
    requires NoUplift(lines) && SumOf(NetPassing, lines) > 0.0 && lo > 0.0
    requires dcf.rentalGrowthPct == 0.0 && dcf.exitCostsPct.GetOr(0.0) == 0.0 && dcf.ExitYield() > 0.0
    ensures Falling(NpvCurve(lines, dcf), lo, hi)
  {
    hide Npv, Discount, AnnuitySum, YpPerpetuity;
    var n, p := dcf.Years(), YpPerpetuity(dcf.ExitYield());
    PerpetuityPositive(dcf.ExitYield());
    assert dcf.Growth() == 0.0;
    forall i, j | lo <= i < j <= hi ensures NpvCurve(lines, dcf)(i) > NpvCurve(lines, dcf)(j) {
      LevelNpv(lines, dcf, i);
      LevelNpv(lines, dcf, j);
      AnnuityFalls(n, i, j);
      DiscountFalls(i, j, n);
      MulMono(Discount(j, n), Discount(i, n), p);
      MulStrict(AnnuitySum(n, j) + p * Discount(j, n), AnnuitySum(n, i) + p * Discount(i, n),
                SumOf(NetPassing, lines));
    }
  }

  lemma PerpetuityPositive(i: real)
    requires i > 0.0
    ensures YpPerpetuity(i) > 0.0
  {
    hide Div;
    DivPositive(1.0, i);
  }

  /** Level rents at one yield: the capitalised value is rent / yield. */
  lemma LevelCapitalValue(income: IncomeInput, dcf: DcfInput, pct: real)
    requires income.Valid() && SameTerms(income, dcf, pct)
    ensures Capitalise(income).grossCapitalValue
         == Div(SumOf(NetPassing, CapitaliseLines(income)), pct / 100.0)
         == Capitalise(income).netCapitalValue
    ensures SumOf(NetPassing, CapitaliseLines(income)) > 0.0
  {
    hide Div, RentOf, NetOf, Share, SumOf, YpPerpetuity, NetRent;
    var lines, i := CapitaliseLines(income), pct / 100.0;
    assert i > 0.0;
    var p := YpPerpetuity(i);
    forall k | 0 <= k < |lines| ensures Value(lines[k]) == NetPassing(lines[k]) * p {
      LevelLineValue(income, pct, k);
    }
    SumOfScaled(NetPassing, lines, Value, lines, p);
    PerpetuityValue(SumOf(NetPassing, lines), i);
    PerpetuityPositive(i);
    var rent := SumOf(NetPassing, lines);
    if rent <= 0.0 { MulMono(rent, 0.0, p); }
    var cap := Capitalise(income);
    assert LetUp(NetRent(income), 0.0) == 0.0;
    DivUnique(cap.capitalValueBeforeCosts, 1.0, cap.capitalValueBeforeCosts);
  }

  lemma LevelLineValue(income: IncomeInput, pct: real, k: nat)
    requires OneYield(income, pct) && k < |income.lines| && NoUplift(CapitaliseLines(income))
    ensures CapitaliseLines(income)[k].value == CapitaliseLines(income)[k].netPassing * YpPerpetuity(pct / 100.0)
  {
    hide Div, RentOf, NetOf, Share, SumOf, YpPerpetuity, YpYears, PvOfPound;
    assert CapitaliseLines(income)[k].netErv == CapitaliseLines(income)[k].netPassing;
  }

  /** On the same terms the equated yield is the all-risks yield, to within 0.5995 / 2^91. */
  lemma EquatedYieldRecovered(income: IncomeInput, dcf: DcfInput, pct: real, y: real)
    requires income.Valid() && SameTerms(income, dcf, pct) && 0.05 <= pct <= 60.0
    requires IsEquatedYield(income, dcf, y)
    ensures Abs(y - pct / 100.0) * Pow(2.0, 91) <= 0.5995
  {
    hide Div, Npv, SumOf, Pow, CapitaliseLines, NetRent;
    var lines, i := CapitaliseLines(income), pct / 100.0;
    LevelCapitalValue(income, dcf, pct);
    DivPositive(SumOf(NetPassing, lines), i);
    LevelNpvFalls(lines, dcf, 0.0005, 0.6);
    DcfReconciles(lines, dcf);
    assert dcf.Growth() == 0.0 && dcf.ExitYield() == i;
    assert NpvCurve(lines, dcf)(i) == Capitalise(income).netCapitalValue;
    BisectionFindsRoot(NpvCurve(lines, dcf), Capitalise(income).netCapitalValue, 0.0005, 0.6, 90, y, i);
  }
}
