/** What the investment method reports of every line and of the property, on the fields of its input. */
module Capitalisation {
  import opened Numbers
  import opened Yields
  import opened Valuation

  /** A line's rent a year after voids, as it passes and at the market. */
  function Passing(l: IncomeLine): real {
    l.count * l.area * l.rentPsf * (1.0 - (if l.voidPct.Some? then l.voidPct.value else 0.0) / 100.0)
  }

  function Market(l: IncomeLine): real {
    l.count * l.area * (if l.ervPsf.Some? then l.ervPsf.value else l.rentPsf)
    * (1.0 - (if l.voidPct.Some? then l.voidPct.value else 0.0) / 100.0)
  }

  function Deductions(input: IncomeInput): real {
    if input.annualDeductions.Some? then input.annualDeductions.value else 0.0
  }

  /** Rent less its share of the percentage that cannot be recovered, and of the fixed deductions. */
  function Kept(input: IncomeInput, rent: real, l: IncomeLine): real {
    var total := SumOf(Passing, input.lines);
    rent * (1.0 - input.nonRecoverablePct / 100.0)
    - Deductions(input) * (if total > 0.0 then Div(Passing(l), total) else 0.0)
  }

  lemma PassingIs(l: IncomeLine)
    ensures AfterVoid(l) == Passing(l) && RentOf(l).ervAfterVoid == Market(l)
  {
  }

  lemma TotalPassing(input: IncomeInput)
    ensures SumOf(AfterVoid, input.lines) == SumOf(Passing, input.lines)
  {
    forall k | 0 <= k < |input.lines| ensures AfterVoid(input.lines[k]) == Passing(input.lines[k]) {
      PassingIs(input.lines[k]);
    }
    hide AfterVoid, Passing, SumOf;
    SumOfSame(AfterVoid, input.lines, Passing, input.lines);
  }

  lemma KeptIs(input: IncomeInput, rent: real, l: IncomeLine)
    ensures NetOf(input, rent, Share(RentOf(l).afterVoid, SumOf(AfterVoid, input.lines))) == Kept(input, rent, l)
  {
    PassingIs(l);
    TotalPassing(input);
    assert RentOf(l).afterVoid == Passing(l);
    hide RentOf, SumOf, Passing, AfterVoid, Div;
  }

  /** The line's rents are what its area lets for, less voids, what is not recovered, and its part of the deductions. */
  lemma RentsAre(input: IncomeInput, k: nat)
    requires input.Valid() && k < |input.lines|
    ensures |Capitalise(input).lines| == |input.lines|
    ensures var l, v := input.lines[k], Capitalise(input).lines[k];
            && v.totalArea == l.count * l.area
            && v.netPassing == Kept(input, Passing(l), l) && v.netErv == Kept(input, Market(l), l)
  {
    var l := input.lines[k];
    ResultLines(input);
    KeptIs(input, RentOf(l).afterVoid, l);
    KeptIs(input, RentOf(l).ervAfterVoid, l);
    PassingIs(l);
    assert RentOf(l).afterVoid == Passing(l) && RentOf(l).totalArea == l.count * l.area;
    LineRents(input, k);
    hide *;
  }

  lemma LineRents(input: IncomeInput, k: nat)
    requires k < |input.lines|
    ensures |CapitaliseLines(input)| == |input.lines|
    ensures var l, v := input.lines[k], CapitaliseLines(input)[k];
            var s := Share(RentOf(l).afterVoid, SumOf(AfterVoid, input.lines));
            && v.totalArea == RentOf(l).totalArea
            && v.netPassing == NetOf(input, RentOf(l).afterVoid, s)
            && v.netErv == NetOf(input, RentOf(l).ervAfterVoid, s)
  {
    hide RentOf, NetOf, Share, SumOf, TermValue, ReversionValue;
  }

  lemma NetOfDeductions(input: IncomeInput)
    ensures NetRent(input)
         == SumOf(AfterVoid, input.lines) * (1.0 - input.nonRecoverablePct / 100.0) - Deductions(input)
  {
    NetRentIs(input);
    hide SumOf, NetRent;
  }

  lemma AreaFigure(l: IncomeLine)
    ensures LineArea(l) == l.count * l.area
  {
  }

  lemma LineFigures(v: LineValue)
    ensures NetErv(v) == v.netErv && Value(v) == v.value
  {
  }

  lemma CapitaliseParts(input: IncomeInput)
    requires input.Valid()
    ensures var r := Capitalise(input);
            && r.totalArea == SumOf(LineArea, input.lines) && r.netRent == NetRent(input)
            && r.netErv == SumOf(NetErv, r.lines) && r.grossCapitalValue == SumOf(Value, r.lines)
  {
    hide CapitaliseLines, SumOf, NetRent, LetUp, Div;
  }

  /** The property's area and rents are its lines' together; its net rent is what they pass less every deduction. */
  lemma PropertyRents(input: IncomeInput)
    requires input.Valid()
    ensures var r := Capitalise(input);
            && r.totalArea == SumOf((l: IncomeLine) => l.count * l.area, input.lines)
            && r.netRent == SumOf(Passing, input.lines) * (1.0 - input.nonRecoverablePct / 100.0) - Deductions(input)
            && r.netErv == SumOf((v: LineValue) => v.netErv, r.lines)
            && r.grossCapitalValue == SumOf((v: LineValue) => v.value, r.lines)
  {
    hide *;
    TotalPassing(input);
    NetOfDeductions(input);
    CapitaliseParts(input);
    var r := Capitalise(input);
    var area := (l: IncomeLine) => l.count * l.area;
    var erv := (v: LineValue) => v.netErv;
    var value := (v: LineValue) => v.value;
    forall k | 0 <= k < |input.lines| ensures LineArea(input.lines[k]) == area(input.lines[k]) {
      AreaFigure(input.lines[k]);
    }
    forall k | 0 <= k < |r.lines| ensures NetErv(r.lines[k]) == erv(r.lines[k]) && Value(r.lines[k]) == value(r.lines[k]) {
      LineFigures(r.lines[k]);
    }
    SumOfSame(LineArea, input.lines, area, input.lines);
    SumOfSame(NetErv, r.lines, erv, r.lines);
    SumOfSame(Value, r.lines, value, r.lines);
  }

  /**
   * From the lines' values to the price: the rent lost while space is let, and the purchaser's costs, which are a
   * percentage of the price and 6.8 when nothing is said.
   */
  lemma PriceIs(input: IncomeInput, costsPct: real)
    requires input.Valid() && costsPct == (if input.purchaserCostsPct.Some? then input.purchaserCostsPct.value else 6.8)
    ensures var r := Capitalise(input);
            && 12.0 * r.letUpDeduction == r.netRent * (if input.letUpMonths.Some? then input.letUpMonths.value else 0.0)
            && r.capitalValueBeforeCosts == r.grossCapitalValue - r.letUpDeduction
            && r.netCapitalValue * (100.0 + costsPct) == 100.0 * r.capitalValueBeforeCosts
            && r.purchaserCosts == r.capitalValueBeforeCosts - r.netCapitalValue
  {
    var r := Capitalise(input);
    DivLaw(r.capitalValueBeforeCosts, 1.0 + costsPct / 100.0);
    hide SumOf, CapitaliseLines, NetRent, Div;
    HundredTimes(r.netCapitalValue, costsPct, r.capitalValueBeforeCosts);
  }

  lemma HundredTimes(x: real, pct: real, y: real)
    requires x * (1.0 + pct / 100.0) == y
    ensures x * (100.0 + pct) == 100.0 * y
  {
    assert x * (100.0 + pct) == 100.0 * (x * (1.0 + pct / 100.0));
  }

  // ---------------------------------------------------------------- which yield prices which slice

  /** The yield a line's passing rent is priced at, and the one its reversion is. */
  ghost predicate YieldsOf(input: IncomeInput, l: IncomeLine, i: real, j: real) {
    && i == (match l.yieldPct case Some(y) => y case None => input.yieldPct) / 100.0
    && j == (match input.reversionYieldPct case Some(y) => y / 100.0 case None => i)
  }

  function YearsLeft(l: IncomeLine): nat {
    match l.yearsToReview
    case Some(n) => if n > 0 then n else 0
    case None => 0
  }

  /** There is something to revert to: the method splits, the review is to come, and the rents differ. */
  ghost predicate Reverts(input: IncomeInput, l: IncomeLine, v: LineValue) {
    && input.kind.Some? && input.kind.value != Perpetuity && YearsLeft(l) > 0
    && (v.netErv - v.netPassing > 0.000000001 || v.netPassing - v.netErv > 0.000000001)
  }

  /**
   * At positive yields: a line with nothing to revert to is its passing rent in perpetuity at its own yield. Split
   * vertically it is the passing rent year by year to the review at its own yield, and the market rent in perpetuity
   * at the reversion yield, deferred to the review at that. Split horizontally it is the passing rent in perpetuity at
   * its own yield, and the uplift at the reversion yield, deferred.
   */
  lemma LineWorth(input: IncomeInput, k: nat, i: real, j: real)
    requires input.Valid() && k < |input.lines| && YieldsOf(input, input.lines[k], i, j) && i > 0.0 && j > 0.0
    ensures |Capitalise(input).lines| == |input.lines|
    ensures var l, v := input.lines[k], Capitalise(input).lines[k];
            var n := YearsLeft(l);
            && v.yearsToReview == n && (v.isReversionary <==> Reverts(input, l, v))
            && v.value == v.termValue + v.reversionValue
            && (!Reverts(input, l, v) ==> v.termValue == Div(v.netPassing, i) && v.reversionValue == 0.0)
            && (Reverts(input, l, v) && input.kind == Some(TermReversion) ==>
                 && v.termValue == v.netPassing * AnnuitySum(n, i)
                 && v.reversionValue == Div(v.netErv, j) * Discount(j, n))
            && (Reverts(input, l, v) && input.kind == Some(Hardcore) ==>
                 && v.termValue == Div(v.netPassing, i)
                 && v.reversionValue == Div(v.netErv - v.netPassing, j) * Discount(j, n))
  {
    hide *;
    ResultLines(input);
    LineSplit(input, k, i, j);
    SplitWorth(Capitalise(input).lines[k], input.kind.GetOr(Perpetuity), Reverts(input, input.lines[k], Capitalise(input).lines[k]),
               YearsLeft(input.lines[k]), i, j);
    RevertsKind(input, input.lines[k], Capitalise(input).lines[k]);
  }

  lemma RevertsKind(input: IncomeInput, l: IncomeLine, v: LineValue)
    ensures Reverts(input, l, v) ==> input.kind.Some? && input.kind.value == input.kind.GetOr(Perpetuity) != Perpetuity
  {
  }

  /** How a line's value is put together from the factors. */
  ghost predicate SplitsSo(v: LineValue, kind: IncomeMethod, reverts: bool, n: nat, i: real, j: real) {
    && v.yearsToReview == n && (v.isReversionary <==> reverts)
    && v.value == v.termValue + v.reversionValue
    && (!reverts ==> v.termValue == Times(v.netPassing, YpPerpetuity(i)) && v.reversionValue == 0.0)
    && (reverts && kind == TermReversion ==>
         && v.termValue == Times(v.netPassing, YpYears(n, i))
         && v.reversionValue == Times(v.netErv, YpPerpetuity(j) * PvOfPound(n, j)))
    && (reverts && kind == Hardcore ==>
         && v.termValue == Times(v.netPassing, YpPerpetuity(i))
         && v.reversionValue == Times(v.netErv - v.netPassing, YpPerpetuity(j) * PvOfPound(n, j)))
  }

  lemma SplitWorth(v: LineValue, kind: IncomeMethod, reverts: bool, n: nat, i: real, j: real)
    requires SplitsSo(v, kind, reverts, n, i, j) && i > 0.0 && j > 0.0
    ensures v.yearsToReview == n && (v.isReversionary <==> reverts)
    ensures v.value == v.termValue + v.reversionValue
    ensures !reverts ==> v.termValue == Div(v.netPassing, i) && v.reversionValue == 0.0
    ensures reverts && kind == TermReversion ==>
      v.termValue == v.netPassing * AnnuitySum(n, i) && v.reversionValue == Div(v.netErv, j) * Discount(j, n)
    ensures reverts && kind == Hardcore ==>
      v.termValue == Div(v.netPassing, i) && v.reversionValue == Div(v.netErv - v.netPassing, j) * Discount(j, n)
  {
    SlicesAre(v.netPassing, v.netErv, n, i, j);
    hide Div, Discount, AnnuitySum, YpPerpetuity, YpYears, PvOfPound, Times;
  }

  lemma LineSplit(input: IncomeInput, k: nat, i: real, j: real)
    requires k < |input.lines| && YieldsOf(input, input.lines[k], i, j)
    ensures |CapitaliseLines(input)| == |input.lines|
    ensures SplitsSo(CapitaliseLines(input)[k], input.kind.GetOr(Perpetuity),
                     Reverts(input, input.lines[k], CapitaliseLines(input)[k]), YearsLeft(input.lines[k]), i, j)
  {
    hide RentOf, NetOf, Share, SumOf, YpPerpetuity, YpYears, PvOfPound;
  }

  lemma SlicesAre(passing: real, erv: real, n: nat, i: real, j: real)
    requires i > 0.0 && j > 0.0
    ensures Times(passing, YpPerpetuity(i)) == Div(passing, i)
    ensures Times(passing, YpYears(n, i)) == passing * AnnuitySum(n, i)
    ensures Times(erv, YpPerpetuity(j) * PvOfPound(n, j)) == Div(erv, j) * Discount(j, n)
    ensures Times(erv - passing, YpPerpetuity(j) * PvOfPound(n, j)) == Div(erv - passing, j) * Discount(j, n)
  {
    YpYearsIsAnnuity(n, i);
    DivReciprocal(passing, i);
    DivReciprocal(erv, j);
    DivReciprocal(erv - passing, j);
    hide Div, Discount, AnnuitySum, YpYears;
    var p, d := Div(1.0, j), Discount(j, n);
    assert erv * (p * d) == (erv * p) * d;
    assert (erv - passing) * (p * d) == ((erv - passing) * p) * d;
  }

  /** Without a positive yield a perpetuity is worth nothing, and a term of `n` years is `n` rents. */
  lemma WorthWithoutYield(input: IncomeInput, k: nat, i: real, j: real)
    requires input.Valid() && k < |input.lines| && YieldsOf(input, input.lines[k], i, j)
    ensures |Capitalise(input).lines| == |input.lines|
    ensures var l, v := input.lines[k], Capitalise(input).lines[k];
            && (i <= 0.0 ==>
                 v.termValue == if Reverts(input, l, v) && input.kind == Some(TermReversion)
                   then v.netPassing * YearsLeft(l) as real else 0.0)
            && (j <= 0.0 ==> v.reversionValue == 0.0)
  {
    hide *;
    ResultLines(input);
    LineSplit(input, k, i, j);
    RevertsKind(input, input.lines[k], Capitalise(input).lines[k]);
    SplitWithoutYield(Capitalise(input).lines[k], input.kind.GetOr(Perpetuity),
                      Reverts(input, input.lines[k], Capitalise(input).lines[k]), YearsLeft(input.lines[k]), i, j);
  }

  lemma SplitWithoutYield(v: LineValue, kind: IncomeMethod, reverts: bool, n: nat, i: real, j: real)
    requires SplitsSo(v, kind, reverts, n, i, j) && (reverts ==> kind != Perpetuity)
    ensures i <= 0.0 ==> v.termValue == if reverts && kind == TermReversion then v.netPassing * n as real else 0.0
    ensures j <= 0.0 ==> v.reversionValue == 0.0
  {
    hide PvOfPound;
  }

  /**
   * Moving the reversion yield alone never moves a line's rents or its term; raising it never raises the value of a
   * line split vertically with market rent, nor of one split horizontally with an uplift.
   */
  lemma ReversionYieldMoves(a: IncomeInput, b: IncomeInput, k: nat, low: real, high: real)
    requires a.Valid() && k < |a.lines| && 0.0 < low <= high
    requires a.reversionYieldPct == Some(low) && b == a.(reversionYieldPct := Some(high))
    ensures b.Valid() && |Capitalise(a).lines| == |Capitalise(b).lines| == |a.lines|
    ensures var v, w := Capitalise(a).lines[k], Capitalise(b).lines[k];
            && w.netPassing == v.netPassing && w.netErv == v.netErv && w.termValue == v.termValue
            && (a.kind == Some(TermReversion) && v.netErv >= 0.0 ==> w.value <= v.value)
            && (a.kind == Some(Hardcore) && v.netErv >= v.netPassing ==> w.value <= v.value)
  {
    hide *;
    var l := a.lines[k];
    var i := (match l.yieldPct case Some(y) => y case None => a.yieldPct) / 100.0;
    SameMethod(a, b, k, i, low, high);
    ResultLines(a);
    ResultLines(b);
    var v, w := Capitalise(a).lines[k], Capitalise(b).lines[k];
    LineSplit(a, k, i, low / 100.0);
    LineSplit(b, k, i, high / 100.0);
    DeferredFalls(YearsLeft(l), low / 100.0, high / 100.0);
    ReversionFalls(v, w, a.kind.GetOr(Perpetuity), Reverts(a, l, v), YearsLeft(l), i, low / 100.0, high / 100.0);
  }

  lemma SameMethod(a: IncomeInput, b: IncomeInput, k: nat, i: real, low: real, high: real)
    requires a.Valid() && k < |a.lines| && a.reversionYieldPct == Some(low) && b == a.(reversionYieldPct := Some(high))
    requires i == (match a.lines[k].yieldPct case Some(y) => y case None => a.yieldPct) / 100.0
    ensures b.Valid() && YieldsOf(a, a.lines[k], i, low / 100.0) && YieldsOf(b, b.lines[k], i, high / 100.0)
    ensures |CapitaliseLines(a)| == |CapitaliseLines(b)| == |a.lines|
    ensures var v, w := CapitaliseLines(a)[k], CapitaliseLines(b)[k];
            && w.netPassing == v.netPassing && w.netErv == v.netErv && w.termValue == v.termValue
            && (Reverts(b, b.lines[k], w) <==> Reverts(a, a.lines[k], v))
    ensures a.kind == Some(TermReversion) ==> a.kind.GetOr(Perpetuity) == TermReversion
    ensures a.kind == Some(Hardcore) ==> a.kind.GetOr(Perpetuity) == Hardcore
    ensures b.kind == a.kind
  {
    TermsAgree(a, b, k);
    hide CapitaliseLines;
  }

  lemma ReversionFalls(v: LineValue, w: LineValue, kind: IncomeMethod, reverts: bool, n: nat, i: real, j: real, h: real)
    requires SplitsSo(v, kind, reverts, n, i, j) && SplitsSo(w, kind, reverts, n, i, h)
    requires w.netPassing == v.netPassing && w.netErv == v.netErv && w.termValue == v.termValue
    requires YpPerpetuity(h) * PvOfPound(n, h) <= YpPerpetuity(j) * PvOfPound(n, j)
    ensures kind == TermReversion && v.netErv >= 0.0 ==> w.value <= v.value
    ensures kind == Hardcore && v.netErv >= v.netPassing ==> w.value <= v.value
  {
    hide YpPerpetuity, YpYears, PvOfPound, Times;
    var c, d := YpPerpetuity(h) * PvOfPound(n, h), YpPerpetuity(j) * PvOfPound(n, j);
    if v.netErv >= 0.0 { TimesMono(c, d, v.netErv); }
    if v.netErv >= v.netPassing { TimesMono(c, d, v.netErv - v.netPassing); }
  }

  lemma DeferredFalls(n: nat, i: real, j: real)
    requires 0.0 < i <= j
    ensures YpPerpetuity(j) * PvOfPound(n, j) <= YpPerpetuity(i) * PvOfPound(n, i)
  {
    if i < j { DeferredPerpetuityFalls(n, i, j); }
    hide YpPerpetuity, PvOfPound;
  }

  lemma TermsAgree(a: IncomeInput, b: IncomeInput, k: nat)
    requires k < |a.lines| && b == a.(reversionYieldPct := b.reversionYieldPct)
    ensures var v, w := CapitaliseLines(a)[k], CapitaliseLines(b)[k];
            w.netPassing == v.netPassing && w.netErv == v.netErv && w.termValue == v.termValue
  {
    hide RentOf, Share, SumOf, TermValue, ReversionValue;
  }


  // ---------------------------------------------------------------- the curve the equivalent yield is read from

  /** The same property with one yield for every slice. */
  function AtOneYield(input: IncomeInput, pct: real): IncomeInput {
    input.(reversionYieldPct := Some(pct),
           lines := seq(|input.lines|, k requires 0 <= k < |input.lines| => input.lines[k].(yieldPct := Some(pct))))
  }

  lemma SameRents(input: IncomeInput, pct: real, k: nat)
    requires k < |input.lines|
    ensures RentOf(AtOneYield(input, pct).lines[k]) == RentOf(input.lines[k])
    ensures SumOf(AfterVoid, AtOneYield(input, pct).lines) == SumOf(AfterVoid, input.lines)
  {
    forall m | 0 <= m < |input.lines| ensures AfterVoid(AtOneYield(input, pct).lines[m]) == AfterVoid(input.lines[m]) {
      RentIgnoresYield(input.lines[m], pct);
    }
    RentIgnoresYield(input.lines[k], pct);
    hide RentOf, AfterVoid, SumOf;
    SumOfSame(AfterVoid, AtOneYield(input, pct).lines, AfterVoid, input.lines);
  }

  lemma RentIgnoresYield(l: IncomeLine, pct: real)
    ensures RentOf(l.(yieldPct := Some(pct))) == RentOf(l) && AfterVoid(l.(yieldPct := Some(pct))) == AfterVoid(l)
  {
  }

  /** A line at one yield is the line revalued at it. */
  lemma LineRevalued(input: IncomeInput, pct: real, k: nat)
    requires k < |input.lines|
    ensures LineAtYield(input.Kind(), CapitaliseLines(input)[k], pct / 100.0) == Value(CapitaliseLines(AtOneYield(input, pct))[k])
  {
    hide *;
    SameRents(input, pct, k);
    assert |AtOneYield(input, pct).lines| == |input.lines| by { OneYieldLines(input, pct); }
    LineRents(input, k);
    LineRents(AtOneYield(input, pct), k);
    var v, w := CapitaliseLines(input)[k], CapitaliseLines(AtOneYield(input, pct))[k];
    var l := input.lines[k];
    var i := (match l.yieldPct case Some(y) => y case None => input.yieldPct) / 100.0;
    OneYieldKeeps(input, pct, k, i, v, w);
    var s := Share(RentOf(l).afterVoid, SumOf(AfterVoid, input.lines));
    NetIgnoresYield(input, pct, RentOf(l).afterVoid, s);
    NetIgnoresYield(input, pct, RentOf(l).ervAfterVoid, s);
    LineSplit(input, k, i, ReversionAt(input, i));
    LineSplit(AtOneYield(input, pct), k, pct / 100.0, pct / 100.0);
    ValueAtOne(v, w, input.Kind(), Reverts(input, l, v), YearsLeft(l), i, ReversionAt(input, i), pct / 100.0);
  }

  lemma OneYieldLines(input: IncomeInput, pct: real)
    ensures |AtOneYield(input, pct).lines| == |input.lines|
  {
  }

  function ReversionAt(input: IncomeInput, i: real): real {
    match input.reversionYieldPct case Some(y) => y / 100.0 case None => i
  }

  lemma OneYieldKeeps(input: IncomeInput, pct: real, k: nat, i: real, v: LineValue, w: LineValue)
    requires k < |input.lines|
    requires i == (match input.lines[k].yieldPct case Some(y) => y case None => input.yieldPct) / 100.0
    ensures var l, at := input.lines[k], AtOneYield(input, pct);
            && |at.lines| == |input.lines|
            && YieldsOf(input, l, i, ReversionAt(input, i)) && YieldsOf(at, at.lines[k], pct / 100.0, pct / 100.0)
            && YearsLeft(at.lines[k]) == YearsLeft(l) && at.Kind() == input.Kind()
            && input.Kind() == input.kind.GetOr(Perpetuity) == at.kind.GetOr(Perpetuity)
    ensures w.netPassing == v.netPassing && w.netErv == v.netErv ==>
              (Reverts(AtOneYield(input, pct), AtOneYield(input, pct).lines[k], w) <==> Reverts(input, input.lines[k], v))
    ensures Reverts(input, input.lines[k], v) ==> input.Kind() != Perpetuity
  {
  }

  lemma NetIgnoresYield(input: IncomeInput, pct: real, rent: real, share: real)
    ensures NetOf(AtOneYield(input, pct), rent, share) == NetOf(input, rent, share)
  {
  }

  lemma ValueAtOne(v: LineValue, w: LineValue, kind: IncomeMethod, reverts: bool, n: nat, i: real, j: real, y: real)
    requires SplitsSo(v, kind, reverts, n, i, j) && SplitsSo(w, kind, reverts, n, y, y)
    requires w.netPassing == v.netPassing && w.netErv == v.netErv && (reverts ==> kind != Perpetuity)
    ensures LineAtYield(kind, v, y) == Value(w)
  {
    hide YpPerpetuity, YpYears, PvOfPound;
  }

  lemma {:induction false} LinesRevalued(input: IncomeInput, pct: real, k: nat)
    requires k <= |input.lines|
    ensures ValueAtYield(input.Kind(), CapitaliseLines(input)[..k], pct / 100.0)
         == SumOf(Value, CapitaliseLines(AtOneYield(input, pct))[..k])
  {
    if k > 0 {
      LinesRevalued(input, pct, k - 1);
      LineRevalued(input, pct, k - 1);
      var a, b := CapitaliseLines(input), CapitaliseLines(AtOneYield(input, pct));
      assert a[..k][..k - 1] == a[..k - 1] && b[..k][..k - 1] == b[..k - 1];
      hide CapitaliseLine, LineAtYield, Value;
    }
  }

  /** At every yield the curve is the gross value of the same property with that yield throughout. */
  lemma CurveIsRevaluation(input: IncomeInput, pct: real)
    requires input.Valid()
    ensures AtOneYield(input, pct).Valid()
    ensures ValueCurve(input.Kind(), Capitalise(input).lines)(pct / 100.0) == Capitalise(AtOneYield(input, pct)).grossCapitalValue
  {
    var n := |input.lines|;
    LinesRevalued(input, pct, n);
    assert CapitaliseLines(input)[..n] == CapitaliseLines(input);
    assert CapitaliseLines(AtOneYield(input, pct))[..n] == CapitaliseLines(AtOneYield(input, pct));
    hide CapitaliseLines, SumOf, Div, NetRent, LetUp, ValueAtYield;
  }
}
