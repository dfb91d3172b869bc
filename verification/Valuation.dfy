/** The investment method: net rent, term and reversion, and the yield that reproduces a valuation. */
module Valuation {
  import opened Numbers
  import opened Yields

  datatype IncomeMethod = Perpetuity | TermReversion | Hardcore

  datatype IncomeLine = IncomeLine(
    count: real, area: real, rentPsf: real,
    voidPct: Option<real>, ervPsf: Option<real>, yearsToReview: Option<int>, yieldPct: Option<real>)

  datatype IncomeInput = IncomeInput(
    lines: seq<IncomeLine>, kind: Option<IncomeMethod>, reversionYieldPct: Option<real>,
    nonRecoverablePct: real, annualDeductions: Option<real>, yieldPct: real,
    purchaserCostsPct: Option<real>, letUpMonths: Option<real>)
  {
    function Kind(): IncomeMethod { kind.GetOr(Perpetuity) }

    function PurchaserCosts(): real { purchaserCostsPct.GetOr(DEFAULT_PURCHASER_COSTS_PCT) }

    /** Costs of minus one hundred per cent would divide the price by zero. */
    predicate Valid() { PurchaserCosts() != -100.0 }
  }

  const DEFAULT_PURCHASER_COSTS_PCT := 6.8

  /** Rent analysis of one line, before property-level charges. */
  datatype Rent = Rent(totalArea: real, gross: real, grossErv: real, afterVoid: real, ervAfterVoid: real)

  datatype LineValue = LineValue(
    totalArea: real, netPassing: real, netErv: real, yearsToReview: nat,
    termValue: real, reversionValue: real, value: real, isReversionary: bool)

  datatype IncomeResult = IncomeResult(
    lines: seq<LineValue>, totalArea: real, netRent: real, netErv: real, grossCapitalValue: real,
    letUpDeduction: real, capitalValueBeforeCosts: real, purchaserCosts: real, netCapitalValue: real)

  function RentOf(l: IncomeLine): Rent {
    var area := l.count * l.area;
    var gross := area * l.rentPsf;
    var erv := area * l.ervPsf.GetOr(l.rentPsf);
    var void := l.voidPct.GetOr(0.0) / 100.0;
    Rent(area, gross, erv, gross * (1.0 - void), erv * (1.0 - void))
  }

  function AfterVoid(l: IncomeLine): real { RentOf(l).afterVoid }

  function LineArea(l: IncomeLine): real { l.count * l.area }

  /** A line's share of the fixed deductions: in proportion to the rent it contributes. */
  function Share(part: real, total: real): real { if total > 0.0 then Div(part, total) else 0.0 }

  function NetOf(input: IncomeInput, afterVoid: real, share: real): real {
    afterVoid * (1.0 - input.nonRecoverablePct / 100.0) - input.annualDeductions.GetOr(0.0) * share
  }

  predicate Reversionary(kind: IncomeMethod, passing: real, erv: real, n: nat) {
    kind != Perpetuity && n > 0 && Abs(erv - passing) > 0.000000001
  }

  /** The term (or bottom slice) at yield `i` and the reversion (or top slice) at yield `j`. */
  function TermValue(kind: IncomeMethod, passing: real, erv: real, n: nat, i: real): real {
    if Reversionary(kind, passing, erv, n) && kind == TermReversion then passing * YpYears(n, i)
    else passing * YpPerpetuity(i)
  }

  function ReversionValue(kind: IncomeMethod, passing: real, erv: real, n: nat, j: real): real {
    if !Reversionary(kind, passing, erv, n) then 0.0
    else if kind == TermReversion then erv * (YpPerpetuity(j) * PvOfPound(n, j))
    else (erv - passing) * (YpPerpetuity(j) * PvOfPound(n, j))
  }

  function SplitValue(kind: IncomeMethod, passing: real, erv: real, n: nat, i: real, j: real): real {
    TermValue(kind, passing, erv, n, i) + ReversionValue(kind, passing, erv, n, j)
  }

  function CapitaliseLine(input: IncomeInput, l: IncomeLine): LineValue {
    var rent := RentOf(l);
    var s := Share(rent.afterVoid, SumOf(AfterVoid, input.lines));
    var passing, erv := NetOf(input, rent.afterVoid, s), NetOf(input, rent.ervAfterVoid, s);
    var i := l.yieldPct.GetOr(input.yieldPct);
    var j := input.reversionYieldPct.GetOr(i);
    var n := var years := l.yearsToReview.GetOr(0); if years > 0 then years else 0;
    var term := TermValue(input.Kind(), passing, erv, n, i / 100.0);
    var reversion := ReversionValue(input.Kind(), passing, erv, n, j / 100.0);
    LineValue(rent.totalArea, passing, erv, n, term, reversion, term + reversion,
              Reversionary(input.Kind(), passing, erv, n))
  }

  function Value(l: LineValue): real { l.value }

  function NetErv(l: LineValue): real { l.netErv }

  function NetPassing(l: LineValue): real { l.netPassing }

  function CapitaliseLines(input: IncomeInput): seq<LineValue> {
    seq(|input.lines|, k requires 0 <= k < |input.lines| => CapitaliseLine(input, input.lines[k]))
  }

  function NetRent(input: IncomeInput): real {
    var afterVoid := SumOf(AfterVoid, input.lines);
    afterVoid - afterVoid * input.nonRecoverablePct / 100.0 - input.annualDeductions.GetOr(0.0)
  }

  /** The rent forgone while the space is being let, undiscounted. */
  function LetUp(netRent: real, months: real): real { netRent * months / 12.0 }

  function Capitalise(input: IncomeInput): IncomeResult
    requires input.Valid()
  {
    var lines := CapitaliseLines(input);
    var gross := SumOf(Value, lines);
    var letUp := LetUp(NetRent(input), input.letUpMonths.GetOr(0.0));
    var before := gross - letUp;
    var net := Div(before, 1.0 + input.PurchaserCosts() / 100.0);
    IncomeResult(lines, SumOf(LineArea, input.lines), NetRent(input), SumOf(NetErv, lines), gross,
                 letUp, before, before - net, net)
  }

  // ---------------------------------------------------------------- the two splits agree

  lemma SplitsAgree(passing: real, erv: real, n: nat, i: real)
    requires i > 0.0
    ensures SplitValue(TermReversion, passing, erv, n, i, i) == SplitValue(Hardcore, passing, erv, n, i, i)
  {
    hide YpYears, YpPerpetuity, PvOfPound;
    TermPlusReversion(n, i);
    var a, p, d := YpYears(n, i), YpPerpetuity(i), YpPerpetuity(i) * PvOfPound(n, i);
    assert passing * (a + d) == passing * a + passing * d;
  }

  /** One positive yield throughout: each line capitalised at it, and the reversion too. */
  ghost predicate OneYield(input: IncomeInput, pct: real) {
    && pct > 0.0
    && (forall k :: 0 <= k < |input.lines| ==> input.lines[k].yieldPct.GetOr(input.yieldPct) == pct)
    && input.reversionYieldPct.GetOr(pct) == pct
  }

  /** The method decides how a line is split, never what its net rents are. */
  lemma RentsIndependentOfMethod(a: IncomeInput, b: IncomeInput, k: nat)
    requires b == a.(kind := b.kind) && k < |a.lines|
    ensures CapitaliseLine(a, a.lines[k]).netPassing == CapitaliseLine(b, b.lines[k]).netPassing
    ensures CapitaliseLine(a, a.lines[k]).netErv == CapitaliseLine(b, b.lines[k]).netErv
    ensures CapitaliseLine(a, a.lines[k]).yearsToReview == CapitaliseLine(b, b.lines[k]).yearsToReview
  {
    hide TermValue, ReversionValue, RentOf, Share, SumOf;
  }

  /** With one yield the vertical and horizontal splits value every line, and the property, the same. */
  lemma MethodsAgree(term: IncomeInput, hardcore: IncomeInput, pct: real)
    requires term.Valid() && OneYield(term, pct)
    requires term.kind == Some(TermReversion) && hardcore == term.(kind := Some(Hardcore))
    ensures forall k :: 0 <= k < |term.lines| ==>
              Capitalise(term).lines[k].value == Capitalise(hardcore).lines[k].value
    ensures Capitalise(term).netCapitalValue == Capitalise(hardcore).netCapitalValue
  {
    var a, b := CapitaliseLines(term), CapitaliseLines(hardcore);
    forall k | 0 <= k < |term.lines| ensures a[k].value == b[k].value {
      LinesAgree(term, hardcore, pct, k);
    }
    hide *;
    SumOfMono(Value, a, Value, b);
    SumOfMono(Value, b, Value, a);
    NetValueFollowsGross(term, hardcore);
    ResultLines(term);
    ResultLines(hardcore);
  }

  lemma ResultLines(input: IncomeInput)
    requires input.Valid()
    ensures Capitalise(input).lines == CapitaliseLines(input)
  {
  }

  lemma NetValueFollowsGross(a: IncomeInput, b: IncomeInput)
    requires a.Valid() && b == a.(kind := b.kind)
    requires SumOf(Value, CapitaliseLines(a)) == SumOf(Value, CapitaliseLines(b))
    ensures Capitalise(a).netCapitalValue == Capitalise(b).netCapitalValue
  {
    hide CapitaliseLines, SumOf, Div, LetUp;
    assert NetRent(a) == NetRent(b);
  }

  lemma LinesAgree(term: IncomeInput, hardcore: IncomeInput, pct: real, k: nat)
    requires OneYield(term, pct) && k < |term.lines|
    requires term.kind == Some(TermReversion) && hardcore == term.(kind := Some(Hardcore))
    ensures CapitaliseLine(term, term.lines[k]).value == CapitaliseLine(hardcore, hardcore.lines[k]).value
  {
    hide TermValue, ReversionValue, RentOf, NetOf, Share, SumOf;
    assert pct / 100.0 > 0.0;
    RentsIndependentOfMethod(term, hardcore, k);
    var l := CapitaliseLine(term, term.lines[k]);
    SplitsAgree(l.netPassing, l.netErv, l.yearsToReview, pct / 100.0);
  }

  // ---------------------------------------------------------------- property charges are fully shared

  /** What a pound of rent leaves after its share of the deductions. */
  ghost function Keep(input: IncomeInput): real
    requires SumOf(AfterVoid, input.lines) > 0.0
  {
    1.0 - input.nonRecoverablePct / 100.0
    - input.annualDeductions.GetOr(0.0) * Div(1.0, SumOf(AfterVoid, input.lines))
  }

  lemma PassingScaled(input: IncomeInput, k: nat)
    requires k < |input.lines| && SumOf(AfterVoid, input.lines) > 0.0
    ensures NetPassing(CapitaliseLines(input)[k]) == Times(AfterVoid(input.lines[k]), Keep(input))
  {
    PassingIs(input, k);
    hide *;
    var d, keep := input.annualDeductions.GetOr(0.0), 1.0 - input.nonRecoverablePct / 100.0;
    NetScales(AfterVoid(input.lines[k]), SumOf(AfterVoid, input.lines), d, keep);
    KeepIs(input);
  }

  lemma KeepIs(input: IncomeInput)
    requires SumOf(AfterVoid, input.lines) > 0.0
    ensures Keep(input) == (1.0 - input.nonRecoverablePct / 100.0)
                           - Times(input.annualDeductions.GetOr(0.0), Div(1.0, SumOf(AfterVoid, input.lines)))
  {
    hide SumOf, Div;
  }

  lemma WholeKept(input: IncomeInput)
    requires SumOf(AfterVoid, input.lines) > 0.0
    ensures Times(SumOf(AfterVoid, input.lines), Keep(input)) == NetRent(input)
  {
    NetRentIs(input);
    KeepIs(input);
    hide *;
    var total, d := SumOf(AfterVoid, input.lines), input.annualDeductions.GetOr(0.0);
    WholeNets(total, d, 1.0 - input.nonRecoverablePct / 100.0);
  }

  /** The lines' net rents add back to the property's: the fixed deductions are shared out exactly. */
  lemma DeductionsFullyShared(input: IncomeInput)
    requires SumOf(AfterVoid, input.lines) > 0.0
    ensures SumOf(NetPassing, CapitaliseLines(input)) == NetRent(input)
  {
    forall k | 0 <= k < |input.lines|
      ensures NetPassing(CapitaliseLines(input)[k]) == Times(AfterVoid(input.lines[k]), Keep(input))
    {
      hide *;
      PassingScaled(input, k);
    }
    WholeKept(input);
    assert |CapitaliseLines(input)| == |input.lines|;
    hide *;
    SumOfTimes(AfterVoid, input.lines, NetPassing, CapitaliseLines(input), Keep(input));
  }

  lemma PassingIs(input: IncomeInput, k: nat)
    requires k < |input.lines| && SumOf(AfterVoid, input.lines) > 0.0
    ensures NetPassing(CapitaliseLines(input)[k])
         == Times(AfterVoid(input.lines[k]), 1.0 - input.nonRecoverablePct / 100.0)
            - Times(input.annualDeductions.GetOr(0.0), Div(AfterVoid(input.lines[k]), SumOf(AfterVoid, input.lines)))
  {
    hide Div, SumOf, TermValue, ReversionValue;
  }

  lemma NetRentIs(input: IncomeInput)
    ensures NetRent(input) == Times(SumOf(AfterVoid, input.lines), 1.0 - input.nonRecoverablePct / 100.0)
                              - input.annualDeductions.GetOr(0.0)
  {
    hide SumOf;
    var t := SumOf(AfterVoid, input.lines);
    assert t * (1.0 - input.nonRecoverablePct / 100.0) == t - t * input.nonRecoverablePct / 100.0;
  }

  lemma NetScales(r: real, total: real, d: real, keep: real)
    requires total != 0.0
    ensures Times(r, keep) - Times(d, Div(r, total)) == Times(r, keep - Times(d, Div(1.0, total)))
  {
    DivReciprocal(r, total);
    hide Div;
    var v := Div(1.0, total);
    assert d * (r * v) == r * (d * v);
  }

  lemma WholeNets(total: real, d: real, keep: real)
    requires total != 0.0
    ensures Times(total, keep - Times(d, Div(1.0, total))) == Times(total, keep) - d
  {
    DivLaw(1.0, total);
    hide Div;
    var v := Div(1.0, total);
    assert total * (d * v) == d * (v * total);
  }

  // ---------------------------------------------------------------- equivalent yield

  /** What one line is worth when a single yield is applied to both its halves. */
  function LineAtYield(kind: IncomeMethod, l: LineValue, i: real): real {
    if !l.isReversionary then l.netPassing * YpPerpetuity(i)
    else if kind == TermReversion then
      l.netPassing * YpYears(l.yearsToReview, i) + l.netErv * (YpPerpetuity(i) * PvOfPound(l.yearsToReview, i))
    else
      l.netPassing * YpPerpetuity(i)
      + (l.netErv - l.netPassing) * (YpPerpetuity(i) * PvOfPound(l.yearsToReview, i))
  }

  function ValueAtYield(kind: IncomeMethod, lines: seq<LineValue>, i: real): real {
    if |lines| == 0 then 0.0
    else ValueAtYield(kind, lines[..|lines| - 1], i) + LineAtYield(kind, lines[|lines| - 1], i)
  }

  function ValueCurve(kind: IncomeMethod, lines: seq<LineValue>): real -> real {
    i => ValueAtYield(kind, lines, i)
  }

  /** A bisection bracket on a falling curve: each end is either untouched or on its own side of the target. */
  ghost predicate Bracketed(curve: real -> real, target: real, lo0: real, hi0: real, lo: real, hi: real) {
    && lo0 <= lo < hi <= hi0
    && (lo == lo0 || curve(lo) > target)
    && (hi == hi0 || curve(hi) <= target)
  }

  ghost predicate Falling(curve: real -> real, lo0: real, hi0: real) {
    forall i, j :: lo0 <= i < j <= hi0 ==> curve(i) > curve(j)
  }

  lemma Halved(lo: real, hi: real, k: nat)
    ensures (hi - (lo + hi) / 2.0) * Pow(2.0, k + 1) == (hi - lo) * Pow(2.0, k)
    ensures ((lo + hi) / 2.0 - lo) * Pow(2.0, k + 1) == (hi - lo) * Pow(2.0, k)
  {
    assert Pow(2.0, k + 1) == 2.0 * Pow(2.0, k);
  }

  /** `y` is the middle of a bracket `width / 2^steps` wide around the place where the curve meets the target. */
  ghost predicate Bisected(curve: real -> real, target: real, lo0: real, hi0: real, steps: nat, y: real) {
    exists lo, hi :: Bracketed(curve, target, lo0, hi0, lo, hi)
      && (hi - lo) * Pow(2.0, steps) == hi0 - lo0 && y == (lo + hi) / 2.0
  }

  ghost predicate IsEquivalentYield(input: IncomeInput, y: real)
    requires input.Valid()
  {
    var cap := Capitalise(input);
    if cap.grossCapitalValue > 0.0
    then Bisected(ValueCurve(input.Kind(), cap.lines), cap.grossCapitalValue, 0.001, 0.4, 80, y)
    else y == 0.0
  }

  method EquivalentYield(input: IncomeInput) returns (y: real)
    requires input.Valid()
    ensures IsEquivalentYield(input, y)
  {
    hide Capitalise, ValueAtYield, Pow, SumOf;
    var cap := Capitalise(input);
    var gross := cap.grossCapitalValue;
    y := 0.0;
    if gross > 0.0 {
      ghost var curve := ValueCurve(input.Kind(), cap.lines);
      var lo, hi := 0.001, 0.4;
      PowZero(2.0);
      for k := 0 to 80
        invariant Bracketed(curve, gross, 0.001, 0.4, lo, hi)
        invariant (hi - lo) * Pow(2.0, k) == 0.399
      {
        Halved(lo, hi, k);
        var mid := (lo + hi) / 2.0;
        if ValueAtYield(input.Kind(), cap.lines, mid) > gross { lo := mid; } else { hi := mid; }
      }
      y := (lo + hi) / 2.0;
    }
  }

  /** On a falling curve the bisection ends within half a bracket of the rate that meets the target. */
  lemma BisectionFindsRoot(curve: real -> real, target: real, lo0: real, hi0: real, steps: nat, y: real, root: real)
    requires Falling(curve, lo0, hi0) && lo0 <= root <= hi0 && curve(root) == target
    requires Bisected(curve, target, lo0, hi0, steps, y)
    ensures Abs(y - root) * Pow(2.0, steps + 1) <= hi0 - lo0
  {
    PowPositive(2.0, steps);
    PowStep(2.0, steps + 1);
    hide Pow;
    var lo, hi :| Bracketed(curve, target, lo0, hi0, lo, hi)
      && (hi - lo) * Pow(2.0, steps) == hi0 - lo0 && y == (lo + hi) / 2.0;
    BracketHoldsRoot(curve, target, lo0, hi0, lo, hi, root);
    MiddleIsNear(lo, hi, root, Pow(2.0, steps), hi0 - lo0);
  }

  lemma BracketHoldsRoot(curve: real -> real, target: real, lo0: real, hi0: real, lo: real, hi: real, root: real)
    requires Falling(curve, lo0, hi0) && lo0 <= root <= hi0 && curve(root) == target
    requires Bracketed(curve, target, lo0, hi0, lo, hi)
    ensures lo <= root <= hi
  {
  }

  /** A pair of values at two rates: both nothing, or both positive and the one at the lower rate larger. */
  ghost predicate Drops(atLower: real, atHigher: real) {
    (atLower == 0.0 && atHigher == 0.0) || 0.0 < atHigher < atLower
  }

  lemma ProductDrops(rent: real, a: real, b: real)
    requires rent >= 0.0 && 0.0 < b < a
    ensures Drops(rent * a, rent * b)
  {
    if rent > 0.0 { MulStrict(b, a, rent); MulStrict(0.0, rent, b); }
  }

  /** A line with a reversion in sight, and no negative rent. */
  ghost predicate SoundLine(l: LineValue) {
    && l.netPassing >= 0.0 && l.netErv >= 0.0
    && (l.isReversionary ==> l.yearsToReview > 0)
  }

  /** Hardcore at one yield, written as term and reversion. */
  lemma LineAsTermAndReversion(kind: IncomeMethod, l: LineValue, i: real)
    requires i > 0.0 && l.isReversionary
    ensures LineAtYield(kind, l, i)
         == l.netPassing * YpYears(l.yearsToReview, i) + l.netErv * (YpPerpetuity(i) * PvOfPound(l.yearsToReview, i))
  {
    hide YpYears, YpPerpetuity, PvOfPound;
    TermPlusReversion(l.yearsToReview, i);
    var a, p, d := YpYears(l.yearsToReview, i), YpPerpetuity(i), YpPerpetuity(i) * PvOfPound(l.yearsToReview, i);
    assert l.netPassing * (a + d) == l.netPassing * a + l.netPassing * d;
  }

  lemma BlendDrops(passing: real, erv: real, a: real, b: real, c: real, d: real, x: real, y: real)
    requires passing >= 0.0 && erv >= 0.0 && 0.0 < b < a && 0.0 < d < c
    requires x == passing * a + erv * c && y == passing * b + erv * d
    ensures Drops(x, y)
  {
    ProductDrops(passing, a, b);
    ProductDrops(erv, c, d);
  }

  lemma LineDrops(kind: IncomeMethod, l: LineValue, i: real, j: real)
    requires 0.0 < i < j && SoundLine(l)
    ensures Drops(LineAtYield(kind, l, i), LineAtYield(kind, l, j))
  {
    if l.isReversionary {
      var n := l.yearsToReview;
      LineAsTermAndReversion(kind, l, i);
      LineAsTermAndReversion(kind, l, j);
      AnnuityFalls(n, i, j);
      YpYearsIsAnnuity(n, i);
      YpYearsIsAnnuity(n, j);
      DeferredPerpetuityFalls(n, i, j);
      hide *;
      BlendDrops(l.netPassing, l.netErv, YpYears(n, i), YpYears(n, j), YpPerpetuity(i) * PvOfPound(n, i),
                 YpPerpetuity(j) * PvOfPound(n, j), LineAtYield(kind, l, i), LineAtYield(kind, l, j));
    } else {
      hide YpYears, PvOfPound;
      ReciprocalFalls(i, j);
      hide Div;
      ProductDrops(l.netPassing, YpPerpetuity(i), YpPerpetuity(j));
    }
  }

  lemma {:induction false} ValueDrops(kind: IncomeMethod, lines: seq<LineValue>, i: real, j: real)
    requires 0.0 < i < j
    requires forall k :: 0 <= k < |lines| ==> SoundLine(lines[k])
    ensures Drops(ValueAtYield(kind, lines, i), ValueAtYield(kind, lines, j))
  {
    hide LineAtYield;
    if |lines| > 0 {
      ValueDrops(kind, lines[..|lines| - 1], i, j);
      LineDrops(kind, lines[|lines| - 1], i, j);
    }
  }

  lemma ValueCurveFalls(kind: IncomeMethod, lines: seq<LineValue>, lo: real, hi: real, at: real)
    requires 0.0 < lo && 0.0 < at
    requires forall k :: 0 <= k < |lines| ==> SoundLine(lines[k])
    requires ValueAtYield(kind, lines, at) > 0.0
    ensures Falling(ValueCurve(kind, lines), lo, hi)
  {
    hide ValueAtYield;
    forall i, j | lo <= i < j <= hi ensures ValueCurve(kind, lines)(i) > ValueCurve(kind, lines)(j) {
      ValueDrops(kind, lines, i, j);
      if i < at { ValueDrops(kind, lines, i, at); }
      if at < i { ValueDrops(kind, lines, at, i); }
    }
  }

  /** The valuation itself is the single-yield value when every line is capitalised at that yield. */
  lemma {:induction false} GrossAtOneYield(input: IncomeInput, pct: real, k: nat)
    requires OneYield(input, pct) && k <= |input.lines|
    ensures SumOf(Value, CapitaliseLines(input)[..k])
         == ValueAtYield(input.Kind(), CapitaliseLines(input)[..k], pct / 100.0)
  {
    if k > 0 {
      GrossAtOneYield(input, pct, k - 1);
      var lines := CapitaliseLines(input);
      assert lines[..k][..k - 1] == lines[..k - 1];
      LineAtItsYield(input, pct, k - 1);
      hide CapitaliseLine, LineAtYield;
    }
  }

  lemma LineAtItsYield(input: IncomeInput, pct: real, k: nat)
    requires OneYield(input, pct) && k < |input.lines|
    ensures var l := CapitaliseLine(input, input.lines[k]);
            l.value == LineAtYield(input.Kind(), l, pct / 100.0)
  {
    hide YpYears, YpPerpetuity, PvOfPound, NetOf, RentOf, Share, SumOf;
  }

  /** No negative net rents, and something to value. */
  ghost predicate SoundIncome(input: IncomeInput)
    requires input.Valid()
  {
    && (forall k :: 0 <= k < |input.lines| ==>
         CapitaliseLines(input)[k].netPassing >= 0.0 && CapitaliseLines(input)[k].netErv >= 0.0)
    && Capitalise(input).grossCapitalValue > 0.0
  }

  lemma LinesAreSound(input: IncomeInput)
    requires input.Valid() && SoundIncome(input)
    ensures forall k :: 0 <= k < |input.lines| ==> SoundLine(CapitaliseLines(input)[k])
  {
    hide TermValue, ReversionValue, NetOf, RentOf, Share, SumOf, NetRent, Div;
  }

  /** The equivalent yield recovers the one yield the valuation used, to within 0.399 / 2^81. */
  lemma EquivalentYieldRecovered(input: IncomeInput, pct: real, y: real)
    requires input.Valid() && OneYield(input, pct) && SoundIncome(input) && 0.1 <= pct <= 40.0
    requires IsEquivalentYield(input, y)
    ensures Abs(y - pct / 100.0) * Pow(2.0, 81) <= 0.399
  {
    hide TermValue, ReversionValue, NetOf, RentOf, Share, SumOf, NetRent, Div, ValueAtYield, Pow, CapitaliseLine;
    var lines := CapitaliseLines(input);
    LinesAreSound(input);
    GrossAtOneYield(input, pct, |lines|);
    assert lines[..|lines|] == lines;
    ValueCurveFalls(input.Kind(), lines, 0.001, 0.4, pct / 100.0);
    BisectionFindsRoot(ValueCurve(input.Kind(), lines), Capitalise(input).grossCapitalValue,
                       0.001, 0.4, 80, y, pct / 100.0);
  }
}
