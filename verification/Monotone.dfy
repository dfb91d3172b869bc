/** How the programme and the facility answer to a rise in sales values or a fall in build costs. */
module Monotone {
  import opened Numbers
  import opened SpendProfile
  import opened Spend
  import opened Absorption
  import opened Scheme
  import opened Facility
  import opened Engine
  import Construction
  import Conservation
  import Valuation

  // ---------------------------------------------------------------- sign conventions

  ghost predicate SoundUnits(units: seq<AppraisalUnit>) {
    forall i :: 0 <= i < |units| ==> units[i].count >= 0.0 && units[i].area >= 0.0 && units[i].cap >= 0.0
  }

  ghost predicate SoundTrades(trades: seq<BuildTrade>) {
    forall i :: 0 <= i < |trades| ==> trades[i].rate >= 0.0
  }

  ghost predicate SoundCosts(costs: seq<OtherCost>) {
    forall i :: 0 <= i < |costs| ==> costs[i].amount >= 0.0
  }

  ghost predicate SoundPhase(p: Phase) {
    && SoundUnits(p.units) && SoundTrades(p.trades) && SoundCosts(p.otherCosts)
    && p.profFeePct.GetOr(0.0) >= 0.0 && p.contingencyPct.GetOr(0.0) >= 0.0
  }

  /** Non-negative values, areas, rates, costs and percentages, and a disposal rate and target that leave something. */
  ghost predicate Sound(input: AppraisalInput)
    requires input.Valid()
  {
    && SoundUnits(input.units) && SoundTrades(input.trades) && SoundCosts(input.otherCosts)
    && (forall i :: 0 <= i < |input.phases| ==> SoundPhase(input.phases[i]))
    && input.profFeePct >= 0.0 && input.contingencyPct >= 0.0
    && input.finance.ltcPct >= 0.0 && input.finance.ratePct >= 0.0 && input.finance.arrangementFeePct >= 0.0
    && input.agentPct + input.legalPct >= 0.0 && input.targetProfitOnGdvPct >= 0.0
    && input.agentPct + input.legalPct + input.targetProfitOnGdvPct <= 100.0
    && input.acqPct > -100.0 && input.landFixed >= 0.0
    && IncomeArea(input) >= 0.0
    && (input.income.Some? ==> Valuation.Capitalise(input.income.value).netCapitalValue >= 0.0)
  }

  lemma UnitSumsNonNegative(units: seq<AppraisalUnit>)
    requires SoundUnits(units)
    ensures SumOf(UnitArea, units) >= 0.0 && SumOf(UnitValue, units) >= 0.0
  {
    forall i | 0 <= i < |units| ensures UnitArea(units[i]) >= 0.0 && UnitValue(units[i]) >= 0.0 {
      MulNonNegative(units[i].count, units[i].area);
      MulNonNegative(units[i].count * units[i].area, units[i].cap);
    }
    SumOfNonNegative(UnitArea, units);
    SumOfNonNegative(UnitValue, units);
  }

  lemma RatesNonNegative(trades: seq<BuildTrade>)
    requires SoundTrades(trades)
    ensures SumOf(Rate, trades) >= 0.0
  {
    SumOfNonNegative(Rate, trades);
  }

  lemma GrossNonNegative(input: AppraisalInput, net: real)
    requires net >= 0.0
    ensures Gross(input, net) >= 0.0
  {
    hide Div;
    if Efficiency(input) > 0.0 { DivPositive(net, Efficiency(input)); }
  }

  lemma {:induction false} FlattenedSound(phases: seq<Phase>)
    requires forall i :: 0 <= i < |phases| ==> SoundPhase(phases[i])
    ensures SoundUnits(Flatten(phases))
  {
    if |phases| > 0 {
      FlattenedSound(phases[..|phases| - 1]);
      assert SoundPhase(phases[|phases| - 1]);
    }
  }

  lemma AllUnitsSound(input: AppraisalInput)
    requires input.Valid() && Sound(input)
    ensures SoundUnits(AllUnits(input))
  {
    FlattenedSound(input.phases);
  }

  lemma UnphasedGiaNonNegative(input: AppraisalInput, shock: Shock)
    requires input.Valid() && Sound(input)
    ensures UnphasedGia(input, shock) >= 0.0
    ensures Gia(input) >= 0.0
  {
    hide CalcPhase, Gross;
    AllUnitsSound(input);
    UnitSumsNonNegative(AllUnits(input));
    GrossNonNegative(input, Nia(input));
    if input.Phased() {
      Conservation.HeldAreaIsUnphased(input, shock);
      GrossNonNegative(input, IncomeArea(input));
    } else {
      Conservation.NoPhaseSums(input, shock);
    }
  }

  // ---------------------------------------------------------------- a dearer build

  /** The build multiplier moves no programme and no area, and raises no figure when it falls. */
  lemma PhaseDearer(input: AppraisalInput, a: Shock, b: Shock, i: nat)
    requires input.Valid() && Sound(input) && 0.0 <= a.build <= b.build && i < |input.phases|
    ensures var p, q := Phases(input, a)[i], Phases(input, b)[i];
            && q == p.(gdv := q.gdv, build := q.build, fees := q.fees, cont := q.cont)
            && 0.0 <= p.build <= q.build && 0.0 <= p.fees <= q.fees && 0.0 <= p.cont <= q.cont
            && p.gia >= 0.0 && p.feePct >= 0.0 && p.contPct >= 0.0 && p.otherTotal >= 0.0
            && SoundTrades(p.trades) && SoundCosts(p.otherCosts)
  {
    hide Times, Percent, SumOf, PhaseShares, PhaseStart, PhaseBuildMonths, Gross;
    var p := input.phases[i];
    assert SoundPhase(p);
    var rate, gia := SumOf(Rate, PhaseTrades(input, p)), PhaseGia(input, p);
    RatesNonNegative(PhaseTrades(input, p));
    UnitSumsNonNegative(p.units);
    GrossNonNegative(input, SumOf(UnitArea, p.units));
    SumOfNonNegative(Amount, p.otherCosts);
    TimesMono(a.build, b.build, rate);
    TimesMono(Times(rate, a.build), Times(rate, b.build), gia);
    var x, y := Phases(input, a)[i], Phases(input, b)[i];
    PercentMono(x.build, y.build, x.feePct);
    PercentMono(x.build, y.build, x.contPct);
  }

  lemma PercentMono(a: real, b: real, pct: real)
    requires a <= b && pct >= 0.0
    ensures Percent(a, pct) <= Percent(b, pct)
    ensures a >= 0.0 ==> Percent(a, pct) >= 0.0
  {
    hide Times;
    TimesMono(a, b, pct);
  }

  /** The same windows, no amount larger and none negative. */
  ghost predicate Cheapens(xs: seq<Spread>, ys: seq<Spread>) {
    NoLarger(xs, ys) && forall i :: 0 <= i < |xs| ==> xs[i].amount >= 0.0
  }

  lemma CheapensJoin(xs: seq<Spread>, ys: seq<Spread>, us: seq<Spread>, vs: seq<Spread>)
    requires Cheapens(xs, ys) && Cheapens(us, vs)
    ensures Cheapens(xs + us, ys + vs)
  {
    NoLargerConcat(xs, ys, us, vs);
  }

  lemma TradesCheapen(trades: seq<BuildTrade>, f: real, g: real, origin: nat, months: nat, key: SpendKey, total: nat)
    requires SoundTrades(trades) && 0.0 <= f <= g
    ensures Cheapens(TradeSpreads(trades, f, origin, months, key, total),
                     TradeSpreads(trades, g, origin, months, key, total))
  {
    hide Times, Weights, Round, Relative;
    forall i | 0 <= i < |trades| ensures 0.0 <= Times(trades[i].rate, f) <= Times(trades[i].rate, g) {
      TimesMono(f, g, trades[i].rate);
    }
  }

  lemma CostsCheapen(costs: seq<OtherCost>, origin: nat, months: nat, key: SpendKey, total: nat)
    requires SoundCosts(costs)
    ensures Cheapens(CostSpreads(costs, origin, months, key, total), CostSpreads(costs, origin, months, key, total))
  {
    hide Weights, Round, Relative;
  }

  lemma PhaseCheapens(input: AppraisalInput, a: Shock, b: Shock, i: nat, key: SpendKey, total: nat)
    requires input.Valid() && Sound(input) && 0.0 <= a.build <= b.build && i < |input.phases|
    ensures Cheapens(PhaseSpreads(Phases(input, a)[i], a, key, total), PhaseSpreads(Phases(input, b)[i], b, key, total))
  {
    hide CalcPhase, TradeSpreads, CostSpreads, Weights, Times;
    PhaseDearer(input, a, b, i);
    var p, q := Phases(input, a)[i], Phases(input, b)[i];
    if AnyTradeTimed(p.trades) {
      TimesMono(a.build, b.build, p.gia);
      TimesMono(Times(a.build, p.gia), Times(b.build, p.gia), 1.0 + (p.feePct + p.contPct) / 100.0);
      TradesCheapen(p.trades, PhaseFactor(p, a), PhaseFactor(q, b), p.start, p.buildMonths, key, total);
    }
    CostsCheapen(p.otherCosts, p.start, p.buildMonths, key, total);
    CheapensJoin(PhaseBuildSpreads(p, a, key, total), PhaseBuildSpreads(q, b, key, total),
                 CostSpreads(p.otherCosts, p.start, p.buildMonths, key, total),
                 CostSpreads(q.otherCosts, q.start, q.buildMonths, key, total));
  }

  lemma {:induction false} AllPhasesCheapen(input: AppraisalInput, a: Shock, b: Shock, k: nat, key: SpendKey, total: nat)
    requires input.Valid() && Sound(input) && 0.0 <= a.build <= b.build && k <= |input.phases|
    ensures Cheapens(AllPhaseSpreads(Phases(input, a)[..k], a, key, total),
                     AllPhaseSpreads(Phases(input, b)[..k], b, key, total))
  {
    hide CalcPhase, PhaseSpreads, Sound;
    if k > 0 {
      AllPhasesCheapen(input, a, b, k - 1, key, total);
      PhaseCheapens(input, a, b, k - 1, key, total);
      var p, q := Phases(input, a), Phases(input, b);
      assert p[..k][..k - 1] == p[..k - 1] && q[..k][..k - 1] == q[..k - 1];
      CheapensJoin(AllPhaseSpreads(p[..k - 1], a, key, total), AllPhaseSpreads(q[..k - 1], b, key, total),
                   PhaseSpreads(p[k - 1], a, key, total), PhaseSpreads(q[k - 1], b, key, total));
    }
  }

  lemma UnphasedDearer(input: AppraisalInput, a: Shock, b: Shock)
    requires input.Valid() && Sound(input) && 0.0 <= a.build <= b.build
    ensures UnphasedGia(input, a) == UnphasedGia(input, b) >= 0.0
    ensures 0.0 <= UnphasedBuild(input, a) <= UnphasedBuild(input, b)
  {
    UnphasedAreaFixed(input, a, b);
    UnphasedGiaNonNegative(input, a);
    hide UnphasedGia, Times;
    var rate := SumOf(Rate, input.trades);
    RatesNonNegative(input.trades);
    TimesMono(a.build, b.build, rate);
    TimesMono(Times(rate, a.build), Times(rate, b.build), UnphasedGia(input, a));
  }

  lemma UnphasedAreaFixed(input: AppraisalInput, a: Shock, b: Shock)
    requires input.Valid()
    ensures UnphasedGia(input, a) == UnphasedGia(input, b)
  {
    SumOfSame(GiaOf, Phases(input, a), GiaOf, Phases(input, b));
  }

  /** Each total of the cost side is non-negative and rises with the build multiplier. */
  lemma TotalsDearer(input: AppraisalInput, a: Shock, b: Shock)
    requires input.Valid() && Sound(input) && 0.0 <= a.build <= b.build
    ensures 0.0 <= Build(input, a) <= Build(input, b)
    ensures 0.0 <= Fees(input, a) <= Fees(input, b)
    ensures 0.0 <= Contingency(input, a) <= Contingency(input, b)
    ensures 0.0 <= OtherTotal(input, a) == OtherTotal(input, b)
  {
    hide CalcPhase, SumOf, UnphasedBuild, UnphasedGia, Percent;
    var p, q := Phases(input, a), Phases(input, b);
    forall i | 0 <= i < |p|
      ensures 0.0 <= p[i].build <= q[i].build && 0.0 <= p[i].fees <= q[i].fees && 0.0 <= p[i].cont <= q[i].cont
      ensures 0.0 <= p[i].otherTotal == q[i].otherTotal
    {
      PhaseDearer(input, a, b, i);
    }
    SumOfMono(BuildOf, p, BuildOf, q);
    SumOfMono(FeesOf, p, FeesOf, q);
    SumOfMono(ContOf, p, ContOf, q);
    SumOfSame(OtherOf, p, OtherOf, q);
    SumOfNonNegative(BuildOf, p);
    SumOfNonNegative(FeesOf, p);
    SumOfNonNegative(ContOf, p);
    SumOfNonNegative(OtherOf, p);
    SumOfNonNegative(Amount, input.otherCosts);
    UnphasedDearer(input, a, b);
    PercentMono(UnphasedBuild(input, a), UnphasedBuild(input, b), input.profFeePct);
    PercentMono(UnphasedBuild(input, a), UnphasedBuild(input, b), input.contingencyPct);
  }

  lemma HeldCheapens(input: AppraisalInput, a: Shock, b: Shock)
    requires input.Valid() && Sound(input) && 0.0 <= a.build <= b.build
    ensures Cheapens(HeldSpreads(input, a), HeldSpreads(input, b))
  {
    hide UnphasedGia, UnphasedBuild, Times, Weights;
    UnphasedDearer(input, a, b);
    TimesMono(UnphasedBuild(input, a), UnphasedBuild(input, b), input.OnCosts());
  }

  lemma ScaledCheapen(xs: seq<Spread>, ys: seq<Spread>, c: real)
    requires Cheapens(xs, ys) && c >= 0.0
    ensures Cheapens(ScaleAmounts(xs, c), ScaleAmounts(ys, c))
  {
    hide Times;
    forall i | 0 <= i < |xs| ensures 0.0 <= Times(xs[i].amount, c) <= Times(ys[i].amount, c) {
      TimesMono(xs[i].amount, ys[i].amount, c);
    }
  }

  lemma SchemeTradesCheapen(input: AppraisalInput, a: Shock, b: Shock)
    requires input.Valid() && Sound(input) && 0.0 <= a.build <= b.build
    ensures Cheapens(SchemeTradeSpreads(input, a), SchemeTradeSpreads(input, b))
  {
    hide Gia, Times, TradeSpreads;
    UnphasedGiaNonNegative(input, a);
    TimesMono(a.build, b.build, Gia(input));
    TradesCheapen(input.trades, Times(a.build, Gia(input)), Times(b.build, Gia(input)), 1, BuildPeriod(input),
                  input.Profile(), TotalMonths(input));
  }

  lemma FlatCheapens(input: AppraisalInput, a: Shock, b: Shock)
    requires input.Valid() && Sound(input) && 0.0 <= a.build <= b.build && !input.Phased() && !Timed(input)
    ensures Cheapens(Spreads(input, a), Spreads(input, b))
  {
    hide Sound, Build, Fees, Contingency, OtherTotal, BuildPeriod, Weights;
    TotalsDearer(input, a, b);
  }

  /** In every scheduling branch a lower build multiplier lowers, or leaves, each cost where it stands. */
  lemma SpreadsCheapen(input: AppraisalInput, a: Shock, b: Shock)
    requires input.Valid() && Sound(input) && 0.0 <= a.build <= b.build
    ensures Cheapens(Spreads(input, a), Spreads(input, b))
  {
    assert SoundCosts(input.otherCosts) && input.OnCosts() >= 1.0;
    hide AllPhaseSpreads, HeldSpreads, CostSpreads, SchemeTradeSpreads, ScaleAmounts, Weights, Sound,
         Build, Fees, Contingency, OtherTotal, TotalMonths, BuildPeriod, Cheapens, CalcPhase;
    var key, total := input.Profile(), TotalMonths(input);
    CostsCheapen(input.otherCosts, 1, BuildPeriod(input), key, total);
    if input.Phased() {
      var p, q := Phases(input, a), Phases(input, b);
      AllPhasesCheapen(input, a, b, |p|, key, total);
      assert p[..|p|] == p && q[..|q|] == q;
      HeldCheapens(input, a, b);
      var x, y := AllPhaseSpreads(p, a, key, total), AllPhaseSpreads(q, b, key, total);
      CheapensJoin(x, y, HeldSpreads(input, a), HeldSpreads(input, b));
      CheapensJoin(x + HeldSpreads(input, a), y + HeldSpreads(input, b),
                   SchemeCostSpreads(input), SchemeCostSpreads(input));
    } else if !Timed(input) {
      FlatCheapens(input, a, b);
    } else {
      SchemeTradesCheapen(input, a, b);
      ScaledCheapen(SchemeTradeSpreads(input, a), SchemeTradeSpreads(input, b), input.OnCosts());
      CheapensJoin(ScaleAmounts(SchemeTradeSpreads(input, a), input.OnCosts()),
                   ScaleAmounts(SchemeTradeSpreads(input, b), input.OnCosts()),
                   SchemeCostSpreads(input), SchemeCostSpreads(input));
    }
  }

  lemma ConstructionCheapens(input: AppraisalInput, a: Shock, b: Shock)
    requires input.Valid() && Sound(input) && 0.0 <= a.build <= b.build
    ensures forall m :: 0 <= m <= TotalMonths(input) ==>
              0.0 <= ConstrSeries(input, a)[m] <= ConstrSeries(input, b)[m]
  {
    hide Spreads, TotalMonths, Sound;
    var zeros := Zeros(TotalMonths(input) + 1);
    SpreadsCheapen(input, a, b);
    Construction.SpreadsFit(input, a);
    ApplyAllMono(zeros, Spreads(input, a), Spreads(input, b));
    ApplyAllNonNegative(zeros, Spreads(input, a));
  }

  // ---------------------------------------------------------------- better sales

  lemma FlatSumMore(phases: seq<Phase>, k: nat)
    requires 0 < k <= |phases|
    ensures SumOf(UnitValue, Flatten(phases[..k]))
         == SumOf(UnitValue, Flatten(phases[..k - 1])) + SumOf(UnitValue, phases[k - 1].units)
  {
    assert phases[..k][..k - 1] == phases[..k - 1];
    assert Flatten(phases[..k]) == Flatten(phases[..k - 1]) + phases[k - 1].units;
    hide *;
    SumOfConcat(UnitValue, Flatten(phases[..k - 1]), phases[k - 1].units);
  }

  lemma PhaseSumMore(ps: seq<PhaseCalc>, k: nat)
    requires 0 < k <= |ps|
    ensures SumOf(GdvOf, ps[..k]) == SumOf(GdvOf, ps[..k - 1]) + GdvOf(ps[k - 1])
  {
    assert ps[..k] == ps[..k - 1] + [ps[k - 1]];
    hide *;
    SumOfSnoc(GdvOf, ps[..k - 1], ps[k - 1]);
  }

  lemma NothingFlattened(input: AppraisalInput, ps: seq<PhaseCalc>)
    ensures SumOf(UnitValue, Flatten(input.phases[..0])) == 0.0 == SumOf(GdvOf, ps[..0])
  {
  }

  lemma PhaseGdvIs(input: AppraisalInput, shock: Shock, i: nat)
    requires i < |input.phases|
    ensures GdvOf(Phases(input, shock)[i]) == Times(SumOf(UnitValue, input.phases[i].units), shock.sales)
  {
    hide Times, Percent, SumOf, PhaseGia, PhaseShares, PhaseStart, PhaseBuildMonths;
  }

  lemma {:induction false} FlattenedValue(input: AppraisalInput, shock: Shock, k: nat)
    requires k <= |input.phases|
    ensures Times(SumOf(UnitValue, Flatten(input.phases[..k])), shock.sales) == SumOf(GdvOf, Phases(input, shock)[..k])
  {
    hide *;
    var ps := Phases(input, shock);
    if k == 0 {
      NothingFlattened(input, ps);
      NilTimes(shock.sales);
    } else {
      FlattenedValue(input, shock, k - 1);
      FlatSumMore(input.phases, k);
      PhaseSumMore(ps, k);
      PhaseGdvIs(input, shock, k - 1);
      TimesSplits(SumOf(UnitValue, Flatten(input.phases[..k])), SumOf(UnitValue, Flatten(input.phases[..k - 1])),
                  SumOf(UnitValue, input.phases[k - 1].units), shock.sales);
    }
  }

  /** A phased scheme sells exactly what its phases sell. */
  lemma PhasesSellEverything(input: AppraisalInput, shock: Shock)
    requires input.Phased()
    ensures SalesGdv(input, shock) == SumOf(GdvOf, Phases(input, shock))
  {
    hide SumOf, Times, CalcPhase;
    FlattenedValue(input, shock, |input.phases|);
    assert input.phases[..|input.phases|] == input.phases;
    assert Phases(input, shock)[..|input.phases|] == Phases(input, shock);
  }

  lemma PhaseSalesRise(input: AppraisalInput, a: Shock, b: Shock, i: nat)
    requires input.Valid() && Sound(input) && 0.0 <= a.sales <= b.sales && i < |input.phases|
    ensures 0.0 <= Phases(input, a)[i].gdv <= Phases(input, b)[i].gdv
  {
    hide Times, Percent, SumOf, PhaseGia, PhaseShares, PhaseStart, PhaseBuildMonths;
    assert SoundPhase(input.phases[i]);
    UnitSumsNonNegative(input.phases[i].units);
    TimesMono(a.sales, b.sales, SumOf(UnitValue, input.phases[i].units));
  }

  lemma ValuesRise(input: AppraisalInput, a: Shock, b: Shock)
    requires input.Valid() && Sound(input) && 0.0 <= a.sales <= b.sales
    ensures 0.0 <= SalesGdv(input, a) <= SalesGdv(input, b)
    ensures 0.0 <= InvestmentValue(input, a) <= InvestmentValue(input, b)
    ensures 0.0 <= Gdv(input, a) <= Gdv(input, b)
  {
    AllUnitsSound(input);
    UnitSumsNonNegative(AllUnits(input));
    hide Times, SumOf, Valuation.Capitalise;
    TimesMono(a.sales, b.sales, SumOf(UnitValue, AllUnits(input)));
    if input.income.Some? {
      TimesMono(a.sales, b.sales, Valuation.Capitalise(input.income.value).netCapitalValue);
    }
  }

  /** Receipts net of disposal are the value times what disposal leaves. */
  lemma SaleNet(input: AppraisalInput, shock: Shock)
    requires input.Valid()
    ensures Gdv(input, shock) - SaleCosts(input, shock) == Times(Gdv(input, shock), NetOfDisposal(input))
  {
    hide Gdv;
  }

  /** The held element's receipt, written whether or not it is positive. */
  function HeldReceipt(input: AppraisalInput, shock: Shock): Spread
    requires input.Valid()
  {
    SalesFollowBuild(input);
    Spread(Times(InvestmentValue(input, shock), NetOfDisposal(input)), BuildPeriod(input) + 1,
           FlatShares(TotalMonths(input) - BuildPeriod(input)))
  }

  /** A nil receipt adds nothing, so writing it is the same as leaving it off. */
  lemma PhasedReceipts(input: AppraisalInput, shock: Shock)
    requires input.Valid() && input.Phased() && InvestmentValue(input, shock) >= 0.0
    ensures RevSeries(input, shock)
         == ApplyAll(Zeros(TotalMonths(input) + 1), PhaseReceipts(input, Phases(input, shock)) + [HeldReceipt(input, shock)])
  {
    hide InvestmentValue, FlatShares, TotalMonths, BuildPeriod, Times, PhaseReceipts;
    var zeros, phases, x := Zeros(TotalMonths(input) + 1), PhaseReceipts(input, Phases(input, shock)), HeldReceipt(input, shock);
    if InvestmentValue(input, shock) == 0.0 {
      NilTimes(NetOfDisposal(input));
      NilSpread(ApplyAll(zeros, phases), x);
      ApplyAllSnoc(zeros, phases, x);
      assert phases + [] == phases;
    }
  }

  lemma NilSpread(s: seq<real>, x: Spread)
    requires x.amount == 0.0
    ensures AddSpread(s, x) == s
  {
    forall m | 0 <= m < |s| ensures AddSpread(s, x)[m] == s[m] {
      if x.start <= m < x.start + |x.weights| { NilTimes(x.weights[m - x.start]); }
      hide Times;
    }
  }

  lemma DisposalLeavesSomething(input: AppraisalInput)
    requires input.Valid() && Sound(input)
    ensures NetOfDisposal(input) >= 0.0
  {
  }

  /** Every month's receipts are non-negative and rise with the sales multiplier. */
  lemma ReceiptsRise(input: AppraisalInput, a: Shock, b: Shock)
    requires input.Valid() && Sound(input) && 0.0 <= a.sales <= b.sales
    ensures forall m :: 0 <= m <= TotalMonths(input) ==> 0.0 <= RevSeries(input, a)[m] <= RevSeries(input, b)[m]
  {
    hide Receipts, PhaseReceipts, HeldReceipt, Gdv, SaleCosts, InvestmentValue, SchemeShares, TotalMonths, BuildPeriod;
    var zeros := Zeros(TotalMonths(input) + 1);
    ValuesRise(input, a, b);
    if input.Phased() {
      hide RevSeries;
      PhasedReceipts(input, a);
      PhasedReceipts(input, b);
      var x := PhaseReceipts(input, Phases(input, a)) + [HeldReceipt(input, a)];
      var y := PhaseReceipts(input, Phases(input, b)) + [HeldReceipt(input, b)];
      PhasedReceiptsRise(input, a, b);
      ApplyAllMono(zeros, x, y);
      ApplyAllNonNegative(zeros, x);
    } else {
      UnphasedReceiptsRise(input, a, b);
      Construction.SpreadsFit(input, a);
      ReceiptsFit(input, a);
      ApplyAllMono(zeros, Receipts(input, a), Receipts(input, b));
      ApplyAllNonNegative(zeros, Receipts(input, a));
    }
  }

  lemma UnphasedReceiptsRise(input: AppraisalInput, a: Shock, b: Shock)
    requires input.Valid() && Sound(input) && !input.Phased() && 0.0 <= a.sales <= b.sales
    ensures Cheapens(Receipts(input, a), Receipts(input, b))
  {
    hide Gdv, SaleCosts, SchemeShares, Times;
    ValuesRise(input, a, b);
    SaleNet(input, a);
    SaleNet(input, b);
    DisposalLeavesSomething(input);
    TimesMono(Gdv(input, a), Gdv(input, b), NetOfDisposal(input));
  }

  lemma PhasedReceiptsRise(input: AppraisalInput, a: Shock, b: Shock)
    requires input.Valid() && Sound(input) && input.Phased() && 0.0 <= a.sales <= b.sales
    ensures var x := PhaseReceipts(input, Phases(input, a)) + [HeldReceipt(input, a)];
            var y := PhaseReceipts(input, Phases(input, b)) + [HeldReceipt(input, b)];
            Cheapens(x, y) && AllFit(x, TotalMonths(input) + 1) && AllWeightsNonNegative(x)
  {
    hide InvestmentValue, FlatShares, Times, CalcPhase;
    var p, q, d := Phases(input, a), Phases(input, b), NetOfDisposal(input);
    DisposalLeavesSomething(input);
    forall i | 0 <= i < |p|
      ensures Cheapens([PhaseReceipts(input, p)[i]], [PhaseReceipts(input, q)[i]])
      ensures PhaseReceipts(input, p)[i].Fits(TotalMonths(input) + 1) && PhaseReceipts(input, p)[i].NonNegativeWeights()
    {
      PhaseSalesRise(input, a, b, i);
      Construction.PhaseWindow(input, a, i);
      Construction.PhaseWindow(input, b, i);
      PhaseSharesNonNegative(input.phases[i]);
      TimesMono(p[i].gdv, q[i].gdv, d);
    }
    PointwiseCheapens(PhaseReceipts(input, p), PhaseReceipts(input, q));
    HeldReceiptRises(input, a, b);
    hide PhaseReceipts, HeldReceipt, Cheapens, TotalMonths;
    CheapensJoin(PhaseReceipts(input, p), PhaseReceipts(input, q), [HeldReceipt(input, a)], [HeldReceipt(input, b)]);
  }

  lemma PointwiseCheapens(xs: seq<Spread>, ys: seq<Spread>)
    requires |xs| == |ys| && forall i :: 0 <= i < |xs| ==> Cheapens([xs[i]], [ys[i]])
    ensures Cheapens(xs, ys)
  {
    forall i | 0 <= i < |xs|
      ensures 0.0 <= xs[i].amount <= ys[i].amount && xs[i].start == ys[i].start && xs[i].weights == ys[i].weights
    {
      assert [xs[i]][0] == xs[i] && [ys[i]][0] == ys[i];
    }
  }

  lemma HeldReceiptRises(input: AppraisalInput, a: Shock, b: Shock)
    requires input.Valid() && Sound(input) && 0.0 <= a.sales <= b.sales
    ensures Cheapens([HeldReceipt(input, a)], [HeldReceipt(input, b)])
    ensures HeldReceipt(input, a).Fits(TotalMonths(input) + 1) && HeldReceipt(input, a).NonNegativeWeights()
  {
    hide InvestmentValue, FlatShares, Times, TotalMonths, BuildPeriod;
    SalesFollowBuild(input);
    ValuesRise(input, a, b);
    DisposalLeavesSomething(input);
    TimesMono(InvestmentValue(input, a), InvestmentValue(input, b), NetOfDisposal(input));
    FlatNonNegative(TotalMonths(input) - BuildPeriod(input));
  }

  // ---------------------------------------------------------------- the facility's answer

  lemma DrawsMonotone(constr: seq<real>, dearer: seq<real>, ltcF: real)
    requires |constr| == |dearer| && ltcF >= 0.0
    requires forall m :: 0 <= m < |constr| ==> 0.0 <= constr[m] <= dearer[m]
    ensures forall m :: 0 <= m < |constr| ==> 0.0 <= Draws(constr, ltcF)[m] <= Draws(dearer, ltcF)[m]
  {
    forall m | 0 <= m < |constr| ensures 0.0 <= Draw(constr[m], ltcF) <= Draw(dearer[m], ltcF) {
      MulMono(constr[m], dearer[m], ltcF);
      MulNonNegative(constr[m], ltcF);
    }
  }

  /** Better sales and a cheaper build never make finance dearer, in any scheduling branch. */
  lemma FinanceFalls(input: AppraisalInput, better: Shock, worse: Shock)
    requires input.Valid() && Sound(input)
    requires 0.0 <= better.build <= worse.build && 0.0 <= worse.sales <= better.sales
    ensures Cheaper(FlowOf(input, better), FlowOf(input, worse), TotalMonths(input))
    ensures 0.0 <= Finance(input, better) <= Finance(input, worse)
  {
    hide ConstrSeries, RevSeries, TotalMonths;
    var f, g := FlowOf(input, better), FlowOf(input, worse);
    ConstructionCheapens(input, better, worse);
    ReceiptsRise(input, worse, better);
    DrawsMonotone(ConstrSeries(input, better), ConstrSeries(input, worse), LoanToCost(input));
    hide Draws;
    LessSpendMoreSalesCheaper(f, g, TotalMonths(input));
    FinanceNonNegative(f, TotalMonths(input));
    hide FlowOf;
    PercentMono(PeakDebt(input, better), PeakDebt(input, worse), input.finance.arrangementFeePct);
  }
}
