/** Construction spend is conserved: what is laid on the programme is what the appraisal says it costs. */
module Conservation {
  import opened Numbers
  import opened SpendProfile
  import opened Spend
  import opened Scheme
  import opened Construction
  import Valuation

  function SpreadAmount(x: Spread): real { x.amount }

  lemma ProperLaid(xs: seq<Spread>, size: nat)
    requires AllProper(xs, size)
    ensures SumOf(Laid, xs) == SumOf(SpreadAmount, xs)
  {
    forall i | 0 <= i < |xs| ensures Laid(xs[i]) == SpreadAmount(xs[i]) {
      assert Proper(xs[i], size);
    }
    SumOfSame(Laid, xs, SpreadAmount, xs);
  }

  // ---------------------------------------------------------------- each list of lines

  lemma CostLines(costs: seq<OtherCost>, origin: nat, months: nat, key: SpendKey, total: nat)
    ensures SumOf(SpreadAmount, CostSpreads(costs, origin, months, key, total)) == SumOf(Amount, costs)
  {
    hide Weights, Round;
    SumOfSame(SpreadAmount, CostSpreads(costs, origin, months, key, total), Amount, costs);
  }

  lemma TradeLines(trades: seq<BuildTrade>, factor: real, origin: nat, months: nat, key: SpendKey, total: nat)
    ensures SumOf(SpreadAmount, TradeSpreads(trades, factor, origin, months, key, total))
         == Times(SumOf(Rate, trades), factor)
  {
    var xs := TradeSpreads(trades, factor, origin, months, key, total);
    forall i | 0 <= i < |trades| ensures xs[i].amount == Times(trades[i].rate, factor) {
      hide Times, Weights, Round;
    }
    ScaledAmounts(trades, factor, xs);
  }

  lemma ScaledAmounts(trades: seq<BuildTrade>, factor: real, xs: seq<Spread>)
    requires |xs| == |trades|
    requires forall i :: 0 <= i < |trades| ==> xs[i].amount == Times(trades[i].rate, factor)
    ensures SumOf(SpreadAmount, xs) == Times(SumOf(Rate, trades), factor)
  {
    SumOfScaled(Rate, trades, SpreadAmount, xs, factor);
  }

  lemma ScaledLines(xs: seq<Spread>, c: real)
    ensures SumOf(SpreadAmount, ScaleAmounts(xs, c)) == Times(SumOf(SpreadAmount, xs), c)
  {
    SumOfScaled(SpreadAmount, xs, SpreadAmount, ScaleAmounts(xs, c), c);
  }

  /** Fees and contingency are percentages of build, so a cost with both is one mark-up on the build. */
  lemma MarkedUp(build: real, feePct: real, contPct: real)
    ensures build + Percent(build, feePct) + Percent(build, contPct)
         == Times(build, 1.0 + (feePct + contPct) / 100.0)
  {
  }

  // ---------------------------------------------------------------- phases

  lemma PhaseLines(input: AppraisalInput, shock: Shock, i: nat)
    requires i < |input.phases|
    ensures var pc := Phases(input, shock)[i];
            SumOf(SpreadAmount, PhaseSpreads(pc, shock, input.Profile(), TotalMonths(input))) == pc.Cost() + pc.otherTotal
  {
    hide SumOf, Weights, TradeSpreads, CostSpreads, Times, PhaseGia, PhaseShares, PhaseStart, PhaseBuildMonths;
    var pc, key, total := Phases(input, shock)[i], input.Profile(), TotalMonths(input);
    PhaseBuildLines(input, shock, i, key, total);
    CostLines(pc.otherCosts, pc.start, pc.buildMonths, key, total);
    SumOfConcat(SpreadAmount, PhaseBuildSpreads(pc, shock, key, total),
                CostSpreads(pc.otherCosts, pc.start, pc.buildMonths, key, total));
    hide PhaseBuildSpreads;
  }

  /** Timed trades and the one-profile branch lay the same money. */
  lemma PhaseBuildLines(input: AppraisalInput, shock: Shock, i: nat, key: SpendKey, total: nat)
    requires i < |input.phases|
    ensures var pc := Phases(input, shock)[i];
            SumOf(SpreadAmount, PhaseBuildSpreads(pc, shock, key, total)) == pc.Cost()
  {
    hide Weights, TradeSpreads, Times, PhaseGia, PhaseShares, PhaseStart, PhaseBuildMonths;
    var pc := Phases(input, shock)[i];
    if AnyTradeTimed(pc.trades) {
      hide SumOf;
      TradeLines(pc.trades, PhaseFactor(pc, shock), pc.start, pc.buildMonths, key, total);
      var rate, onCosts := SumOf(Rate, pc.trades), 1.0 + (pc.feePct + pc.contPct) / 100.0;
      TimesAssociates(rate, Times(shock.build, pc.gia), onCosts);
      TimesAssociates(rate, shock.build, pc.gia);
      MarkedUp(pc.build, pc.feePct, pc.contPct);
    } else {
      var x := Spread(pc.Cost(), pc.start, Weights(pc.buildMonths, key));
      assert [x][..0] == [];
      assert SumOf(SpreadAmount, [x]) == SumOf(SpreadAmount, []) + SpreadAmount(x);
    }
  }

  lemma {:induction false} AllPhaseLines(input: AppraisalInput, shock: Shock, k: nat)
    requires k <= |input.phases|
    ensures var ps := Phases(input, shock)[..k];
            SumOf(SpreadAmount, AllPhaseSpreads(ps, shock, input.Profile(), TotalMonths(input)))
            == SumOf(BuildOf, ps) + SumOf(FeesOf, ps) + SumOf(ContOf, ps) + SumOf(OtherOf, ps)
  {
    hide PhaseSpreads, CalcPhase, TotalMonths;
    if k > 0 {
      AllPhaseLines(input, shock, k - 1);
      PhaseLines(input, shock, k - 1);
      var all := Phases(input, shock);
      assert all[..k][..k - 1] == all[..k - 1];
      SumOfConcat(SpreadAmount, AllPhaseSpreads(all[..k - 1], shock, input.Profile(), TotalMonths(input)),
                  PhaseSpreads(all[k - 1], shock, input.Profile(), TotalMonths(input)));
    }
  }

  // ---------------------------------------------------------------- the theorem

  /** Build, with its fees and contingency, that the phased branch leaves off the programme. */
  function Dropped(input: AppraisalInput, shock: Shock): real
    requires input.Valid()
  {
    if input.Phased() && UnphasedGia(input, shock) <= AREA_CUTOFF
    then Times(UnphasedBuild(input, shock), input.OnCosts())
    else 0.0
  }

  lemma HeldLines(input: AppraisalInput, shock: Shock)
    requires input.Valid() && input.Phased()
    ensures SumOf(SpreadAmount, HeldSpreads(input, shock))
         == Times(UnphasedBuild(input, shock), input.OnCosts()) - Dropped(input, shock)
  {
    hide Times, UnphasedBuild, UnphasedGia, Weights;
    if UnphasedGia(input, shock) > AREA_CUTOFF {
      assert HeldSpreads(input, shock)[..0] == [];
    }
  }

  lemma UnphasedMarkedUp(input: AppraisalInput, shock: Shock)
    requires input.Valid()
    ensures Times(UnphasedBuild(input, shock), input.OnCosts())
         == UnphasedBuild(input, shock) + Percent(UnphasedBuild(input, shock), input.profFeePct)
            + Percent(UnphasedBuild(input, shock), input.contingencyPct)
  {
    hide UnphasedBuild;
    MarkedUp(UnphasedBuild(input, shock), input.profFeePct, input.contingencyPct);
  }

  lemma PhasedTotal(input: AppraisalInput, shock: Shock)
    requires input.Valid() && input.Phased()
    ensures SumOf(SpreadAmount, Spreads(input, shock)) == ConstructionTotal(input, shock) - Dropped(input, shock)
  {
    hide AllPhaseSpreads, HeldSpreads, CostSpreads, UnphasedBuild, Dropped, SumOf, Times, Percent, TotalMonths, BuildPeriod;
    var ps, key, total := Phases(input, shock), input.Profile(), TotalMonths(input);
    AllPhaseLines(input, shock, |ps|);
    assert ps[..|ps|] == ps;
    HeldLines(input, shock);
    UnphasedMarkedUp(input, shock);
    CostLines(input.otherCosts, 1, BuildPeriod(input), key, total);
    var phases := AllPhaseSpreads(ps, shock, key, total);
    SumOfConcat(SpreadAmount, phases, HeldSpreads(input, shock));
    SumOfConcat(SpreadAmount, phases + HeldSpreads(input, shock), SchemeCostSpreads(input));
  }

  lemma TimedTotal(input: AppraisalInput, shock: Shock)
    requires input.Valid() && !input.Phased() && Timed(input)
    ensures SumOf(SpreadAmount, Spreads(input, shock)) == ConstructionTotal(input, shock)
  {
    hide CostSpreads, TradeSpreads, Times, Percent, Gia, TotalMonths, BuildPeriod;
    var key, total, P := input.Profile(), TotalMonths(input), BuildPeriod(input);
    TradeLines(input.trades, Times(shock.build, Gia(input)), 1, P, key, total);
    CostLines(input.otherCosts, 1, P, key, total);
    ScaledLines(SchemeTradeSpreads(input, shock), input.OnCosts());
    SumOfConcat(SpreadAmount, ScaleAmounts(SchemeTradeSpreads(input, shock), input.OnCosts()), SchemeCostSpreads(input));
    UnphasedMarkedUp(input, shock);
    UnphasedBuildIsAll(input, shock);
    TimesAssociates(SumOf(Rate, input.trades), shock.build, Gia(input));
    NoPhaseSums(input, shock);
    hide SumOf, ScaleAmounts;
  }

  lemma NoPhaseSums(input: AppraisalInput, shock: Shock)
    requires !input.Phased()
    ensures var ps := Phases(input, shock);
            SumOf(BuildOf, ps) == SumOf(FeesOf, ps) == SumOf(ContOf, ps) == SumOf(OtherOf, ps) == SumOf(GiaOf, ps) == 0.0
  {
  }

  lemma UnphasedBuildIsAll(input: AppraisalInput, shock: Shock)
    requires input.Valid() && !input.Phased()
    ensures UnphasedBuild(input, shock) == Times(SchemeRate(input, shock), Gia(input))
  {
    hide Gia, Times, SchemeRate;
    NoPhaseSums(input, shock);
  }

  /**
   * Every write lands in months 1..totalMonths and the months add up to build + fees + contingency + other
   * costs, less what the area cut-off drops; in every scheduling branch, for every input and multiplier.
   */
  lemma SpendConserved(input: AppraisalInput, shock: Shock)
    requires input.Valid()
    ensures ConstrSeries(input, shock)[0] == 0.0
    ensures Sum(ConstrSeries(input, shock)) == ConstructionTotal(input, shock) - Dropped(input, shock)
  {
    hide ConstructionTotal, Dropped, Spreads;
    var xs, size := Spreads(input, shock), TotalMonths(input) + 1;
    hide TotalMonths;
    SpreadsProper(input, shock);
    SpreadsFit(input, shock);
    ProperLaid(xs, size);
    LaidTotal(size, xs);
    TotalLaid(input, shock);
  }

  lemma TotalLaid(input: AppraisalInput, shock: Shock)
    requires input.Valid()
    ensures SumOf(SpreadAmount, Spreads(input, shock)) == ConstructionTotal(input, shock) - Dropped(input, shock)
  {
    if input.Phased() {
      PhasedTotal(input, shock);
    } else if Timed(input) {
      TimedTotal(input, shock);
    } else {
      hide ConstructionTotal, Weights;
      assert Spreads(input, shock)[..0] == [];
    }
  }

  // ---------------------------------------------------------------- the held element's area

  lemma GrossAdds(input: AppraisalInput, a: real, b: real)
    ensures Gross(input, a + b) == Gross(input, a) + Gross(input, b)
  {
    hide Div;
    if Efficiency(input) > 0.0 { DivDifference(a, a + b, Efficiency(input)); }
  }

  lemma {:induction false} FlattenedArea(input: AppraisalInput, shock: Shock, k: nat)
    requires k <= |input.phases|
    ensures Gross(input, SumOf(UnitArea, Flatten(input.phases[..k]))) == SumOf(GiaOf, Phases(input, shock)[..k])
  {
    hide Gross, Times, Percent, PhaseShares, PhaseStart, PhaseBuildMonths;
    if k == 0 {
      GrossAdds(input, 0.0, 0.0);
    } else {
      FlattenedArea(input, shock, k - 1);
      var ps := Phases(input, shock);
      assert ps[..k][..k - 1] == ps[..k - 1];
      assert input.phases[..k][..k - 1] == input.phases[..k - 1];
      var flat, units := Flatten(input.phases[..k - 1]), input.phases[k - 1].units;
      assert Flatten(input.phases[..k]) == flat + units;
      hide Flatten;
      SumOfConcat(UnitArea, flat, units);
      GrossAdds(input, SumOf(UnitArea, flat), SumOf(UnitArea, units));
    }
  }

  /** The area no phase carries is exactly the gross area of the let space. */
  lemma HeldAreaIsUnphased(input: AppraisalInput, shock: Shock)
    requires input.Valid() && input.Phased()
    ensures UnphasedGia(input, shock) == Gross(input, IncomeArea(input))
  {
    hide Gross, SumOf, IncomeArea, CalcPhase;
    FlattenedArea(input, shock, |input.phases|);
    assert input.phases[..|input.phases|] == input.phases;
    assert Phases(input, shock)[..|input.phases|] == Phases(input, shock);
    GrossAdds(input, SumOf(UnitArea, AllUnits(input)), IncomeArea(input));
  }


  // ---------------------------------------------------------------- exactly when spend is conserved

  /** Let space of a phased scheme too small to be laid, that still costs something to build. */
  predicate PricedSliver(input: AppraisalInput, shock: Shock)
    requires input.Valid()
  {
    var area := Gross(input, IncomeArea(input));
    && input.Phased() && area <= AREA_CUTOFF && area != 0.0
    && SumOf(Rate, input.trades) != 0.0 && shock.build != 0.0 && input.OnCosts() != 0.0
  }

  lemma ProductNil(a: real, b: real)
    ensures Times(a, b) == 0.0 <==> a == 0.0 || b == 0.0
  {
    if Times(a, b) == 0.0 && b != 0.0 { MulCancel(a, 0.0, b); }
  }

  lemma DroppedExactly(input: AppraisalInput, shock: Shock)
    requires input.Valid()
    ensures Dropped(input, shock) != 0.0 <==> PricedSliver(input, shock)
  {
    if input.Phased() { HeldAreaIsUnphased(input, shock); }
    hide Times, SumOf, UnphasedGia, Gross, IncomeArea;
    var rate, area := SumOf(Rate, input.trades), UnphasedGia(input, shock);
    ProductNil(rate, shock.build);
    ProductNil(Times(rate, shock.build), area);
    ProductNil(UnphasedBuild(input, shock), input.OnCosts());
  }

  /** Spend is conserved exactly unless a phased scheme has a priced sliver of let space under the cut-off. */
  lemma SpendConservedExactly(input: AppraisalInput, shock: Shock)
    requires input.Valid()
    ensures Sum(ConstrSeries(input, shock)) == ConstructionTotal(input, shock) <==> !PricedSliver(input, shock)
  {
    hide *;
    SpendConserved(input, shock);
    DroppedExactly(input, shock);
  }

  /** Such a scheme: one phase, and 0.00005 square feet of let space to be built at £1 a square foot. */
  function SliverScheme(): (input: AppraisalInput)
    ensures input.Valid() && input.Phased()
  {
    AppraisalInput(
      [], [Phase(1.0, 1.0, 1.0, None, [], [], None, None, [])], 100.0, [BuildTrade(1.0, None)], 0.0, 0.0, [],
      FinanceInput(0.0, 0.0, 1.0, 1.0, 0.0, None, None), Profit, 0.0, 0.0, 0.0, 0.0, 0.0,
      Some(Valuation.IncomeInput([SliverLine()], None, None, 0.0, None, 5.0, None, None)))
  }

  function SliverLine(): Valuation.IncomeLine { Valuation.IncomeLine(1.0, 0.00005, 0.0, None, None, None, None) }

  lemma SliverFields()
    ensures var input := SliverScheme();
            && input.trades == [BuildTrade(1.0, None)] && input.efficiency == 100.0 && input.OnCosts() == 1.0
            && input.income.Some? && input.income.value.lines == [SliverLine()]
  {
  }

  lemma SliverLineArea()
    ensures SumOf(Valuation.LineArea, [SliverLine()]) == 0.00005
  {
    SumOfOne(Valuation.LineArea, SliverLine());
    hide SumOf;
  }

  lemma WholeGross(input: AppraisalInput, net: real)
    requires input.efficiency == 100.0
    ensures Gross(input, net) == net
  {
    DivUnique(net, 1.0, net);
    hide Div;
  }

  lemma SliverArea(input: AppraisalInput)
    requires input.Valid() && input.efficiency == 100.0 && input.income.Some? && input.income.value.lines == [SliverLine()]
    ensures Gross(input, IncomeArea(input)) == 0.00005
  {
    hide SumOf, SliverLine, Gross, Valuation.Capitalise, Valuation.LineArea;
    SliverLineArea();
    AreaIs(input.income.value);
    WholeGross(input, IncomeArea(input));
  }

  lemma AreaIs(income: Valuation.IncomeInput)
    requires income.Valid()
    ensures Valuation.Capitalise(income).totalArea == SumOf(Valuation.LineArea, income.lines)
  {
    hide SumOf, Valuation.CapitaliseLines, Valuation.NetRent, Valuation.LetUp, Div;
  }

  /** Its spend on the programme falls short of its construction cost. */
  lemma SliverIsLost()
    ensures Sum(ConstrSeries(SliverScheme(), Shock(1.0, 1.0))) != ConstructionTotal(SliverScheme(), Shock(1.0, 1.0))
  {
    SliverFields();
    hide SliverScheme;
    SliverArea(SliverScheme());
    SumOfOne(Rate, BuildTrade(1.0, None));
    hide Gross, IncomeArea, SumOf, ConstrSeries, ConstructionTotal;
    SpendConservedExactly(SliverScheme(), Shock(1.0, 1.0));
  }
}
