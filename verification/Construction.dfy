/** Construction spend on the programme: laid by the engine's branches, conserved, and ordered by build cost. */
module Construction {
  import opened Numbers
  import opened SpendProfile
  import opened Spend
  import opened Scheme

  // ---------------------------------------------------------------- laying the spend

  method LayAll(series: array<real>, xs: seq<Spread>)
    requires AllFit(xs, series.Length)
    modifies series
    ensures series[..] == ApplyAll(old(series[..]), xs)
  {
    ghost var before := series[..];
    for i := 0 to |xs|
      invariant series[..] == ApplyAll(before, xs[..i])
    {
      assert xs[..i + 1][..i] == xs[..i];
      SpreadInto(series, xs[i]);
    }
    assert xs[..|xs|] == xs;
  }

  /** Fills `constrSeries` by the scheduling branch the scheme calls for. */
  method LayConstruction(input: AppraisalInput, shock: Shock) returns (constr: array<real>)
    requires input.Valid()
    ensures fresh(constr) && constr[..] == ConstrSeries(input, shock)
  {
    hide ConstrSeries, ConstructionTotal, TotalMonths, BuildPeriod, Weights, AddSpread, Timed, AllFit, Spreads;
    var P, total, key := BuildPeriod(input), TotalMonths(input), input.Profile();
    constr := new real[total + 1](_ => 0.0);
    assert constr[..] == Zeros(total + 1);
    SpreadsFit(input, shock);
    if input.Phased() {
      LayPhases(input, shock, constr);
    } else if !Timed(input) {
      SalesFollowBuild(input);
      FlatSeries(input, shock);
      var incs := BuildSpendProfile(P as real, key);
      LayProfile(constr, ConstructionTotal(input, shock), incs);
    } else {
      LayTimed(input, shock, constr);
    }
  }

  /** With no phases and no line timed, the series is one profile over the build. */
  lemma FlatSeries(input: AppraisalInput, shock: Shock)
    requires input.Valid() && !input.Phased() && !Timed(input) && 1 <= BuildPeriod(input) <= TotalMonths(input)
    ensures var x := Spread(ConstructionTotal(input, shock), 1, Weights(BuildPeriod(input), input.Profile()));
            ConstrSeries(input, shock) == AddSpread(Zeros(TotalMonths(input) + 1), x)
  {
    hide ConstructionTotal, TotalMonths, BuildPeriod, Weights, AddSpread;
    SingleSpread(Zeros(TotalMonths(input) + 1),
                 Spread(ConstructionTotal(input, shock), 1, Weights(BuildPeriod(input), input.Profile())));
  }

  /** The fast path: every cost follows one profile over the build. */
  method LayProfile(constr: array<real>, amount: real, incs: seq<real>)
    requires |incs| < constr.Length && constr[..] == Zeros(constr.Length)
    modifies constr
    ensures constr[..] == AddSpread(old(constr[..]), Spread(amount, 1, incs))
  {
    hide Times;
    ghost var x := Spread(amount, 1, incs);
    for i := 0 to |incs|
      invariant constr[..] == AddMonths(Zeros(constr.Length), x, i)
    {
      AddMonthsStep(Zeros(constr.Length), x, i);
      constr[i + 1] := Times(amount, incs[i]);
    }
  }

  lemma SingleSpread(s: seq<real>, x: Spread)
    ensures ApplyAll(s, [x]) == AddSpread(s, x)
  {
    assert [x] == [] + [x];
    ApplyAllSnoc(s, [], x);
  }

  /** Each phase on its own clock, then the held element, then the scheme's own costs. */
  method LayPhases(input: AppraisalInput, shock: Shock, constr: array<real>)
    requires input.Valid() && input.Phased()
    requires constr[..] == Zeros(TotalMonths(input) + 1) && AllFit(Spreads(input, shock), constr.Length)
    modifies constr
    ensures constr[..] == ConstrSeries(input, shock)
  {
    hide ApplyAll, HeldSpreads, SchemeCostSpreads, ConstrSeries, PhaseSpreads, AllPhaseSpreads, Spreads, CalcPhase,
         TotalMonths, AllFit, AllProper;
    var total, key := TotalMonths(input), input.Profile();
    var ps := Phases(input, shock);
    ghost var zeros := constr[..];
    PhasedSeries(input, shock, zeros);
    SalesFollowBuild(input);
    NoPhasesLaid(zeros, ps, shock, key, total);
    for i := 0 to |ps|
      invariant constr[..] == ApplyAll(zeros, AllPhaseSpreads(ps[..i], shock, key, total))
    {
      PhaseFits(input, shock, i);
      OnePhaseLaid(zeros, ps, i, shock, key, total);
      LayAll(constr, PhaseSpreads(ps[i], shock, key, total));
    }
    assert ps[..|ps|] == ps;
    LayAll(constr, HeldSpreads(input, shock));
    LayAll(constr, SchemeCostSpreads(input));
  }

  lemma NoPhasesLaid(zeros: seq<real>, ps: seq<PhaseCalc>, shock: Shock, key: SpendKey, total: nat)
    requires total >= 1
    ensures ApplyAll(zeros, AllPhaseSpreads(ps[..0], shock, key, total)) == zeros
  {
  }

  lemma OnePhaseLaid(zeros: seq<real>, ps: seq<PhaseCalc>, i: nat, shock: Shock, key: SpendKey, total: nat)
    requires total >= 1 && i < |ps|
    ensures ApplyAll(zeros, AllPhaseSpreads(ps[..i + 1], shock, key, total))
         == ApplyAll(ApplyAll(zeros, AllPhaseSpreads(ps[..i], shock, key, total)), PhaseSpreads(ps[i], shock, key, total))
  {
    hide PhaseSpreads;
    assert ps[..i + 1][..i] == ps[..i];
    ApplyAllConcat(zeros, AllPhaseSpreads(ps[..i], shock, key, total), PhaseSpreads(ps[i], shock, key, total));
  }

  /** The phases' spreads, the held element's and the scheme's own, laid one after another, are the series. */
  lemma PhasedSeries(input: AppraisalInput, shock: Shock, zeros: seq<real>)
    requires input.Valid() && input.Phased()
    requires zeros == Zeros(TotalMonths(input) + 1) && AllFit(Spreads(input, shock), |zeros|)
    ensures AllFit(HeldSpreads(input, shock), |zeros|) && AllFit(SchemeCostSpreads(input), |zeros|)
    ensures var phases := AllPhaseSpreads(Phases(input, shock), shock, input.Profile(), TotalMonths(input));
            ApplyAll(ApplyAll(ApplyAll(zeros, phases), HeldSpreads(input, shock)), SchemeCostSpreads(input))
            == ConstrSeries(input, shock)
  {
    hide HeldSpreads, SchemeCostSpreads, Phases, AllPhaseSpreads, TotalMonths, ApplyAll;
    var phases := AllPhaseSpreads(Phases(input, shock), shock, input.Profile(), TotalMonths(input));
    FitSplit(phases + HeldSpreads(input, shock), SchemeCostSpreads(input), |zeros|);
    FitSplit(phases, HeldSpreads(input, shock), |zeros|);
    ApplyAllConcat(zeros, phases, HeldSpreads(input, shock));
    ApplyAllConcat(zeros, phases + HeldSpreads(input, shock), SchemeCostSpreads(input));
  }

  /** Per line: trades carry fees and contingency pro rata, other costs spread on their own timing. */
  method LayTimed(input: AppraisalInput, shock: Shock, constr: array<real>)
    requires input.Valid() && !input.Phased() && Timed(input)
    requires constr[..] == Zeros(TotalMonths(input) + 1)
    modifies constr
    ensures constr[..] == ConstrSeries(input, shock)
  {
    hide SchemeTradeSpreads, SchemeCostSpreads, ApplyAll, Scale, ScaleAmounts, TotalMonths;
    var trades := SchemeTradeSpreads(input, shock);
    LineSpreadsFit(input, shock);
    var tradeSeries := new real[constr.Length](_ => 0.0);
    assert tradeSeries[..] == Zeros(constr.Length);
    LayAll(tradeSeries, trades);
    TimedSeries(input, shock);
    MarkUp(constr, tradeSeries, input.OnCosts());
    LayAll(constr, SchemeCostSpreads(input));
  }

  /** `for (m = 1..) constrSeries[m] = tradeSeries[m] * onCosts`. */
  method MarkUp(constr: array<real>, tradeSeries: array<real>, onCosts: real)
    requires constr != tradeSeries && constr.Length == tradeSeries.Length > 0
    requires constr[0] == tradeSeries[0] == 0.0
    modifies constr
    ensures constr[..] == Scale(tradeSeries[..], onCosts)
  {
    hide Times;
    NilTimes(onCosts);
    for m := 1 to constr.Length
      invariant constr[0] == 0.0
      invariant forall k :: 1 <= k < m ==> constr[k] == Times(tradeSeries[k], onCosts)
    {
      constr[m] := Times(tradeSeries[m], onCosts);
    }
  }

  lemma TimedSeries(input: AppraisalInput, shock: Shock)
    requires input.Valid() && !input.Phased() && Timed(input)
    ensures var zeros, trades := Zeros(TotalMonths(input) + 1), SchemeTradeSpreads(input, shock);
            && ApplyAll(zeros, trades)[0] == 0.0
            && ApplyAll(Scale(ApplyAll(zeros, trades), input.OnCosts()), SchemeCostSpreads(input))
               == ConstrSeries(input, shock)
  {
    hide Times, SchemeTradeSpreads, SchemeCostSpreads, TotalMonths;
    var zeros, trades, c := Zeros(TotalMonths(input) + 1), SchemeTradeSpreads(input, shock), input.OnCosts();
    assert ConstrSeries(input, shock) == ApplyAll(zeros, ScaleAmounts(trades, c) + SchemeCostSpreads(input));
    hide ConstrSeries, ScaleAmounts;
    LineSpreadsFit(input, shock);
    ApplyAllBefore(zeros, trades, 1);
    NilTimes(c);
    assert Scale(zeros, c) == zeros;
    ApplyAllScaled(zeros, trades, c);
    ApplyAllConcat(zeros, ScaleAmounts(trades, c), SchemeCostSpreads(input));
  }

  // ---------------------------------------------------------------- every write is inside the programme

  lemma FitSplit(xs: seq<Spread>, ys: seq<Spread>, size: nat)
    requires AllFit(xs + ys, size)
    ensures AllFit(xs, size) && AllFit(ys, size)
  {
    forall i | 0 <= i < |xs| ensures xs[i].Fits(size) { assert (xs + ys)[i] == xs[i]; }
    forall i | 0 <= i < |ys| ensures ys[i].Fits(size) { assert (xs + ys)[|xs| + i] == ys[i]; }
  }

  /** Inside the programme, and weights that distribute: non-negative, summing to one. */
  ghost predicate Proper(x: Spread, size: nat) {
    x.Fits(size) && x.NonNegativeWeights() && Sum(x.weights) == 1.0
  }

  ghost predicate AllProper(xs: seq<Spread>, size: nat) {
    forall i :: 0 <= i < |xs| ==> Proper(xs[i], size)
  }

  lemma ProperJoin(xs: seq<Spread>, ys: seq<Spread>, size: nat)
    requires AllProper(xs, size) && AllProper(ys, size)
    ensures AllProper(xs + ys, size)
  {
  }

  lemma ProfileProper(amount: real, start: nat, months: nat, key: SpendKey, size: nat)
    requires start >= 1 && months >= 1 && start + months <= size
    ensures Proper(Spread(amount, start, Weights(months, key)), size)
  {
    WeightsDistribute(months, key);
    hide Weights;
  }

  lemma SpreadFromProper(amount: real, from: real, months: real, key: SpendKey, total: nat)
    requires total >= 1
    ensures Proper(SpreadFrom(amount, from, months, key, total), total + 1)
  {
    hide Round;
    var start: nat := Clamp(Round(from), 1, total);
    var span: nat := Clamp(Round(months), 1, total - start + 1);
    ProfileProper(amount, start, span, key, total + 1);
  }

  lemma TradesProper(trades: seq<BuildTrade>, factor: real, origin: nat, months: nat, key: SpendKey, total: nat)
    requires total >= 1
    ensures AllProper(TradeSpreads(trades, factor, origin, months, key, total), total + 1)
  {
    hide SpreadFrom, Times, Relative;
    forall i | 0 <= i < |trades| ensures Proper(TradeSpreads(trades, factor, origin, months, key, total)[i], total + 1) {
      SpreadFromProper(Times(trades[i].rate, factor), Relative(origin, LineStart(trades[i].timing)),
                       LineMonths(trades[i].timing, months as real), LineKey(trades[i].timing, key), total);
    }
  }

  lemma CostsProper(costs: seq<OtherCost>, origin: nat, months: nat, key: SpendKey, total: nat)
    requires total >= 1
    ensures AllProper(CostSpreads(costs, origin, months, key, total), total + 1)
  {
    hide SpreadFrom, Relative;
    forall i | 0 <= i < |costs| ensures Proper(CostSpreads(costs, origin, months, key, total)[i], total + 1) {
      SpreadFromProper(costs[i].amount, Relative(origin, LineStart(costs[i].timing)),
                       LineMonths(costs[i].timing, months as real), LineKey(costs[i].timing, key), total);
    }
  }

  lemma PhaseProper(pc: PhaseCalc, shock: Shock, key: SpendKey, total: nat)
    requires pc.start >= 1 && pc.buildMonths >= 1 && pc.start + pc.buildMonths <= total + 1
    ensures AllProper(PhaseSpreads(pc, shock, key, total), total + 1)
  {
    hide Weights, TradeSpreads, CostSpreads, PhaseFactor;
    if AnyTradeTimed(pc.trades) {
      TradesProper(pc.trades, PhaseFactor(pc, shock), pc.start, pc.buildMonths, key, total);
    } else {
      ProfileProper(pc.Cost(), pc.start, pc.buildMonths, key, total + 1);
    }
    CostsProper(pc.otherCosts, pc.start, pc.buildMonths, key, total);
    ProperJoin(PhaseBuildSpreads(pc, shock, key, total),
               CostSpreads(pc.otherCosts, pc.start, pc.buildMonths, key, total), total + 1);
  }

  /** A phase's programme is the phase's own, whatever the shock. */
  lemma PhaseWindow(input: AppraisalInput, shock: Shock, i: nat)
    requires i < |input.phases|
    ensures var pc, p := Phases(input, shock)[i], input.phases[i];
            && pc.start == PhaseStart(p) && pc.buildMonths == PhaseBuildMonths(p) && pc.share == PhaseShares(p)
            && pc.start + pc.buildMonths - 1 <= BuildPeriod(input)
            && pc.start + pc.buildMonths + |pc.share| - 1 <= TotalMonths(input)
  {
    hide Times, Percent, PhaseGia, PhaseShares, PhaseStart, PhaseBuildMonths;
    ProgrammeBounds(input.phases);
  }

  lemma PhaseFits(input: AppraisalInput, shock: Shock, i: nat)
    requires i < |input.phases|
    ensures AllProper(PhaseSpreads(Phases(input, shock)[i], shock, input.Profile(), TotalMonths(input)),
                      TotalMonths(input) + 1)
    ensures AllFit(PhaseSpreads(Phases(input, shock)[i], shock, input.Profile(), TotalMonths(input)), TotalMonths(input) + 1)
  {
    hide PhaseSpreads, CalcPhase;
    PhaseWindow(input, shock, i);
    PhaseProper(Phases(input, shock)[i], shock, input.Profile(), TotalMonths(input));
  }

  lemma {:induction false} PhasesProper(input: AppraisalInput, shock: Shock, k: nat)
    requires k <= |input.phases|
    ensures AllProper(AllPhaseSpreads(Phases(input, shock)[..k], shock, input.Profile(), TotalMonths(input)),
                      TotalMonths(input) + 1)
  {
    hide PhaseSpreads, CalcPhase;
    if k > 0 {
      PhasesProper(input, shock, k - 1);
      PhaseFits(input, shock, k - 1);
      var ps := Phases(input, shock);
      assert ps[..k][..k - 1] == ps[..k - 1];
    }
  }

  lemma HeldProper(input: AppraisalInput, shock: Shock)
    requires input.Valid()
    ensures AllProper(HeldSpreads(input, shock), TotalMonths(input) + 1)
  {
    hide Weights, UnphasedGia, UnphasedBuild;
    SalesFollowBuild(input);
    ProfileProper(Times(UnphasedBuild(input, shock), input.OnCosts()), 1, BuildPeriod(input), input.Profile(),
                  TotalMonths(input) + 1);
  }

  lemma ScaledProper(xs: seq<Spread>, c: real, size: nat)
    requires AllProper(xs, size)
    ensures AllProper(ScaleAmounts(xs, c), size)
  {
    hide Times;
    forall i | 0 <= i < |xs| ensures Proper(ScaleAmounts(xs, c)[i], size) { assert Proper(xs[i], size); }
  }

  lemma LineSpreadsFit(input: AppraisalInput, shock: Shock)
    requires input.Valid()
    ensures AllProper(SchemeTradeSpreads(input, shock), TotalMonths(input) + 1)
    ensures AllProper(SchemeCostSpreads(input), TotalMonths(input) + 1)
  {
    hide TradeSpreads, CostSpreads, Gia;
    SalesFollowBuild(input);
    TradesProper(input.trades, Times(shock.build, Gia(input)), 1, BuildPeriod(input), input.Profile(), TotalMonths(input));
    CostsProper(input.otherCosts, 1, BuildPeriod(input), input.Profile(), TotalMonths(input));
  }

  /** In every branch every cost lands in months 1..totalMonths, on weights that sum to one. */
  lemma SpreadsProper(input: AppraisalInput, shock: Shock)
    requires input.Valid()
    ensures AllProper(Spreads(input, shock), TotalMonths(input) + 1)
  {
    hide Weights, SchemeCostSpreads, SchemeTradeSpreads, HeldSpreads, AllPhaseSpreads, ConstructionTotal, ScaleAmounts;
    LineSpreadsFit(input, shock);
    var size := TotalMonths(input) + 1;
    if input.Phased() {
      var ps := Phases(input, shock);
      PhasesProper(input, shock, |ps|);
      assert ps[..|ps|] == ps;
      HeldProper(input, shock);
      ProperJoin(AllPhaseSpreads(ps, shock, input.Profile(), TotalMonths(input)), HeldSpreads(input, shock), size);
      ProperJoin(AllPhaseSpreads(ps, shock, input.Profile(), TotalMonths(input)) + HeldSpreads(input, shock),
                 SchemeCostSpreads(input), size);
    } else if !Timed(input) {
      SalesFollowBuild(input);
      ProfileProper(ConstructionTotal(input, shock), 1, BuildPeriod(input), input.Profile(), size);
    } else {
      ScaledProper(SchemeTradeSpreads(input, shock), input.OnCosts(), size);
      ProperJoin(ScaleAmounts(SchemeTradeSpreads(input, shock), input.OnCosts()), SchemeCostSpreads(input), size);
    }
  }

  lemma SpreadsFit(input: AppraisalInput, shock: Shock)
    requires input.Valid()
    ensures AllFit(Spreads(input, shock), TotalMonths(input) + 1)
    ensures AllWeightsNonNegative(Spreads(input, shock))
  {
    SpreadsProper(input, shock);
    hide Spreads;
    forall i | 0 <= i < |Spreads(input, shock)| ensures Spreads(input, shock)[i].NonNegativeWeights() {
      assert Proper(Spreads(input, shock)[i], TotalMonths(input) + 1);
    }
    forall i | 0 <= i < |Spreads(input, shock)| ensures Spreads(input, shock)[i].Fits(TotalMonths(input) + 1) {
      assert Proper(Spreads(input, shock)[i], TotalMonths(input) + 1);
    }
  }
}
