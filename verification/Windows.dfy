/** When each cost falls and each receipt arrives, line by line, in terms of what the line says about itself. */
module Windows {
  import opened Numbers
  import opened SpendProfile
  import opened Spend
  import opened Absorption
  import opened Scheme
  import Conservation
  import Construction
  import Valuation

  /** The whole month nearest to `x`, brought inside months 1 to `last`. */
  function MonthIn(x: real, last: nat): (m: nat)
    requires last >= 1
    ensures 1 <= m <= last
  {
    var r := Round(x);
    if r < 1 then 1 else if r > last then last else r
  }

  /** `after` holds `amount` more than `before`, all of it in `span` months from `first`, running as the profile does. */
  ghost predicate Falls(before: seq<real>, after: seq<real>, amount: real, first: nat, span: nat, key: SpendKey) {
    && |after| == |before| && 1 <= first && 1 <= span && first + span <= |before|
    && (forall m :: 0 <= m < |before| && !(first <= m < first + span) ==> after[m] == before[m])
    && (forall k :: 0 <= k <= span ==> RunsTo(before, after, amount, first, span, key, k))
    && Sum(after) == Sum(before) + amount
  }

  /** After `k` months of the window, the part of the amount that its profile has spent by then. */
  ghost predicate RunsTo(before: seq<real>, after: seq<real>, amount: real, first: nat, span: nat, key: SpendKey, k: nat)
    requires |after| == |before| && k <= span && 0 < span && first + span <= |before|
  {
    Sum(after[..first + k]) == Sum(before[..first + k]) + Times(amount, Ramp(span, key, k))
  }

  lemma SpreadFalls(s: seq<real>, x: Spread, span: nat, key: SpendKey)
    requires span >= 1 && x.weights == Weights(span, key) && x.Fits(|s|)
    ensures Falls(s, AddSpread(s, x), x.amount, x.start, span, key)
  {
    hide Times, Weights, Ramp, AddSpread;
    var t := AddSpread(s, x);
    SpreadRuns(s, x, 0);
    forall k | 0 <= k <= span ensures RunsTo(s, t, x.amount, x.start, span, key, k) {
      SpreadRuns(s, x, k);
      WeightsFollowRamp(span, key, k);
    }
    AddMonthsSum(s, x, span);
    WeightsFollowRamp(span, key, span);
    assert x.weights[..span] == x.weights;
    WholeTimes(x.amount);
    assert Sum(t) == Sum(s) + Times(x.amount, Sum(x.weights)) by { SumSpread(s, x); }
  }

  lemma SumSpread(s: seq<real>, x: Spread)
    requires x.Fits(|s|)
    ensures Sum(AddSpread(s, x)) == Sum(s) + Times(x.amount, Sum(x.weights))
  {
    hide Times;
    AddMonthsSum(s, x, |x.weights|);
    assert x.weights[..|x.weights|] == x.weights;
  }

  lemma WholeTimes(a: real)
    ensures Times(a, 1.0) == a
  {
  }

  /** What a line says of its window, with what stands in for what it leaves out. */
  datatype Line = Line(start: real, months: real, key: SpendKey)

  /** Month 1, the whole default window and the scheme's profile stand in for what a line does not say. */
  predicate Says(timing: Option<CostTiming>, line: Line, months: nat, key: SpendKey) {
    match timing
    case None => line == Line(1.0, months as real, key)
    case Some(t) =>
      && (match t.start case None => line.start == 1.0 case Some(s) => line.start == s)
      && (match t.months case None => line.months == months as real case Some(n) => line.months == n)
      && (match t.profile case None => line.key == key case Some(p) => line.key == p)
  }

  /** A line on a programme of `total` months, its month 1 falling in month `origin`. */
  ghost predicate LineFalls(before: seq<real>, after: seq<real>, amount: real, line: Line, origin: nat, total: nat)
    requires total >= 1
  {
    var first := MonthIn((origin + Round(line.start) - 1) as real, total);
    Falls(before, after, amount, first, MonthIn(line.months, total - first + 1), line.key)
  }

  lemma RoundWhole(n: int)
    ensures Round(n as real) == n
  {
  }

  lemma LineIs(amount: real, timing: Option<CostTiming>, line: Line, origin: nat, months: nat, key: SpendKey, total: nat)
    requires total >= 1 && Says(timing, line, months, key)
    ensures var x := SpreadFrom(amount, Relative(origin, LineStart(timing)), LineMonths(timing, months as real),
                                LineKey(timing, key), total);
            var first := MonthIn((origin + Round(line.start) - 1) as real, total);
            x == Spread(amount, first, Weights(MonthIn(line.months, total - first + 1), line.key))
  {
    hide Weights, Round;
  }

  lemma LineSpreadFalls(s: seq<real>, amount: real, timing: Option<CostTiming>, line: Line, origin: nat, months: nat,
                        key: SpendKey, total: nat)
    requires total >= 1 && |s| == total + 1 && Says(timing, line, months, key)
    ensures var x := SpreadFrom(amount, Relative(origin, LineStart(timing)), LineMonths(timing, months as real),
                                LineKey(timing, key), total);
            LineFalls(s, AddSpread(s, x), amount, line, origin, total)
  {
    hide Weights, Round, AddSpread, Falls, SpreadFrom;
    LineIs(amount, timing, line, origin, months, key, total);
    var first := MonthIn((origin + Round(line.start) - 1) as real, total);
    var span := MonthIn(line.months, total - first + 1);
    SpreadFalls(s, Spread(amount, first, Weights(span, line.key)), span, line.key);
  }

  // ---------------------------------------------------------------- a scheme without phases

  /** Some line has its own timing. */
  ghost predicate SomeTiming(input: AppraisalInput) {
    || (exists i :: 0 <= i < |input.trades| && input.trades[i].timing.Some?)
    || (exists i :: 0 <= i < |input.otherCosts| && input.otherCosts[i].timing.Some?)
  }

  function WithCost(input: AppraisalInput, cost: OtherCost): AppraisalInput {
    input.(otherCosts := input.otherCosts + [cost])
  }

  function WithTrade(input: AppraisalInput, trade: BuildTrade): AppraisalInput {
    input.(trades := input.trades + [trade])
  }

  lemma TimingStays(input: AppraisalInput, cost: OtherCost, trade: BuildTrade)
    requires SomeTiming(input)
    ensures Timed(input) && Timed(WithCost(input, cost)) && Timed(WithTrade(input, trade))
  {
    if i :| 0 <= i < |input.trades| && input.trades[i].timing.Some? {
      assert WithTrade(input, trade).trades[i] == input.trades[i];
    } else {
      var i :| 0 <= i < |input.otherCosts| && input.otherCosts[i].timing.Some?;
      assert WithCost(input, cost).otherCosts[i] == input.otherCosts[i];
    }
  }


  lemma CostsSnoc(costs: seq<OtherCost>, cost: OtherCost, origin: nat, months: nat, key: SpendKey, total: nat)
    ensures CostSpreads(costs + [cost], origin, months, key, total)
         == CostSpreads(costs, origin, months, key, total)
            + [SpreadFrom(cost.amount, Relative(origin, LineStart(cost.timing)), LineMonths(cost.timing, months as real),
                          LineKey(cost.timing, key), total)]
  {
    hide SpreadFrom, Relative;
  }

  lemma TradesSnoc(trades: seq<BuildTrade>, trade: BuildTrade, factor: real, origin: nat, months: nat, key: SpendKey,
                   total: nat)
    ensures TradeSpreads(trades + [trade], factor, origin, months, key, total)
         == TradeSpreads(trades, factor, origin, months, key, total)
            + [SpreadFrom(Times(trade.rate, factor), Relative(origin, LineStart(trade.timing)),
                          LineMonths(trade.timing, months as real), LineKey(trade.timing, key), total)]
  {
    hide SpreadFrom, Relative, Times;
  }

  lemma LastInserted(s: seq<real>, xs: seq<Spread>, x: Spread)
    ensures ApplyAll(s, xs + [x]) == AddSpread(ApplyAll(s, xs), x)
  {
    ApplyAllSnoc(s, xs, x);
  }

  /** The scheme's own costs come last in every branch that lays them. */
  lemma CostComesLast(input: AppraisalInput, shock: Shock, cost: OtherCost)
    requires input.Valid() && (input.Phased() || (Timed(input) && Timed(WithCost(input, cost))))
    ensures var x := SpreadFrom(cost.amount, Relative(1, LineStart(cost.timing)),
                                LineMonths(cost.timing, BuildPeriod(input) as real),
                                LineKey(cost.timing, input.Profile()), TotalMonths(input));
            Spreads(WithCost(input, cost), shock) == Spreads(input, shock) + [x]
  {
    WithCostIs(input, cost);
    hide *;
    CostsSnoc(input.otherCosts, cost, 1, BuildPeriod(input), input.Profile(), TotalMonths(input));
    CostLeaves(input, shock, cost);
    SchemeCostsAre(input);
    SchemeCostsAre(WithCost(input, cost));
    SpreadsAre(input, shock);
    SpreadsAre(WithCost(input, cost), shock);
  }

  lemma WithCostIs(input: AppraisalInput, cost: OtherCost)
    ensures WithCost(input, cost).otherCosts == input.otherCosts + [cost] && WithCost(input, cost).OnCosts() == input.OnCosts()
  {
  }

  lemma SchemeCostsAre(input: AppraisalInput)
    ensures SchemeCostSpreads(input)
         == CostSpreads(input.otherCosts, 1, BuildPeriod(input), input.Profile(), TotalMonths(input))
  {
    hide CostSpreads, BuildPeriod, TotalMonths;
  }

  lemma SpreadsAre(input: AppraisalInput, shock: Shock)
    requires input.Valid()
    ensures input.Phased() ==>
      Spreads(input, shock) == AllPhaseSpreads(Phases(input, shock), shock, input.Profile(), TotalMonths(input))
                               + HeldSpreads(input, shock) + SchemeCostSpreads(input)
    ensures !input.Phased() && Timed(input) ==>
      Spreads(input, shock) == ScaleAmounts(SchemeTradeSpreads(input, shock), input.OnCosts()) + SchemeCostSpreads(input)
  {
    hide AllPhaseSpreads, HeldSpreads, SchemeCostSpreads, SchemeTradeSpreads, ScaleAmounts, Timed, TotalMonths;
  }

  /** Nothing else depends on the scheme's own costs. */
  lemma CostLeaves(input: AppraisalInput, shock: Shock, cost: OtherCost)
    requires input.Valid()
    ensures var with := WithCost(input, cost);
            && with.Valid() && TotalMonths(with) == TotalMonths(input) && BuildPeriod(with) == BuildPeriod(input)
            && with.Phased() == input.Phased() && with.Profile() == input.Profile()
            && Phases(with, shock) == Phases(input, shock) && HeldSpreads(with, shock) == HeldSpreads(input, shock)
            && SchemeTradeSpreads(with, shock) == SchemeTradeSpreads(input, shock)
  {
    hide SumOf, Times, Percent, Shares, Weights, Valuation.Capitalise, Div, TradeSpreads;
    var with := WithCost(input, cost);
    assert AllUnits(with) == AllUnits(input) && Gia(with) == Gia(input);
    forall p ensures CalcPhase(with, shock, p) == CalcPhase(input, shock, p) {}
    hide Gia, CalcPhase;
    assert Phases(with, shock) == Phases(input, shock);
  }

  /**
   * One more cost on a scheme of timed lines, or on a phased scheme, falls in its own months from its own start and
   * nowhere else, on its own profile.
   */
  lemma CostFalls(input: AppraisalInput, shock: Shock, cost: OtherCost, line: Line)
    requires input.Valid() && (input.Phased() || SomeTiming(input))
    requires Says(cost.timing, line, BuildPeriod(input), input.Profile()) && TotalMonths(input) >= 1
    ensures WithCost(input, cost).Valid()
    ensures LineFalls(ConstrSeries(input, shock), ConstrSeries(WithCost(input, cost), shock), cost.amount, line, 1,
                      TotalMonths(input))
  {
    hide *;
    if !input.Phased() { TimingStays(input, cost, BuildTrade(0.0, None)); }
    CostComesLast(input, shock, cost);
    CostLeaves(input, shock, cost);
    SeriesIs(input, shock);
    SeriesIs(WithCost(input, cost), shock);
    var x := SpreadFrom(cost.amount, Relative(1, LineStart(cost.timing)),
                        LineMonths(cost.timing, BuildPeriod(input) as real), LineKey(cost.timing, input.Profile()),
                        TotalMonths(input));
    LastInserted(Zeros(TotalMonths(input) + 1), Spreads(input, shock), x);
    LineSpreadFalls(ConstrSeries(input, shock), cost.amount, cost.timing, line, 1, BuildPeriod(input), input.Profile(),
                    TotalMonths(input));
  }

  lemma SeriesIs(input: AppraisalInput, shock: Shock)
    requires input.Valid()
    ensures ConstrSeries(input, shock) == ApplyAll(Zeros(TotalMonths(input) + 1), Spreads(input, shock))
  {
    hide ApplyAll, Spreads, TotalMonths;
  }


  /** A trade's amount carries the build multiplier, the scheme's gross area and its on-costs. */
  function TradeAmount(input: AppraisalInput, shock: Shock, rate: real): real
    requires input.Valid()
  {
    rate * (shock.build * Gia(input)) * (1.0 + (input.profFeePct + input.contingencyPct) / 100.0)
  }

  lemma TradeLeaves(input: AppraisalInput, shock: Shock, trade: BuildTrade)
    requires input.Valid() && !input.Phased()
    ensures var with := WithTrade(input, trade);
            && with.Valid() && TotalMonths(with) == TotalMonths(input) && BuildPeriod(with) == BuildPeriod(input)
            && !with.Phased() && with.Profile() == input.Profile() && Gia(with) == Gia(input)
            && SchemeCostSpreads(with) == SchemeCostSpreads(input) && with.OnCosts() == input.OnCosts()
  {
    hide SumOf, Shares, Valuation.Capitalise, Div, CostSpreads;
    assert AllUnits(WithTrade(input, trade)) == AllUnits(input);
  }

  /** Where the new trade's spread stands among the others. */
  lemma TradeStands(input: AppraisalInput, shock: Shock, trade: BuildTrade, x: Spread)
    requires input.Valid() && !input.Phased() && Timed(input) && Timed(WithTrade(input, trade))
    requires x == SpreadFrom(Times(trade.rate, Times(shock.build, Gia(input))), Relative(1, LineStart(trade.timing)),
                             LineMonths(trade.timing, BuildPeriod(input) as real),
                             LineKey(trade.timing, input.Profile()), TotalMonths(input))
    ensures var y, trades := x.(amount := Times(x.amount, input.OnCosts())), SchemeTradeSpreads(input, shock);
            && Spreads(input, shock) == ScaleAmounts(trades, input.OnCosts()) + SchemeCostSpreads(input)
            && Spreads(WithTrade(input, trade), shock)
               == ScaleAmounts(trades, input.OnCosts()) + [y] + SchemeCostSpreads(input)
  {
    TradesSnoc(input.trades, trade, Times(shock.build, Gia(input)), 1, BuildPeriod(input), input.Profile(), TotalMonths(input));
    TradeLeaves(input, shock, trade);
    ScaledSnoc(SchemeTradeSpreads(input, shock), x, input.OnCosts());
    hide TradeSpreads, SpreadFrom, SchemeCostSpreads, ScaleAmounts, TotalMonths, BuildPeriod, Timed, LineStart, LineMonths,
         LineKey, Relative, Times, Gia;
  }

  lemma ScaledSnoc(xs: seq<Spread>, x: Spread, c: real)
    ensures ScaleAmounts(xs + [x], c) == ScaleAmounts(xs, c) + [x.(amount := Times(x.amount, c))]
  {
    hide Times;
  }

  lemma AmountIs(rate: real, build: real, area: real, onCosts: real)
    ensures Times(Times(rate, Times(build, area)), onCosts) == rate * (build * area) * onCosts
  {
  }

  /** One more trade on a scheme of timed lines falls, with its on-costs, in its own months and nowhere else. */
  lemma TradeFalls(input: AppraisalInput, shock: Shock, trade: BuildTrade, line: Line)
    requires input.Valid() && !input.Phased() && SomeTiming(input)
    requires Says(trade.timing, line, BuildPeriod(input), input.Profile()) && TotalMonths(input) >= 1
    ensures WithTrade(input, trade).Valid()
    ensures LineFalls(ConstrSeries(input, shock), ConstrSeries(WithTrade(input, trade), shock),
                      TradeAmount(input, shock, trade.rate), line, 1, TotalMonths(input))
  {
    hide *;
    TimingStays(input, OtherCost(0.0, None), trade);
    TradeLeaves(input, shock, trade);
    SeriesIs(input, shock);
    SeriesIs(WithTrade(input, trade), shock);
    TradeAmountIs(input, shock, trade.rate);
    var x := SpreadFrom(Times(trade.rate, Times(shock.build, Gia(input))), Relative(1, LineStart(trade.timing)),
                        LineMonths(trade.timing, BuildPeriod(input) as real), LineKey(trade.timing, input.Profile()),
                        TotalMonths(input));
    var amount := TradeAmount(input, shock, trade.rate);
    TradeStands(input, shock, trade, x);
    var y := SpreadFrom(amount, Relative(1, LineStart(trade.timing)), LineMonths(trade.timing, BuildPeriod(input) as real),
                        LineKey(trade.timing, input.Profile()), TotalMonths(input));
    Reamounted(Times(trade.rate, Times(shock.build, Gia(input))), amount, Relative(1, LineStart(trade.timing)),
               LineMonths(trade.timing, BuildPeriod(input) as real), LineKey(trade.timing, input.Profile()),
               TotalMonths(input));
    Inserted(Zeros(TotalMonths(input) + 1), ScaleAmounts(SchemeTradeSpreads(input, shock), input.OnCosts()), y,
             SchemeCostSpreads(input));
    LineSpreadFalls(ConstrSeries(input, shock), amount, trade.timing, line, 1, BuildPeriod(input), input.Profile(),
                    TotalMonths(input));
  }

  lemma TradeAmountIs(input: AppraisalInput, shock: Shock, rate: real)
    requires input.Valid()
    ensures Times(Times(rate, Times(shock.build, Gia(input))), input.OnCosts()) == TradeAmount(input, shock, rate)
  {
    AmountIs(rate, shock.build, Gia(input), input.OnCosts());
    hide Times, Gia;
  }

  /** The window does not depend on the amount. */
  lemma Reamounted(a: real, b: real, from: real, months: real, key: SpendKey, total: nat)
    ensures SpreadFrom(a, from, months, key, total).(amount := b) == SpreadFrom(b, from, months, key, total)
    ensures SpreadFrom(a, from, months, key, total).amount == a
  {
    hide Weights;
  }


  lemma TimedExactly(input: AppraisalInput)
    ensures Timed(input) <==> SomeTiming(input)
  {
  }

  /** With no phases and no line timed, all of construction runs on one profile from month 1 to the end of the build. */
  lemma UntimedFalls(input: AppraisalInput, shock: Shock)
    requires input.Valid() && !input.Phased() && !SomeTiming(input)
    ensures Falls(Zeros(TotalMonths(input) + 1), ConstrSeries(input, shock),
                  Build(input, shock) + Fees(input, shock) + Contingency(input, shock) + OtherTotal(input, shock),
                  1, BuildPeriod(input), input.finance.spendProfile.GetOr(SCurve))
  {
    hide *;
    TimedExactly(input);
    SalesFollowBuild(input);
    Construction.FlatSeries(input, shock);
    TotalIs(input, shock);
    Fitting(ConstructionTotal(input, shock), Weights(BuildPeriod(input), input.Profile()), TotalMonths(input) + 1);
    ZerosLength(TotalMonths(input) + 1);
    SpreadFalls(Zeros(TotalMonths(input) + 1),
                Spread(ConstructionTotal(input, shock), 1, Weights(BuildPeriod(input), input.Profile())),
                BuildPeriod(input), input.Profile());
  }

  lemma Fitting(amount: real, w: seq<real>, size: nat)
    requires |w| < size
    ensures Spread(amount, 1, w).Fits(size)
  {
  }

  lemma ZerosLength(n: nat)
    ensures |Zeros(n)| == n && forall i :: 0 <= i < n ==> Zeros(n)[i] == 0.0
  {
  }

  lemma TotalIs(input: AppraisalInput, shock: Shock)
    requires input.Valid()
    ensures ConstructionTotal(input, shock)
         == Build(input, shock) + Fees(input, shock) + Contingency(input, shock) + OtherTotal(input, shock)
    ensures input.Profile() == input.finance.spendProfile.GetOr(SCurve)
  {
    hide Build, Fees, Contingency, OtherTotal;
  }

  // ---------------------------------------------------------------- a phase's lines

  function WithPhase(input: AppraisalInput, k: nat, p: Phase): AppraisalInput
    requires k < |input.phases|
  {
    input.(phases := input.phases[k := p])
  }

  /** Two phases that build and sell the same units over the same months. */
  predicate SamePlan(p: Phase, q: Phase) {
    && p.start == q.start && p.buildMonths == q.buildMonths && p.salesMonths == q.salesMonths
    && p.absorptionUnitsPerMonth == q.absorptionUnitsPerMonth && p.units == q.units
  }

  lemma {:induction false} PlansAgree(a: seq<Phase>, b: seq<Phase>)
    requires |a| == |b| && forall i :: 0 <= i < |a| ==> SamePlan(a[i], b[i])
    ensures Flatten(a) == Flatten(b) && LatestCompletion(a) == LatestCompletion(b) && LatestEnd(a) == LatestEnd(b)
  {
    hide PhaseStart, PhaseBuildMonths, PhaseShares;
    if |a| > 0 {
      PlansAgree(a[..|a| - 1], b[..|b| - 1]);
      assert SamePlan(a[|a| - 1], b[|b| - 1]);
      ShapesAgree(a[|a| - 1], b[|b| - 1]);
    }
  }

  lemma ShapesAgree(p: Phase, q: Phase)
    requires SamePlan(p, q)
    ensures PhaseStart(p) == PhaseStart(q) && PhaseBuildMonths(p) == PhaseBuildMonths(q) && PhaseShares(p) == PhaseShares(q)
  {
    hide Shares, SumOf;
  }

  lemma PlanStays(input: AppraisalInput, k: nat, q: Phase)
    requires input.Valid() && k < |input.phases| && SamePlan(input.phases[k], q)
    ensures var with := WithPhase(input, k, q);
            && with.Valid() && with.Phased() && with.Profile() == input.Profile() && with.OnCosts() == input.OnCosts()
            && BuildPeriod(with) == BuildPeriod(input) && TotalMonths(with) == TotalMonths(input)
            && AllUnits(with) == AllUnits(input) && with.trades == input.trades && with.otherCosts == input.otherCosts
  {
    hide Flatten, LatestCompletion, LatestEnd;
    PlansAgree(input.phases, input.phases[k := q]);
  }

  /** Changing one phase's lines changes how that phase is priced and nothing else. */
  lemma PhasePriced(input: AppraisalInput, shock: Shock, k: nat, q: Phase)
    requires input.Valid() && k < |input.phases| && SamePlan(input.phases[k], q)
    ensures Phases(WithPhase(input, k, q), shock) == Phases(input, shock)[k := CalcPhase(input, shock, q)]
    ensures HeldSpreads(WithPhase(input, k, q), shock) == HeldSpreads(input, shock)
    ensures SchemeCostSpreads(WithPhase(input, k, q)) == SchemeCostSpreads(input)
  {
    PlanStays(input, k, q);
    SchemeCostsAre(input);
    SchemeCostsAre(WithPhase(input, k, q));
    PhasesChange(input, shock, k, q);
    HeldStays(input, shock, k, q);
    hide *;
  }

  lemma PhasesChange(input: AppraisalInput, shock: Shock, k: nat, q: Phase)
    requires k < |input.phases|
    ensures Phases(WithPhase(input, k, q), shock) == Phases(input, shock)[k := CalcPhase(input, shock, q)]
  {
    hide SumOf, Times, Percent, Div, PhaseStart, PhaseBuildMonths, PhaseShares;
    forall p ensures CalcPhase(WithPhase(input, k, q), shock, p) == CalcPhase(input, shock, p) {}
    hide CalcPhase;
  }

  lemma HeldStays(input: AppraisalInput, shock: Shock, k: nat, q: Phase)
    requires input.Valid() && k < |input.phases| && SamePlan(input.phases[k], q)
    ensures HeldSpreads(WithPhase(input, k, q), shock) == HeldSpreads(input, shock)
  {
    var with := WithPhase(input, k, q);
    PlanStays(input, k, q);
    UnphasedStays(input, shock, k, q);
    hide UnphasedGia, Times, Weights, BuildPeriod, SumOf;
  }

  lemma AreaStays(input: AppraisalInput, k: nat, q: Phase)
    requires input.Valid() && k < |input.phases| && SamePlan(input.phases[k], q)
    ensures WithPhase(input, k, q).Valid() && Gia(WithPhase(input, k, q)) == Gia(input)
  {
    PlanStays(input, k, q);
    hide AllUnits, SumOf, Div, Valuation.Capitalise, SamePlan;
  }

  lemma UnphasedStays(input: AppraisalInput, shock: Shock, k: nat, q: Phase)
    requires input.Valid() && k < |input.phases| && SamePlan(input.phases[k], q)
    ensures WithPhase(input, k, q).Valid() && UnphasedGia(WithPhase(input, k, q), shock) == UnphasedGia(input, shock)
  {
    var ps, qs := Phases(input, shock), Phases(WithPhase(input, k, q), shock);
    AreaStays(input, k, q);
    PhasesChange(input, shock, k, q);
    SameGia(input, shock, k, q);
    forall i | 0 <= i < |ps| ensures GiaOf(qs[i]) == GiaOf(ps[i]) { }
    SumOfSame(GiaOf, qs, GiaOf, ps);
    hide Phases, Gia, CalcPhase, SumOf, SamePlan, WithPhase;
  }

  lemma SameGia(input: AppraisalInput, shock: Shock, k: nat, q: Phase)
    requires k < |input.phases| && SamePlan(input.phases[k], q)
    ensures GiaOf(CalcPhase(input, shock, q)) == GiaOf(Phases(input, shock)[k])
  {
    hide SumOf, Times, Percent, Div, PhaseStart, PhaseBuildMonths, PhaseShares;
  }

  lemma {:induction false} AllPhaseSpreadsConcat(a: seq<PhaseCalc>, b: seq<PhaseCalc>, shock: Shock, key: SpendKey, total: nat)
    ensures AllPhaseSpreads(a + b, shock, key, total)
         == AllPhaseSpreads(a, shock, key, total) + AllPhaseSpreads(b, shock, key, total)
  {
    hide PhaseSpreads;
    if |b| == 0 {
      assert a + b == a;
    } else {
      var init := b[..|b| - 1];
      AllPhaseSpreadsConcat(a, init, shock, key, total);
      assert (a + b)[..|a + b| - 1] == a + init;
    }
  }

  lemma OnePhaseSpreads(pc: PhaseCalc, shock: Shock, key: SpendKey, total: nat)
    ensures AllPhaseSpreads([pc], shock, key, total) == PhaseSpreads(pc, shock, key, total)
  {
    hide PhaseSpreads;
    assert [pc][..0] == [];
    assert AllPhaseSpreads([], shock, key, total) == [];
  }

  lemma PhaseStands(ps: seq<PhaseCalc>, k: nat, shock: Shock, key: SpendKey, total: nat)
    requires k < |ps|
    ensures AllPhaseSpreads(ps, shock, key, total)
         == AllPhaseSpreads(ps[..k], shock, key, total) + PhaseSpreads(ps[k], shock, key, total)
            + AllPhaseSpreads(ps[k + 1..], shock, key, total)
  {
    hide AllPhaseSpreads, PhaseSpreads;
    OnePhaseSpreads(ps[k], shock, key, total);
    AllPhaseSpreadsConcat(ps[..k], [ps[k]], shock, key, total);
    AllPhaseSpreadsConcat(ps[..k] + [ps[k]], ps[k + 1..], shock, key, total);
    assert ps[..k] + [ps[k]] + ps[k + 1..] == ps;
  }


  /** The spreads on either side of phase `k`'s own. */
  function BeforePhase(input: AppraisalInput, shock: Shock, k: nat): seq<Spread>
    requires input.Valid() && k < |input.phases|
  {
    AllPhaseSpreads(Phases(input, shock)[..k], shock, input.Profile(), TotalMonths(input))
  }

  function AfterPhase(input: AppraisalInput, shock: Shock, k: nat): seq<Spread>
    requires input.Valid() && k < |input.phases|
  {
    AllPhaseSpreads(Phases(input, shock)[k + 1..], shock, input.Profile(), TotalMonths(input))
    + HeldSpreads(input, shock) + SchemeCostSpreads(input)
  }

  lemma AroundPhase(input: AppraisalInput, shock: Shock, k: nat, q: Phase)
    requires input.Valid() && k < |input.phases| && SamePlan(input.phases[k], q)
    ensures WithPhase(input, k, q).Valid()
    ensures Spreads(WithPhase(input, k, q), shock)
         == BeforePhase(input, shock, k)
            + PhaseSpreads(CalcPhase(input, shock, q), shock, input.Profile(), TotalMonths(input))
            + AfterPhase(input, shock, k)
  {
    var with := WithPhase(input, k, q);
    var ps, pc, key, total := Phases(input, shock), CalcPhase(input, shock, q), input.Profile(), TotalMonths(input);
    hide *;
    PlanStays(input, k, q);
    PhasePriced(input, shock, k, q);
    SpreadsAre(with, shock);
    PhaseStands(ps[k := pc], k, shock, key, total);
    assert ps[k := pc][..k] == ps[..k] && ps[k := pc][k + 1..] == ps[k + 1..];
    AroundIs(input, shock, k);
    Regrouped(BeforePhase(input, shock, k), PhaseSpreads(pc, shock, key, total),
              AllPhaseSpreads(ps[k + 1..], shock, key, total), HeldSpreads(input, shock), SchemeCostSpreads(input));
  }

  lemma AroundIs(input: AppraisalInput, shock: Shock, k: nat)
    requires input.Valid() && k < |input.phases|
    ensures BeforePhase(input, shock, k) == AllPhaseSpreads(Phases(input, shock)[..k], shock, input.Profile(), TotalMonths(input))
    ensures AfterPhase(input, shock, k)
         == AllPhaseSpreads(Phases(input, shock)[k + 1..], shock, input.Profile(), TotalMonths(input))
            + HeldSpreads(input, shock) + SchemeCostSpreads(input)
  {
    hide AllPhaseSpreads, Phases, HeldSpreads, SchemeCostSpreads, TotalMonths;
  }

  lemma Regrouped(a: seq<Spread>, b: seq<Spread>, c: seq<Spread>, d: seq<Spread>, e: seq<Spread>)
    ensures a + b + c + d + e == a + b + (c + d + e)
  {
  }

  lemma SamePhase(input: AppraisalInput, k: nat)
    requires k < |input.phases|
    ensures SamePlan(input.phases[k], input.phases[k]) && WithPhase(input, k, input.phases[k]) == input
  {
    assert input.phases[k := input.phases[k]] == input.phases;
  }

  /** One more spread among a phase's is one more spread on the programme. */
  lemma PhaseGains(input: AppraisalInput, shock: Shock, k: nat, q: Phase, r: Phase, pre: seq<Spread>, x: Spread,
                   post: seq<Spread>)
    requires input.Valid() && k < |input.phases| && SamePlan(input.phases[k], q) && SamePlan(input.phases[k], r)
    requires PhaseSpreads(CalcPhase(input, shock, q), shock, input.Profile(), TotalMonths(input)) == pre + post
    requires PhaseSpreads(CalcPhase(input, shock, r), shock, input.Profile(), TotalMonths(input)) == pre + [x] + post
    ensures WithPhase(input, k, q).Valid() && WithPhase(input, k, r).Valid()
    ensures ConstrSeries(WithPhase(input, k, r), shock) == AddSpread(ConstrSeries(WithPhase(input, k, q), shock), x)
  {
    hide *;
    PlanStays(input, k, q);
    PlanStays(input, k, r);
    AroundPhase(input, shock, k, q);
    AroundPhase(input, shock, k, r);
    SeriesIs(WithPhase(input, k, q), shock);
    SeriesIs(WithPhase(input, k, r), shock);
    var a, b := BeforePhase(input, shock, k), AfterPhase(input, shock, k);
    assert a + (pre + post) + b == (a + pre) + (post + b);
    assert a + (pre + [x] + post) + b == (a + pre) + [x] + (post + b);
    Inserted(Zeros(TotalMonths(input) + 1), a + pre, x, post + b);
  }

  /** One more cost of a phase falls in its own months, counted from the phase's first on site, and nowhere else. */
  lemma PhaseCostFalls(input: AppraisalInput, shock: Shock, k: nat, cost: OtherCost, line: Line)
    requires input.Valid() && k < |input.phases| && TotalMonths(input) >= 1
    requires Says(cost.timing, line, PhaseBuildMonths(input.phases[k]), input.Profile())
    ensures var with := WithPhase(input, k, input.phases[k].(otherCosts := input.phases[k].otherCosts + [cost]));
            && with.Valid()
            && LineFalls(ConstrSeries(input, shock), ConstrSeries(with, shock), cost.amount, line,
                         PhaseStart(input.phases[k]), TotalMonths(input))
  {
    var p := input.phases[k];
    var q, key, total := p.(otherCosts := p.otherCosts + [cost]), input.Profile(), TotalMonths(input);
    assert SamePlan(p, q);
    hide *;
    SamePhase(input, k);
    var x := SpreadFrom(cost.amount, Relative(PhaseStart(p), LineStart(cost.timing)),
                        LineMonths(cost.timing, PhaseBuildMonths(p) as real), LineKey(cost.timing, key), total);
    PhaseCostStands(input, shock, p, cost, x);
    Joined(PhaseSpreads(CalcPhase(input, shock, p), shock, key, total), x);
    PhaseGains(input, shock, k, p, q, PhaseSpreads(CalcPhase(input, shock, p), shock, key, total), x, []);
    LineSpreadFalls(ConstrSeries(input, shock), cost.amount, cost.timing, line, PhaseStart(p), PhaseBuildMonths(p), key, total);
  }

  lemma Joined(a: seq<Spread>, x: Spread)
    ensures a + [] == a && a + [x] + [] == a + [x]
  {
  }

  lemma PhaseCostStands(input: AppraisalInput, shock: Shock, p: Phase, cost: OtherCost, x: Spread)
    requires x == SpreadFrom(cost.amount, Relative(PhaseStart(p), LineStart(cost.timing)),
                             LineMonths(cost.timing, PhaseBuildMonths(p) as real), LineKey(cost.timing, input.Profile()),
                             TotalMonths(input))
    ensures PhaseSpreads(CalcPhase(input, shock, p.(otherCosts := p.otherCosts + [cost])), shock, input.Profile(),
                         TotalMonths(input))
         == PhaseSpreads(CalcPhase(input, shock, p), shock, input.Profile(), TotalMonths(input)) + [x]
  {
    CostsSnoc(p.otherCosts, cost, PhaseStart(p), PhaseBuildMonths(p), input.Profile(), TotalMonths(input));
    var pc, qc := CalcPhase(input, shock, p), CalcPhase(input, shock, p.(otherCosts := p.otherCosts + [cost]));
    SameBuild(pc, qc, shock, input.Profile(), TotalMonths(input));
    hide SumOf, Times, Percent, Div, PhaseStart, PhaseBuildMonths, PhaseShares, CostSpreads, TradeSpreads, SpreadFrom,
         TotalMonths, Weights, Relative, LineStart, LineMonths, LineKey, AnyTradeTimed;
  }

  lemma SameBuild(a: PhaseCalc, b: PhaseCalc, shock: Shock, key: SpendKey, total: nat)
    requires b == a.(otherCosts := b.otherCosts, otherTotal := b.otherTotal)
    ensures PhaseBuildSpreads(a, shock, key, total) == PhaseBuildSpreads(b, shock, key, total)
  {
    hide TradeSpreads, Times, Weights, AnyTradeTimed;
  }

  function AreaSum(units: seq<AppraisalUnit>): real { SumOf((u: AppraisalUnit) => u.count * u.area, units) }

  lemma AreaSumIs(units: seq<AppraisalUnit>)
    ensures AreaSum(units) == SumOf(UnitArea, units)
  {
    SumOfSame(UnitArea, units, (u: AppraisalUnit) => u.count * u.area, units);
    hide SumOf;
  }

  /** A phase trade's amount carries the build multiplier, the phase's gross area and the phase's own on-costs. */
  function PhaseTradeAmount(input: AppraisalInput, shock: Shock, p: Phase, rate: real): real {
    rate * (shock.build * Gross(input, AreaSum(p.units)))
    * (1.0 + (p.profFeePct.GetOr(input.profFeePct) + p.contingencyPct.GetOr(input.contingencyPct)) / 100.0)
  }

  lemma PhaseFactorIs(input: AppraisalInput, shock: Shock, p: Phase, rate: real)
    ensures Times(rate, PhaseFactor(CalcPhase(input, shock, p), shock)) == PhaseTradeAmount(input, shock, p, rate)
  {
    AreaSumIs(p.units);
    hide SumOf, Div, PhaseStart, PhaseBuildMonths, PhaseShares, Percent, Gross;
    var a := PhaseGia(input, p);
    var c := 1.0 + (p.profFeePct.GetOr(input.profFeePct) + p.contingencyPct.GetOr(input.contingencyPct)) / 100.0;
    assert PhaseFactor(CalcPhase(input, shock, p), shock) == Times(Times(shock.build, a), c);
    ThreeFactors(rate, shock.build, a, c);
    hide Times;
  }

  lemma ThreeFactors(rate: real, build: real, area: real, c: real)
    ensures Times(rate, Times(Times(build, area), c)) == rate * (build * area) * c
  {
  }

  /** One more trade of a phase with timed trades of its own falls, with the phase's on-costs, in its own months. */
  lemma PhaseTradeFalls(input: AppraisalInput, shock: Shock, k: nat, trade: BuildTrade, line: Line)
    requires input.Valid() && k < |input.phases| && TotalMonths(input) >= 1
    requires exists i :: 0 <= i < |input.phases[k].trades| && input.phases[k].trades[i].timing.Some?
    requires Says(trade.timing, line, PhaseBuildMonths(input.phases[k]), input.Profile())
    ensures var p := input.phases[k];
            var with := WithPhase(input, k, p.(trades := p.trades + [trade]));
            && with.Valid()
            && LineFalls(ConstrSeries(input, shock), ConstrSeries(with, shock),
                         PhaseTradeAmount(input, shock, p, trade.rate), line, PhaseStart(p), TotalMonths(input))
  {
    var p := input.phases[k];
    var q, key, total := p.(trades := p.trades + [trade]), input.Profile(), TotalMonths(input);
    assert SamePlan(p, q);
    assert AnyTradeTimed(p.trades);
    hide *;
    SamePhase(input, k);
    PhaseFactorIs(input, shock, p, trade.rate);
    var pc, amount := CalcPhase(input, shock, p), PhaseTradeAmount(input, shock, p, trade.rate);
    var x := SpreadFrom(amount, Relative(PhaseStart(p), LineStart(trade.timing)),
                        LineMonths(trade.timing, PhaseBuildMonths(p) as real), LineKey(trade.timing, key), total);
    PhaseTradeStands(input, shock, p, trade, x);
    PhaseGains(input, shock, k, p, q,
               TradeSpreads(p.trades, PhaseFactor(pc, shock), PhaseStart(p), PhaseBuildMonths(p), key, total), x,
               CostSpreads(p.otherCosts, PhaseStart(p), PhaseBuildMonths(p), key, total));
    LineSpreadFalls(ConstrSeries(input, shock), amount, trade.timing, line, PhaseStart(p), PhaseBuildMonths(p), key, total);
  }

  lemma PhaseTradeStands(input: AppraisalInput, shock: Shock, p: Phase, trade: BuildTrade, x: Spread)
    requires AnyTradeTimed(p.trades)
    requires x == SpreadFrom(Times(trade.rate, PhaseFactor(CalcPhase(input, shock, p), shock)),
                             Relative(PhaseStart(p), LineStart(trade.timing)),
                             LineMonths(trade.timing, PhaseBuildMonths(p) as real), LineKey(trade.timing, input.Profile()),
                             TotalMonths(input))
    ensures var key, total := input.Profile(), TotalMonths(input);
            var trades := TradeSpreads(p.trades, PhaseFactor(CalcPhase(input, shock, p), shock), PhaseStart(p),
                                       PhaseBuildMonths(p), key, total);
            var costs := CostSpreads(p.otherCosts, PhaseStart(p), PhaseBuildMonths(p), key, total);
            && PhaseSpreads(CalcPhase(input, shock, p), shock, key, total) == trades + costs
            && PhaseSpreads(CalcPhase(input, shock, p.(trades := p.trades + [trade])), shock, key, total)
               == trades + [x] + costs
  {
    var q := p.(trades := p.trades + [trade]);
    StillTimed(p.trades, trade);
    TradesSnoc(p.trades, trade, PhaseFactor(CalcPhase(input, shock, p), shock), PhaseStart(p), PhaseBuildMonths(p),
               input.Profile(), TotalMonths(input));
    hide SumOf, Times, Percent, Div, PhaseStart, PhaseBuildMonths, PhaseShares, CostSpreads, TradeSpreads, SpreadFrom,
         TotalMonths, Weights, Relative, LineStart, LineMonths, LineKey, AnyTradeTimed;
    assert PhaseFactor(CalcPhase(input, shock, q), shock) == PhaseFactor(CalcPhase(input, shock, p), shock);
    assert CalcPhase(input, shock, p).trades == p.trades && CalcPhase(input, shock, q).trades == p.trades + [trade];
  }

  lemma StillTimed(trades: seq<BuildTrade>, trade: BuildTrade)
    requires AnyTradeTimed(trades)
    ensures AnyTradeTimed(trades + [trade]) && |trades| > 0
  {
    var i :| 0 <= i < |trades| && trades[i].timing.Some?;
    assert (trades + [trade])[i] == trades[i];
  }


  function RateSum(trades: seq<BuildTrade>): real { SumOf((t: BuildTrade) => t.rate, trades) }

  lemma RateSumIs(trades: seq<BuildTrade>)
    ensures RateSum(trades) == SumOf(Rate, trades)
  {
    SumOfSame(Rate, trades, (t: BuildTrade) => t.rate, trades);
    hide SumOf;
  }

  /** What a phase's own build comes to: its own trades', or the scheme's when it has none, with its on-costs. */
  function PhaseBuildAmount(input: AppraisalInput, shock: Shock, p: Phase): real {
    PhaseTradeAmount(input, shock, p, RateSum(if |p.trades| > 0 then p.trades else input.trades))
  }

  lemma PhaseCostIs(input: AppraisalInput, shock: Shock, p: Phase)
    ensures CalcPhase(input, shock, p).Cost() == PhaseBuildAmount(input, shock, p)
  {
    RateSumIs(PhaseTrades(input, p));
    AreaSumIs(p.units);
    var r, a := SumOf(Rate, PhaseTrades(input, p)), PhaseGia(input, p);
    var f, c := p.profFeePct.GetOr(input.profFeePct), p.contingencyPct.GetOr(input.contingencyPct);
    hide SumOf, Div, PhaseStart, PhaseBuildMonths, PhaseShares, Gross;
    WithOnCosts(Times(Times(r, shock.build), a), f, c);
    Reordered(r, shock.build, a, 1.0 + (f + c) / 100.0);
    hide Times, Percent;
  }

  lemma WithOnCosts(x: real, f: real, c: real)
    ensures x + Percent(x, f) + Percent(x, c) == Times(x, 1.0 + (f + c) / 100.0)
  {
  }

  lemma Reordered(r: real, build: real, a: real, c: real)
    ensures Times(Times(Times(r, build), a), c) == r * (build * a) * c
  {
  }

  /** The phase stripped of its build: one trade of its own, at nothing. */
  function Unbuilt(p: Phase): Phase { p.(trades := [BuildTrade(0.0, None)]) }

  lemma NothingAdded(s: seq<real>, x: Spread)
    requires x.amount == 0.0
    ensures AddSpread(s, x) == s
  {
    forall w: real ensures Times(0.0, w) == 0.0 {}
    hide Times;
  }

  lemma UnbuiltCost(input: AppraisalInput, shock: Shock, p: Phase)
    ensures CalcPhase(input, shock, Unbuilt(p)).Cost() == 0.0 && !AnyTradeTimed(Unbuilt(p).trades)
  {
    SumOfOne(Rate, BuildTrade(0.0, None));
    NilTimes(shock.build);
    NilTimes(PhaseGia(input, p));
    hide SumOf, Times, Gross, PhaseStart, PhaseBuildMonths, PhaseShares;
    NilPercent(p.profFeePct.GetOr(input.profFeePct));
    NilPercent(p.contingencyPct.GetOr(input.contingencyPct));
    hide Percent;
  }

  lemma NilPercent(pct: real)
    ensures Percent(0.0, pct) == 0.0
  {
  }

  lemma PhaseRunsOnce(input: AppraisalInput, shock: Shock, p: Phase)
    requires !AnyTradeTimed(PhaseTrades(input, p))
    ensures PhaseSpreads(CalcPhase(input, shock, p), shock, input.Profile(), TotalMonths(input))
         == [Spread(CalcPhase(input, shock, p).Cost(), PhaseStart(p), Weights(PhaseBuildMonths(p), input.Profile()))]
            + CostSpreads(p.otherCosts, PhaseStart(p), PhaseBuildMonths(p), input.Profile(), TotalMonths(input))
  {
    hide SumOf, Times, Percent, Gross, PhaseStart, PhaseBuildMonths, PhaseShares, CostSpreads, TotalMonths, Weights,
         AnyTradeTimed;
  }

  /** A phase none of whose trades is timed runs its whole build on the scheme's profile over its own months. */
  lemma PhaseBuildFalls(input: AppraisalInput, shock: Shock, k: nat)
    requires input.Valid() && k < |input.phases|
    requires var p := input.phases[k];
             forall t :: t in (if |p.trades| > 0 then p.trades else input.trades) ==> t.timing.None?
    ensures var p, without := input.phases[k], WithPhase(input, k, Unbuilt(input.phases[k]));
            && without.Valid()
            && Falls(ConstrSeries(without, shock), ConstrSeries(input, shock), PhaseBuildAmount(input, shock, p),
                     PhaseStart(p), PhaseBuildMonths(p), input.finance.spendProfile.GetOr(SCurve))
  {
    var p, q := input.phases[k], Unbuilt(input.phases[k]);
    assert SamePlan(p, q) && !AnyTradeTimed(PhaseTrades(input, p)) && PhaseTrades(input, q) == q.trades
        && q.otherCosts == p.otherCosts;
    assert input.Profile() == input.finance.spendProfile.GetOr(SCurve);
    ShapesAgree(p, q);
    hide *;
    SamePhase(input, k);
    PhaseCostIs(input, shock, p);
    UnbuiltCost(input, shock, p);
    PhaseRunsOnce(input, shock, p);
    PhaseRunsOnce(input, shock, q);
    var w := Weights(PhaseBuildMonths(p), input.Profile());
    var costs := CostSpreads(p.otherCosts, PhaseStart(p), PhaseBuildMonths(p), input.Profile(), TotalMonths(input));
    var x := Spread(PhaseBuildAmount(input, shock, p), PhaseStart(p), w);
    BuildReplaced(input, shock, k, q, x, costs);
    PhaseFitsIn(input, shock, k, x.amount, w);
    SpreadFalls(ConstrSeries(WithPhase(input, k, q), shock), x, PhaseBuildMonths(p), input.Profile());
  }

  /** Between two pricings of a phase that differ in one spread, and one of them lays nothing. */
  lemma BuildReplaced(input: AppraisalInput, shock: Shock, k: nat, q: Phase, x: Spread, costs: seq<Spread>)
    requires input.Valid() && k < |input.phases| && SamePlan(input.phases[k], q)
    requires PhaseSpreads(CalcPhase(input, shock, input.phases[k]), shock, input.Profile(), TotalMonths(input))
          == [x] + costs
    requires PhaseSpreads(CalcPhase(input, shock, q), shock, input.Profile(), TotalMonths(input))
          == [x.(amount := 0.0)] + costs
    ensures WithPhase(input, k, q).Valid()
    ensures ConstrSeries(input, shock) == AddSpread(ConstrSeries(WithPhase(input, k, q), shock), x)
  {
    hide *;
    SamePhase(input, k);
    PlanStays(input, k, q);
    AroundPhase(input, shock, k, input.phases[k]);
    AroundPhase(input, shock, k, q);
    SeriesIs(input, shock);
    SeriesIs(WithPhase(input, k, q), shock);
    var a, b, zeros := BeforePhase(input, shock, k), AfterPhase(input, shock, k), Zeros(TotalMonths(input) + 1);
    assert a + ([x] + costs) + b == a + [x] + (costs + b);
    assert a + ([x.(amount := 0.0)] + costs) + b == a + [x.(amount := 0.0)] + (costs + b);
    Inserted(zeros, a, x, costs + b);
    Inserted(zeros, a, x.(amount := 0.0), costs + b);
    NothingAdded(ApplyAll(zeros, a + (costs + b)), x.(amount := 0.0));
  }

  lemma PhaseFitsIn(input: AppraisalInput, shock: Shock, k: nat, amount: real, w: seq<real>)
    requires k < |input.phases| && |w| == PhaseBuildMonths(input.phases[k])
    ensures Spread(amount, PhaseStart(input.phases[k]), w).Fits(TotalMonths(input) + 1)
  {
    Construction.PhaseWindow(input, shock, k);
    hide CalcPhase, PhaseStart, PhaseBuildMonths, PhaseShares, TotalMonths;
  }

  // ---------------------------------------------------------------- the let space of a phased scheme

  lemma WithoutIncome(input: AppraisalInput, shock: Shock)
    requires input.Valid() && input.Phased()
    ensures var without := input.(income := None);
            && without.Valid() && without.Phased() && TotalMonths(without) == TotalMonths(input)
            && BuildPeriod(without) == BuildPeriod(input) && without.Profile() == input.Profile()
            && Phases(without, shock) == Phases(input, shock) && SchemeCostSpreads(without) == SchemeCostSpreads(input)
            && IncomeArea(without) == 0.0
  {
    hide SumOf, Times, Percent, Div, PhaseStart, PhaseBuildMonths, PhaseShares, CostSpreads, LatestEnd, LatestCompletion;
    forall p ensures CalcPhase(input.(income := None), shock, p) == CalcPhase(input, shock, p) {}
    hide CalcPhase;
  }


  /** What the let space costs to build, at the scheme's rates and on-costs. */
  function HeldAmount(input: AppraisalInput, shock: Shock, area: real): real {
    RateSum(input.trades) * (shock.build * area)
    * (1.0 + (input.profFeePct + input.contingencyPct) / 100.0)
  }

  lemma HeldAmountIs(input: AppraisalInput, shock: Shock)
    requires input.Valid()
    ensures Times(UnphasedBuild(input, shock), input.OnCosts()) == HeldAmount(input, shock, UnphasedGia(input, shock))
  {
    UnphasedBuildIs(input, shock);
    HeldAmountUnfolds(input, shock, UnphasedGia(input, shock));
    hide *;
  }

  lemma HeldAmountUnfolds(input: AppraisalInput, shock: Shock, area: real)
    ensures HeldAmount(input, shock, area) == Times(Times(Times(SumOf(Rate, input.trades), shock.build), area), input.OnCosts())
  {
    RateSumIs(input.trades);
    hide RateSum, SumOf, Times;
    Reordered(RateSum(input.trades), shock.build, area, input.OnCosts());
  }

  lemma UnphasedBuildIs(input: AppraisalInput, shock: Shock)
    requires input.Valid()
    ensures UnphasedBuild(input, shock) == Times(Times(SumOf(Rate, input.trades), shock.build), UnphasedGia(input, shock))
  {
    hide Times, SumOf, UnphasedGia;
  }

  lemma HeldSpreadsAre(input: AppraisalInput, shock: Shock)
    requires input.Valid()
    ensures HeldSpreads(input, shock) ==
      if UnphasedGia(input, shock) > 0.0001 then
        [Spread(HeldAmount(input, shock, UnphasedGia(input, shock)), 1, Weights(BuildPeriod(input), input.Profile()))]
      else []
  {
    HeldAmountIs(input, shock);
    hide UnphasedGia, UnphasedBuild, HeldAmount, Weights, BuildPeriod, Times;
  }

  lemma NoIncomeNoHeld(input: AppraisalInput, shock: Shock)
    requires input.Valid() && input.Phased()
    ensures input.(income := None).Valid() && HeldSpreads(input.(income := None), shock) == []
  {
    var without := input.(income := None);
    WithoutIncome(input, shock);
    Conservation.HeldAreaIsUnphased(without, shock);
    HeldSpreadsAre(without, shock);
    GrossOfNil(without);
    hide HeldSpreads, UnphasedGia, IncomeArea, Gross, BuildPeriod, Weights, HeldAmount, TotalMonths, Phases;
  }

  lemma GrossOfNil(input: AppraisalInput)
    ensures Gross(input, 0.0) == 0.0
  {
    if Efficiency(input) > 0.0 { DivUnique(0.0, Efficiency(input), 0.0); }
    hide Div;
  }

  lemma WithHeld(input: AppraisalInput, shock: Shock)
    requires input.Valid() && input.Phased()
    ensures var without := input.(income := None);
            && without.Valid()
            && ConstrSeries(input, shock)
               == (if HeldSpreads(input, shock) == [] then ConstrSeries(without, shock)
                   else ApplyAll(Zeros(TotalMonths(input) + 1),
                     AllPhaseSpreads(Phases(input, shock), shock, input.Profile(), TotalMonths(input))
                     + HeldSpreads(input, shock) + SchemeCostSpreads(input)))
            && ConstrSeries(without, shock)
               == ApplyAll(Zeros(TotalMonths(input) + 1),
                    AllPhaseSpreads(Phases(input, shock), shock, input.Profile(), TotalMonths(input))
                    + SchemeCostSpreads(input))
  {
    hide *;
    WithoutIncome(input, shock);
    NoIncomeNoHeld(input, shock);
    var without := input.(income := None);
    SeriesIs(input, shock);
    SeriesIs(without, shock);
    SpreadsAre(input, shock);
    SpreadsAre(without, shock);
    var a := AllPhaseSpreads(Phases(input, shock), shock, input.Profile(), TotalMonths(input));
    assert a + [] == a;
  }

  /** Let space in a phased scheme runs its build over the whole build period, when it is more than a sliver. */
  lemma HeldFalls(input: AppraisalInput, shock: Shock)
    requires input.Valid() && input.Phased()
    ensures var area, without := Gross(input, IncomeArea(input)), input.(income := None);
            && without.Valid()
            && (area > 0.0001 ==>
                 Falls(ConstrSeries(without, shock), ConstrSeries(input, shock), HeldAmount(input, shock, area), 1,
                       BuildPeriod(input), input.finance.spendProfile.GetOr(SCurve)))
            && (area <= 0.0001 ==> ConstrSeries(without, shock) == ConstrSeries(input, shock))
  {
    hide *;
    WithHeld(input, shock);
    Conservation.HeldAreaIsUnphased(input, shock);
    HeldSpreadsAre(input, shock);
    SalesFollowBuild(input);
    TotalIs(input, shock);
    var area, key := Gross(input, IncomeArea(input)), input.Profile();
    if area > 0.0001 {
      var w := Weights(BuildPeriod(input), key);
      var x := Spread(HeldAmount(input, shock, area), 1, w);
      var a := AllPhaseSpreads(Phases(input, shock), shock, key, TotalMonths(input));
      Inserted(Zeros(TotalMonths(input) + 1), a, x, SchemeCostSpreads(input));
      Fitting(x.amount, w, TotalMonths(input) + 1);
      ZerosLength(TotalMonths(input) + 1);
      SpreadFalls(ConstrSeries(input.(income := None), shock), x, BuildPeriod(input), key);
    }
  }


  // ---------------------------------------------------------------- receipts

  /** `after` holds `amount` more than `before`, all in `n` months from `first`, as the units sell. */
  ghost predicate Arrives(before: seq<real>, after: seq<real>, amount: real, first: nat, units: real,
                          perMonth: Option<real>, n: nat)
  {
    && |after| == |before| && 1 <= first && 1 <= n && first + n <= |before|
    && (forall m :: 0 <= m < |before| && !(first <= m < first + n) ==> after[m] == before[m])
    && (forall k :: 0 <= k <= n ==> ArrivedBy(before, after, amount, first, units, perMonth, n, k))
  }

  /** After `k` months of the window, what the units sold by then bring in. */
  ghost predicate ArrivedBy(before: seq<real>, after: seq<real>, amount: real, first: nat, units: real,
                            perMonth: Option<real>, n: nat, k: nat)
    requires |after| == |before| && k <= n && 0 < n && first + n <= |before|
  {
    Sum(after[..first + k]) == Sum(before[..first + k]) + Times(amount, SoldBy(units, perMonth, n, k))
  }

  lemma SpreadArrives(s: seq<real>, x: Spread, units: real, perMonth: Option<real>, fallback: real, cap: nat)
    requires x.weights == Shares(units, perMonth, fallback, cap) && x.Fits(|s|)
    ensures Arrives(s, AddSpread(s, x), x.amount, x.start, units, perMonth, |x.weights|)
  {
    hide Times, Shares, SoldBy, AddSpread, Months;
    SpreadRuns(s, x, 0);
    forall k | 0 <= k <= |x.weights|
      ensures ArrivedBy(s, AddSpread(s, x), x.amount, x.start, units, perMonth, |x.weights|, k)
    {
      SpreadRuns(s, x, k);
      SharesRun(units, perMonth, fallback, cap, k);
    }
  }

  function CountSum(units: seq<AppraisalUnit>): real { SumOf((u: AppraisalUnit) => u.count, units) }

  lemma CountSumIs(units: seq<AppraisalUnit>)
    ensures CountSum(units) == SumOf(UnitCount, units)
  {
    SumOfSame(UnitCount, units, (u: AppraisalUnit) => u.count, units);
    hide SumOf;
  }

  lemma ReceiptsAre(input: AppraisalInput, shock: Shock)
    requires input.Valid()
    ensures RevSeries(input, shock) == ApplyAll(Zeros(TotalMonths(input) + 1), Receipts(input, shock))
    ensures input.Phased() ==>
      Receipts(input, shock) == PhaseReceipts(input, Phases(input, shock)) + HeldReceipts(input, shock)
    ensures !input.Phased() ==>
      Receipts(input, shock) == [Spread(Gdv(input, shock) - SaleCosts(input, shock), BuildPeriod(input) + 1,
        Shares(SumOf(UnitCount, input.units), input.finance.absorptionUnitsPerMonth, input.finance.salesMonths, 8))]
    ensures !input.Phased() ==>
      TotalMonths(input) == BuildPeriod(input)
        + |Shares(SumOf(UnitCount, input.units), input.finance.absorptionUnitsPerMonth, input.finance.salesMonths, 8)|
  {
    hide ApplyAll, PhaseReceipts, HeldReceipts, Gdv, SaleCosts, BuildPeriod, Shares, SumOf, Phases;
  }

  /** With no phases, everything net of disposal arrives in the months after the build, as the scheme's units sell. */
  lemma SalesArrive(input: AppraisalInput, shock: Shock)
    requires input.Valid() && !input.Phased()
    ensures Arrives(Zeros(TotalMonths(input) + 1), RevSeries(input, shock), Gdv(input, shock) - SaleCosts(input, shock),
                    BuildPeriod(input) + 1, CountSum(input.units), input.finance.absorptionUnitsPerMonth,
                    TotalMonths(input) - BuildPeriod(input))
  {
    hide *;
    ReceiptsAre(input, shock);
    CountSumIs(input.units);
    SalesFollowBuild(input);
    var shares := Shares(SumOf(UnitCount, input.units), input.finance.absorptionUnitsPerMonth, input.finance.salesMonths, 8);
    var x := Spread(Gdv(input, shock) - SaleCosts(input, shock), BuildPeriod(input) + 1, shares);
    FittingFrom(x, TotalMonths(input) + 1);
    ZerosLength(TotalMonths(input) + 1);
    Construction.SingleSpread(Zeros(TotalMonths(input) + 1), x);
    SpreadArrives(Zeros(TotalMonths(input) + 1), x, SumOf(UnitCount, input.units), input.finance.absorptionUnitsPerMonth,
                  input.finance.salesMonths, 8);
  }

  lemma FittingFrom(x: Spread, size: nat)
    requires 1 <= x.start && x.start + |x.weights| <= size
    ensures x.Fits(size)
  {
  }

  /** The phase with its units priced at nothing. */
  function Unpriced(p: Phase): Phase {
    p.(units := seq(|p.units|, i requires 0 <= i < |p.units| => p.units[i].(cap := 0.0)))
  }

  lemma UnpricedSums(p: Phase)
    ensures SumOf(UnitCount, Unpriced(p).units) == SumOf(UnitCount, p.units)
    ensures SumOf(UnitValue, Unpriced(p).units) == 0.0
    ensures PhaseStart(Unpriced(p)) == PhaseStart(p) && PhaseBuildMonths(Unpriced(p)) == PhaseBuildMonths(p)
    ensures PhaseShares(Unpriced(p)) == PhaseShares(p)
  {
    hide Shares;
    SumOfSame(UnitCount, Unpriced(p).units, UnitCount, p.units);
    var nil := seq(|p.units|, i requires 0 <= i < |p.units| => 0.0);
    forall i | 0 <= i < |p.units| ensures UnitValue(Unpriced(p).units[i]) == 0.0 {
      NilProduct(p.units[i].count * p.units[i].area);
    }
    NilSum(UnitValue, Unpriced(p).units);
    hide SumOf, UnitValue;
  }

  lemma NilProduct(x: real)
    ensures x * 0.0 == 0.0
  {
  }

  lemma {:induction false} NilSum<T>(f: T -> real, xs: seq<T>)
    requires forall i :: 0 <= i < |xs| ==> f(xs[i]) == 0.0
    ensures SumOf(f, xs) == 0.0
  {
    if |xs| > 0 { NilSum(f, xs[..|xs| - 1]); }
  }

  lemma {:induction false} LatestAgree(a: seq<Phase>, b: seq<Phase>)
    requires |a| == |b|
    requires forall i :: 0 <= i < |a| ==>
      PracticalCompletion(a[i]) == PracticalCompletion(b[i]) && PhaseEnd(a[i]) == PhaseEnd(b[i])
    ensures LatestCompletion(a) == LatestCompletion(b) && LatestEnd(a) == LatestEnd(b)
  {
    hide PracticalCompletion, PhaseEnd;
    if |a| > 0 { LatestAgree(a[..|a| - 1], b[..|b| - 1]); }
  }

  lemma UnpricedStays(input: AppraisalInput, shock: Shock, k: nat)
    requires input.Valid() && k < |input.phases|
    ensures var without := WithPhase(input, k, Unpriced(input.phases[k]));
            && without.Valid() && without.Phased()
            && BuildPeriod(without) == BuildPeriod(input) && TotalMonths(without) == TotalMonths(input)
            && HeldReceipts(without, shock) == HeldReceipts(input, shock)
            && NetOfDisposal(without) == NetOfDisposal(input)
  {
    UnpricedProgramme(input, k);
    hide Unpriced, BuildPeriod, TotalMonths, Times, Valuation.Capitalise, FlatShares;
  }

  lemma UnpricedProgramme(input: AppraisalInput, k: nat)
    requires k < |input.phases|
    ensures var without := WithPhase(input, k, Unpriced(input.phases[k]));
            BuildPeriod(without) == BuildPeriod(input) && TotalMonths(without) == TotalMonths(input)
  {
    var p := input.phases[k];
    UnpricedSums(p);
    hide SumOf, PhaseStart, PhaseBuildMonths, PhaseShares, LatestEnd, LatestCompletion, Unpriced;
    LatestAgree(input.phases, input.phases[k := Unpriced(p)]);
  }

  lemma UnpricedReceipts(input: AppraisalInput, shock: Shock, k: nat)
    requires input.Valid() && k < |input.phases|
    ensures var p, without := input.phases[k], WithPhase(input, k, Unpriced(input.phases[k]));
            var before, after := PhaseReceipts(input, Phases(input, shock)), PhaseReceipts(without, Phases(without, shock));
            && before[k] == Spread(Times(Times(SumOf(UnitValue, p.units), shock.sales), NetOfDisposal(input)),
                                   PhaseStart(p) + PhaseBuildMonths(p), PhaseShares(p))
            && after == before[k := before[k].(amount := 0.0)]
  {
    var p, q := input.phases[k], Unpriced(input.phases[k]);
    PhasesChange(input, shock, k, q);
    UnpricedSums(p);
    NilTimes(shock.sales);
    NilTimes(NetOfDisposal(input));
    assert NetOfDisposal(WithPhase(input, k, q)) == NetOfDisposal(input);
    hide SumOf, PhaseStart, PhaseBuildMonths, PhaseShares, Times, Percent, Gross, NetOfDisposal, Unpriced;
  }

  lemma HasPhases(input: AppraisalInput, k: nat)
    requires k < |input.phases|
    ensures input.Phased()
  {
  }

  /** A phase's own sales, net of disposal, arrive in the months after it completes, as its own units sell. */
  lemma PhaseSalesArrive(input: AppraisalInput, shock: Shock, k: nat)
    requires input.Valid() && k < |input.phases|
    ensures var p, without := input.phases[k], WithPhase(input, k, Unpriced(input.phases[k]));
            && without.Valid()
            && Arrives(RevSeries(without, shock), RevSeries(input, shock),
                       NetSales(input, shock, p),
                       PhaseStart(p) + PhaseBuildMonths(p), CountSum(p.units), p.absorptionUnitsPerMonth, |PhaseShares(p)|)
  {
    hide *;
    var p, q := input.phases[k], Unpriced(input.phases[k]);
    HasPhases(input, k);
    UnpricedStays(input, shock, k);
    UnpricedReceipts(input, shock, k);
    ReceiptsAre(input, shock);
    ReceiptsAre(WithPhase(input, k, q), shock);
    CountSumIs(p.units);
    NetValueIs(input, shock, p);
    SaleReplaced(input, shock, k);
    PhaseSharesAre(p);
    SaleFits(input, shock, k);
    var x := PhaseReceipts(input, Phases(input, shock))[k];
    FittingFrom(x, TotalMonths(input) + 1);
    SpreadArrives(RevSeries(WithPhase(input, k, q), shock), x, SumOf(UnitCount, p.units), p.absorptionUnitsPerMonth,
                  p.salesMonths, 24);
  }

  function ValueSum(units: seq<AppraisalUnit>): real { SumOf((u: AppraisalUnit) => u.count * u.area * u.cap, units) }

  /** What a phase's units sell for, after the agent and the lawyer. */
  function NetSales(input: AppraisalInput, shock: Shock, p: Phase): real {
    ValueSum(p.units) * shock.sales * (1.0 - (input.agentPct + input.legalPct) / 100.0)
  }

  function NetHeld(input: AppraisalInput, shock: Shock): real
    requires input.Valid()
  {
    InvestmentValue(input, shock) * (1.0 - (input.agentPct + input.legalPct) / 100.0)
  }

  lemma NetValueIs(input: AppraisalInput, shock: Shock, p: Phase)
    ensures Times(Times(SumOf(UnitValue, p.units), shock.sales), NetOfDisposal(input)) == NetSales(input, shock, p)
  {
    SumOfSame(UnitValue, p.units, (u: AppraisalUnit) => u.count * u.area * u.cap, p.units);
    assert ValueSum(p.units) == SumOf(UnitValue, p.units);
    hide SumOf, ValueSum;
    TwiceTimes(ValueSum(p.units), shock.sales, NetOfDisposal(input));
    hide Times;
  }

  lemma TwiceTimes(a: real, b: real, c: real)
    ensures Times(Times(a, b), c) == a * b * c
  {
  }

  lemma PhaseSharesAre(p: Phase)
    ensures PhaseShares(p) == Shares(SumOf(UnitCount, p.units), p.absorptionUnitsPerMonth, p.salesMonths, 24)
  {
    hide Shares, SumOf;
  }

  lemma SaleFits(input: AppraisalInput, shock: Shock, k: nat)
    requires k < |input.phases|
    ensures 1 <= PhaseStart(input.phases[k]) + PhaseBuildMonths(input.phases[k])
    ensures PhaseStart(input.phases[k]) + PhaseBuildMonths(input.phases[k]) + |PhaseShares(input.phases[k])|
         <= TotalMonths(input) + 1
  {
    Construction.PhaseWindow(input, shock, k);
    hide CalcPhase, PhaseStart, PhaseBuildMonths, PhaseShares, TotalMonths;
  }

  lemma SaleReplaced(input: AppraisalInput, shock: Shock, k: nat)
    requires input.Valid() && k < |input.phases|
    ensures var without := WithPhase(input, k, Unpriced(input.phases[k]));
            && without.Valid() && |RevSeries(without, shock)| == TotalMonths(input) + 1
            && RevSeries(input, shock)
               == AddSpread(RevSeries(without, shock), PhaseReceipts(input, Phases(input, shock))[k])
  {
    hide *;
    HasPhases(input, k);
    var without := WithPhase(input, k, Unpriced(input.phases[k]));
    UnpricedStays(input, shock, k);
    UnpricedReceipts(input, shock, k);
    ReceiptsAre(input, shock);
    ReceiptsAre(without, shock);
    var zeros, xs, held := Zeros(TotalMonths(input) + 1), PhaseReceipts(input, Phases(input, shock)), HeldReceipts(input, shock);
    var x := xs[k];
    var y := x.(amount := 0.0);
    assert xs + held == xs[..k] + [x] + (xs[k + 1..] + held);
    assert xs[k := y] + held == xs[..k] + [y] + (xs[k + 1..] + held);
    Inserted(zeros, xs[..k], x, xs[k + 1..] + held);
    Inserted(zeros, xs[..k], y, xs[k + 1..] + held);
    NothingAdded(ApplyAll(zeros, xs[..k] + (xs[k + 1..] + held)), y);
  }

  /** A phased scheme's let space is sold in equal parts over the months after the last phase completes. */
  lemma HeldSaleArrives(input: AppraisalInput, shock: Shock)
    requires input.Valid() && input.Phased()
    ensures var without := input.(income := None);
            && without.Valid()
            && (InvestmentValue(input, shock) > 0.0 ==>
                 Arrives(RevSeries(without, shock), RevSeries(input, shock),
                         NetHeld(input, shock), BuildPeriod(input) + 1, 0.0, None, TotalMonths(input) - BuildPeriod(input)))
            && (InvestmentValue(input, shock) <= 0.0 ==> RevSeries(without, shock) == RevSeries(input, shock))
  {
    hide *;
    var without := input.(income := None);
    WithoutIncome(input, shock);
    SalesFollowBuild(input);
    ReceiptsAre(input, shock);
    ReceiptsAre(without, shock);
    HeldReceiptsAre(input, shock);
    NoHeldReceipts(input, shock);
    var zeros, xs := Zeros(TotalMonths(input) + 1), PhaseReceipts(input, Phases(input, shock));
    assert xs + [] == xs;
    if InvestmentValue(input, shock) > 0.0 {
      var x := HeldReceipts(input, shock)[0];
      ApplyAllSnoc(zeros, xs, x);
      FlatAsShares(TotalMonths(input) - BuildPeriod(input));
      FittingFrom(x, TotalMonths(input) + 1);
      ZerosLength(TotalMonths(input) + 1);
      FlatArrives(RevSeries(without, shock), x);
    }
  }

  lemma HeldReceiptsAre(input: AppraisalInput, shock: Shock)
    requires input.Valid() && BuildPeriod(input) < TotalMonths(input)
    ensures HeldReceipts(input, shock) ==
      if InvestmentValue(input, shock) > 0.0 then
        [Spread(NetHeld(input, shock), BuildPeriod(input) + 1, FlatShares(TotalMonths(input) - BuildPeriod(input)))]
      else []
  {
    NetHeldIs(input, shock);
    hide InvestmentValue, BuildPeriod, TotalMonths, FlatShares, Times, NetOfDisposal, NetHeld;
  }

  lemma NetHeldIs(input: AppraisalInput, shock: Shock)
    requires input.Valid()
    ensures Times(InvestmentValue(input, shock), NetOfDisposal(input)) == NetHeld(input, shock)
  {
    hide InvestmentValue;
    OnceTimes(InvestmentValue(input, shock), NetOfDisposal(input));
  }

  lemma OnceTimes(a: real, c: real)
    ensures Times(a, c) == a * c
  {
  }

  lemma NoHeldReceipts(input: AppraisalInput, shock: Shock)
    requires input.Valid() && input.Phased()
    ensures var without := input.(income := None);
            without.Valid() && HeldReceipts(without, shock) == []
            && PhaseReceipts(without, Phases(without, shock)) == PhaseReceipts(input, Phases(input, shock))
  {
    WithoutIncome(input, shock);
    hide Phases, BuildPeriod, TotalMonths, Times;
  }

  lemma FlatAsShares(n: nat)
    requires n > 0
    ensures |FlatShares(n)| == n
  {
  }

  lemma FlatArrives(s: seq<real>, x: Spread)
    requires |x.weights| > 0 && x.weights == FlatShares(|x.weights|) && x.Fits(|s|)
    ensures Arrives(s, AddSpread(s, x), x.amount, x.start, 0.0, None, |x.weights|)
  {
    hide Times, FlatShares, AddSpread, Div;
    SpreadRuns(s, x, 0);
    forall k | 0 <= k <= |x.weights|
      ensures ArrivedBy(s, AddSpread(s, x), x.amount, x.start, 0.0, None, |x.weights|, k)
    {
      SpreadRuns(s, x, k);
      FlatRun(|x.weights|, k);
    }
  }
}
