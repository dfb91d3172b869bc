/** A development scheme: its accommodation, its costs and its monthly programme. */
module Scheme {
  import opened Numbers
  import opened SpendProfile
  import opened Spend
  import opened Absorption
  import Valuation

  datatype AppraisalUnit = AppraisalUnit(count: real, area: real, cap: real)

  /** When a line falls, independent of the scheme-wide profile. */
  datatype CostTiming = CostTiming(start: Option<real>, months: Option<real>, profile: Option<SpendKey>)

  datatype BuildTrade = BuildTrade(rate: real, timing: Option<CostTiming>)

  datatype OtherCost = OtherCost(amount: real, timing: Option<CostTiming>)

  /** An empty `trades` means the phase inherits the scheme's, as an absent list does. */
  datatype Phase = Phase(
    start: real, buildMonths: real, salesMonths: real, absorptionUnitsPerMonth: Option<real>,
    units: seq<AppraisalUnit>, trades: seq<BuildTrade>,
    profFeePct: Option<real>, contingencyPct: Option<real>, otherCosts: seq<OtherCost>)

  datatype FinanceInput = FinanceInput(
    ltcPct: real, ratePct: real, periodMonths: real, salesMonths: real, arrangementFeePct: real,
    spendProfile: Option<SpendKey>, absorptionUnitsPerMonth: Option<real>)

  datatype SiteMode = Residual | Profit

  datatype AppraisalInput = AppraisalInput(
    units: seq<AppraisalUnit>, phases: seq<Phase>, efficiency: real, trades: seq<BuildTrade>,
    profFeePct: real, contingencyPct: real, otherCosts: seq<OtherCost>, finance: FinanceInput,
    mode: SiteMode, landFixed: real, acqPct: real, agentPct: real, legalPct: real,
    targetProfitOnGdvPct: real, income: Option<Valuation.IncomeInput>)
  {
    predicate Phased() { |phases| > 0 }

    /** Only what the arithmetic cannot do without: no division by zero. */
    predicate Valid() {
      && acqPct != -100.0
      && (income.Some? ==> income.value.Valid())
    }

    function Profile(): SpendKey { finance.spendProfile.GetOr(SCurve) }

    function OnCosts(): real { 1.0 + (profFeePct + contingencyPct) / 100.0 }
  }

  /** The multipliers a sensitivity run applies to sales values and build costs. */
  datatype Shock = Shock(sales: real, build: real)

  // ---------------------------------------------------------------- accommodation

  function UnitArea(u: AppraisalUnit): real { u.count * u.area }

  function UnitValue(u: AppraisalUnit): real { u.count * u.area * u.cap }

  function UnitCount(u: AppraisalUnit): real { u.count }

  function Rate(t: BuildTrade): real { t.rate }

  function Amount(o: OtherCost): real { o.amount }

  function Flatten(phases: seq<Phase>): seq<AppraisalUnit> {
    if |phases| == 0 then [] else Flatten(phases[..|phases| - 1]) + phases[|phases| - 1].units
  }

  function AllUnits(input: AppraisalInput): seq<AppraisalUnit> {
    if input.Phased() then Flatten(input.phases) else input.units
  }

  function IncomeArea(input: AppraisalInput): real
    requires input.Valid()
  {
    if input.income.Some? then Valuation.Capitalise(input.income.value).totalArea else 0.0
  }

  /** `input.efficiency / 100 || 1`. */
  function Efficiency(input: AppraisalInput): real {
    if input.efficiency / 100.0 == 0.0 then 1.0 else input.efficiency / 100.0
  }

  function Gross(input: AppraisalInput, net: real): real {
    if Efficiency(input) > 0.0 then Div(net, Efficiency(input)) else net
  }

  function Nia(input: AppraisalInput): real
    requires input.Valid()
  {
    SumOf(UnitArea, AllUnits(input)) + IncomeArea(input)
  }

  function Gia(input: AppraisalInput): real
    requires input.Valid()
  {
    Gross(input, Nia(input))
  }

  // ---------------------------------------------------------------- programme

  function PhaseStart(p: Phase): (m: nat)
    ensures m >= 1
  {
    Clamp(OrElse(Round(p.start), 1), 1, 240)
  }

  function PhaseBuildMonths(p: Phase): (m: nat)
    ensures m >= 1
  {
    Clamp(OrElse(Round(p.buildMonths), 12), 1, 60)
  }

  function PhaseShares(p: Phase): (s: seq<real>)
    ensures |s| >= 1
  {
    Shares(SumOf(UnitCount, p.units), p.absorptionUnitsPerMonth, p.salesMonths, 24)
  }

  function SchemeShares(input: AppraisalInput): (s: seq<real>)
    ensures |s| >= 1
  {
    Shares(SumOf(UnitCount, AllUnits(input)), input.finance.absorptionUnitsPerMonth, input.finance.salesMonths, 8)
  }

  /** The last month a phase is under construction. */
  function PracticalCompletion(p: Phase): nat { PhaseStart(p) + PhaseBuildMonths(p) - 1 }

  /** The last month of a phase's sales window. */
  function PhaseEnd(p: Phase): nat { PracticalCompletion(p) + |PhaseShares(p)| }

  function LatestCompletion(phases: seq<Phase>): nat {
    if |phases| == 0 then 0
    else
      var rest, last := LatestCompletion(phases[..|phases| - 1]), PracticalCompletion(phases[|phases| - 1]);
      if rest >= last then rest else last
  }

  function LatestEnd(phases: seq<Phase>): nat {
    if |phases| == 0 then 0
    else
      var rest, last := LatestEnd(phases[..|phases| - 1]), PhaseEnd(phases[|phases| - 1]);
      if rest >= last then rest else last
  }

  /** P: the last month anything is under construction. */
  function BuildPeriod(input: AppraisalInput): nat {
    if input.Phased() then LatestCompletion(input.phases)
    else Clamp(OrElse(Round(input.finance.periodMonths), 12), 4, 22)
  }

  function TotalMonths(input: AppraisalInput): nat {
    if input.Phased() then LatestEnd(input.phases) else BuildPeriod(input) + |SchemeShares(input)|
  }

  lemma {:induction false} ProgrammeBounds(phases: seq<Phase>)
    ensures forall i :: 0 <= i < |phases| ==>
              PracticalCompletion(phases[i]) <= LatestCompletion(phases) && PhaseEnd(phases[i]) <= LatestEnd(phases)
    ensures |phases| > 0 ==> 1 <= LatestCompletion(phases) < LatestEnd(phases)
  {
    hide PhaseStart, PhaseBuildMonths, PhaseShares;
    if |phases| > 0 { ProgrammeBounds(phases[..|phases| - 1]); }
  }

  /** Every programme has months after the build in which to sell. */
  lemma SalesFollowBuild(input: AppraisalInput)
    ensures 1 <= BuildPeriod(input) < TotalMonths(input)
  {
    hide SchemeShares;
    ProgrammeBounds(input.phases);
  }

  // ---------------------------------------------------------------- phases priced

  datatype PhaseCalc = PhaseCalc(
    start: nat, buildMonths: nat, share: seq<real>, gia: real, gdv: real, trades: seq<BuildTrade>,
    feePct: real, contPct: real, build: real, fees: real, cont: real,
    otherCosts: seq<OtherCost>, otherTotal: real)
  {
    function Cost(): real { build + fees + cont }
  }

  function PhaseTrades(input: AppraisalInput, p: Phase): seq<BuildTrade> {
    if |p.trades| > 0 then p.trades else input.trades
  }

  function PhaseGia(input: AppraisalInput, p: Phase): real { Gross(input, SumOf(UnitArea, p.units)) }

  function CalcPhase(input: AppraisalInput, shock: Shock, p: Phase): PhaseCalc {
    var gia := PhaseGia(input, p);
    var build := Times(Times(SumOf(Rate, PhaseTrades(input, p)), shock.build), gia);
    var feePct, contPct := p.profFeePct.GetOr(input.profFeePct), p.contingencyPct.GetOr(input.contingencyPct);
    PhaseCalc(PhaseStart(p), PhaseBuildMonths(p), PhaseShares(p), gia,
              Times(SumOf(UnitValue, p.units), shock.sales), PhaseTrades(input, p), feePct, contPct,
              build, Percent(build, feePct), Percent(build, contPct), p.otherCosts, SumOf(Amount, p.otherCosts))
  }

  function Phases(input: AppraisalInput, shock: Shock): (ps: seq<PhaseCalc>)
    ensures |ps| == |input.phases|
  {
    seq(|input.phases|, i requires 0 <= i < |input.phases| => CalcPhase(input, shock, input.phases[i]))
  }

  function GiaOf(p: PhaseCalc): real { p.gia }

  function GdvOf(p: PhaseCalc): real { p.gdv }

  function BuildOf(p: PhaseCalc): real { p.build }

  function FeesOf(p: PhaseCalc): real { p.fees }

  function ContOf(p: PhaseCalc): real { p.cont }

  function OtherOf(p: PhaseCalc): real { p.otherTotal }

  // ---------------------------------------------------------------- scheme totals

  function SchemeRate(input: AppraisalInput, shock: Shock): real { Times(SumOf(Rate, input.trades), shock.build) }

  /** Gross area that belongs to no phase; the whole scheme when there are none. */
  function UnphasedGia(input: AppraisalInput, shock: Shock): real
    requires input.Valid()
  {
    Gia(input) - SumOf(GiaOf, Phases(input, shock))
  }

  /** The build cost no phase carries. With no phases the sums below are empty and this is the whole build. */
  function UnphasedBuild(input: AppraisalInput, shock: Shock): real
    requires input.Valid()
  {
    Times(SchemeRate(input, shock), UnphasedGia(input, shock))
  }

  function Build(input: AppraisalInput, shock: Shock): real
    requires input.Valid()
  {
    SumOf(BuildOf, Phases(input, shock)) + UnphasedBuild(input, shock)
  }

  function Fees(input: AppraisalInput, shock: Shock): real
    requires input.Valid()
  {
    SumOf(FeesOf, Phases(input, shock)) + Percent(UnphasedBuild(input, shock), input.profFeePct)
  }

  function Contingency(input: AppraisalInput, shock: Shock): real
    requires input.Valid()
  {
    SumOf(ContOf, Phases(input, shock)) + Percent(UnphasedBuild(input, shock), input.contingencyPct)
  }

  function OtherTotal(input: AppraisalInput, shock: Shock): real {
    SumOf(Amount, input.otherCosts) + SumOf(OtherOf, Phases(input, shock))
  }

  function ConstructionTotal(input: AppraisalInput, shock: Shock): real
    requires input.Valid()
  {
    Build(input, shock) + Fees(input, shock) + Contingency(input, shock) + OtherTotal(input, shock)
  }

  // ---------------------------------------------------------------- construction on the programme

  function LineStart(timing: Option<CostTiming>): real { if timing.Some? then timing.value.start.GetOr(1.0) else 1.0 }

  function LineMonths(timing: Option<CostTiming>, default: real): real {
    if timing.Some? then timing.value.months.GetOr(default) else default
  }

  function LineKey(timing: Option<CostTiming>, default: SpendKey): SpendKey {
    if timing.Some? then timing.value.profile.GetOr(default) else default
  }

  /** A line's start and span are rounded and clamped into the programme. */
  function SpreadFrom(amount: real, from: real, months: real, key: SpendKey, total: nat): Spread {
    var start: nat := Clamp(Round(from), 1, total);
    var span: nat := Clamp(Round(months), 1, total - start + 1);
    Spread(amount, start, Weights(span, key))
  }

  predicate AnyTradeTimed(trades: seq<BuildTrade>) { exists i :: 0 <= i < |trades| && trades[i].timing.Some? }

  predicate AnyCostTimed(costs: seq<OtherCost>) { exists i :: 0 <= i < |costs| && costs[i].timing.Some? }

  predicate Timed(input: AppraisalInput) { AnyTradeTimed(input.trades) || AnyCostTimed(input.otherCosts) }

  /** Trades on their own windows, counted from the month `origin` is 1; `factor` turns a rate into money. */
  function TradeSpreads(trades: seq<BuildTrade>, factor: real, origin: nat, months: nat, key: SpendKey, total: nat)
    : (xs: seq<Spread>)
    ensures |xs| == |trades|
  {
    seq(|trades|, i requires 0 <= i < |trades| =>
      SpreadFrom(Times(trades[i].rate, factor), Relative(origin, LineStart(trades[i].timing)),
                 LineMonths(trades[i].timing, months as real), LineKey(trades[i].timing, key), total))
  }

  function CostSpreads(costs: seq<OtherCost>, origin: nat, months: nat, key: SpendKey, total: nat): (xs: seq<Spread>)
    ensures |xs| == |costs|
  {
    seq(|costs|, i requires 0 <= i < |costs| =>
      SpreadFrom(costs[i].amount, Relative(origin, LineStart(costs[i].timing)),
                 LineMonths(costs[i].timing, months as real), LineKey(costs[i].timing, key), total))
  }

  /** `origin + (Math.round(start) - 1)`: a phase's month 1 is its own first month on site. */
  function Relative(origin: nat, start: real): real { (origin + Round(start) - 1) as real }

  /** A phase's construction: by trade when any trade is timed, as one profile over its window otherwise. */
  function PhaseBuildSpreads(pc: PhaseCalc, shock: Shock, key: SpendKey, total: nat): seq<Spread> {
    if AnyTradeTimed(pc.trades) then
      TradeSpreads(pc.trades, PhaseFactor(pc, shock), pc.start, pc.buildMonths, key, total)
    else [Spread(pc.Cost(), pc.start, Weights(pc.buildMonths, key))]
  }

  function PhaseFactor(pc: PhaseCalc, shock: Shock): real {
    Times(Times(shock.build, pc.gia), 1.0 + (pc.feePct + pc.contPct) / 100.0)
  }

  function PhaseSpreads(pc: PhaseCalc, shock: Shock, key: SpendKey, total: nat): seq<Spread> {
    PhaseBuildSpreads(pc, shock, key, total) + CostSpreads(pc.otherCosts, pc.start, pc.buildMonths, key, total)
  }

  function AllPhaseSpreads(ps: seq<PhaseCalc>, shock: Shock, key: SpendKey, total: nat): seq<Spread> {
    if |ps| == 0 then []
    else AllPhaseSpreads(ps[..|ps| - 1], shock, key, total) + PhaseSpreads(ps[|ps| - 1], shock, key, total)
  }

  const AREA_CUTOFF := 0.0001

  /** The held element is in no phase, so its build spreads over the whole envelope; a sliver of area is dropped. */
  function HeldSpreads(input: AppraisalInput, shock: Shock): seq<Spread>
    requires input.Valid()
  {
    if UnphasedGia(input, shock) > AREA_CUTOFF then
      [Spread(Times(UnphasedBuild(input, shock), input.OnCosts()), 1, Weights(BuildPeriod(input), input.Profile()))]
    else []
  }

  function SchemeCostSpreads(input: AppraisalInput): seq<Spread> {
    CostSpreads(input.otherCosts, 1, BuildPeriod(input), input.Profile(), TotalMonths(input))
  }

  /** Trades of an unphased, timed scheme, before fees and contingency. */
  function SchemeTradeSpreads(input: AppraisalInput, shock: Shock): seq<Spread>
    requires input.Valid()
  {
    TradeSpreads(input.trades, Times(shock.build, Gia(input)), 1, BuildPeriod(input), input.Profile(), TotalMonths(input))
  }

  /** Every construction cost as one spread on the programme, branch by branch. */
  function Spreads(input: AppraisalInput, shock: Shock): seq<Spread>
    requires input.Valid()
  {
    if input.Phased() then
      AllPhaseSpreads(Phases(input, shock), shock, input.Profile(), TotalMonths(input))
      + HeldSpreads(input, shock) + SchemeCostSpreads(input)
    else if !Timed(input) then
      [Spread(ConstructionTotal(input, shock), 1, Weights(BuildPeriod(input), input.Profile()))]
    else
      ScaleAmounts(SchemeTradeSpreads(input, shock), input.OnCosts()) + SchemeCostSpreads(input)
  }

  /** `constrSeries`: spend in each month, entry 0 unused. */
  function ConstrSeries(input: AppraisalInput, shock: Shock): (s: seq<real>)
    requires input.Valid()
    ensures |s| == TotalMonths(input) + 1
  {
    ApplyAll(Zeros(TotalMonths(input) + 1), Spreads(input, shock))
  }

  // ---------------------------------------------------------------- receipts on the programme

  function Gdv(input: AppraisalInput, shock: Shock): real
    requires input.Valid()
  {
    SalesGdv(input, shock) + InvestmentValue(input, shock)
  }

  function SalesGdv(input: AppraisalInput, shock: Shock): real { Times(SumOf(UnitValue, AllUnits(input)), shock.sales) }

  /** The held element, shocked with sales because a value shift moves both exits. */
  function InvestmentValue(input: AppraisalInput, shock: Shock): real
    requires input.Valid()
  {
    if input.income.Some? then Times(Valuation.Capitalise(input.income.value).netCapitalValue, shock.sales) else 0.0
  }

  function SaleCosts(input: AppraisalInput, shock: Shock): real
    requires input.Valid()
  {
    Percent(Gdv(input, shock), input.agentPct + input.legalPct)
  }

  /** What is left of a pound of sales after disposal costs. */
  function NetOfDisposal(input: AppraisalInput): real { 1.0 - (input.agentPct + input.legalPct) / 100.0 }

  function PhaseReceipts(input: AppraisalInput, ps: seq<PhaseCalc>): (xs: seq<Spread>)
    ensures |xs| == |ps|
  {
    seq(|ps|, i requires 0 <= i < |ps| =>
      Spread(Times(ps[i].gdv, NetOfDisposal(input)), ps[i].start + ps[i].buildMonths, ps[i].share))
  }

  /** The held element is realised evenly once everything is complete. */
  function HeldReceipts(input: AppraisalInput, shock: Shock): seq<Spread>
    requires input.Valid()
  {
    SalesFollowBuild(input);
    if InvestmentValue(input, shock) > 0.0 then
      [Spread(Times(InvestmentValue(input, shock), NetOfDisposal(input)), BuildPeriod(input) + 1,
              FlatShares(TotalMonths(input) - BuildPeriod(input)))]
    else []
  }

  function Receipts(input: AppraisalInput, shock: Shock): seq<Spread>
    requires input.Valid()
  {
    if input.Phased() then PhaseReceipts(input, Phases(input, shock)) + HeldReceipts(input, shock)
    else [Spread(Gdv(input, shock) - SaleCosts(input, shock), BuildPeriod(input) + 1, SchemeShares(input))]
  }

  /** `revSeries`: receipts in each month, entry 0 unused. */
  function RevSeries(input: AppraisalInput, shock: Shock): (s: seq<real>)
    requires input.Valid()
    ensures |s| == TotalMonths(input) + 1
  {
    ApplyAll(Zeros(TotalMonths(input) + 1), Receipts(input, shock))
  }
}
