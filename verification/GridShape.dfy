/** What each cell of the sensitivity grid shows, and that the declared structure claims neither too much nor too little. */
module GridShape {
  import opened Numbers
  import opened Scheme
  import opened Engine
  import opened Sensitivity
  import Valuation

  /** The figure a metric stands for. */
  function Figure(metric: Metric, r: Figures): real {
    match metric
    case Roc => r.poc
    case ProfitMetric => r.profit
    case ResidualMetric => r.residualNet
  }

  /**
   * Rows run down from the last step of build cost and columns across from the first of sales; a cell shows the
   * appraisal at its two steps, whether it is the base, and how it compares with the base.
   */
  lemma GridShows(input: AppraisalInput, metric: Metric, steps: seq<real>, r: nat, c: nat)
    requires input.Valid() && r < |steps| && c < |steps|
    ensures var cell, gd, bd := Grid(input, metric, steps)[r][c], steps[c], steps[|steps| - 1 - r];
            var base := Figure(metric, Appraise(input, Shock(1.0, 1.0)));
            && cell.salesDelta == gd && cell.buildDelta == bd && (cell.isBase <==> gd == 0.0 == bd)
            && cell.value == Figure(metric, Appraise(input, Shock(1.0 + gd, 1.0 + bd)))
            && (if base > 0.0 then cell.ratio * base == cell.value else cell.ratio == 1.0)
  {
    hide *;
    CellIs(input, metric, steps[c], steps[|steps| - 1 - r]);
    GridAt(input, metric, steps, r, c);
  }

  lemma GridAt(input: AppraisalInput, metric: Metric, steps: seq<real>, r: nat, c: nat)
    requires input.Valid() && r < |steps| && c < |steps|
    ensures Grid(input, metric, steps)[r][c] == CellAt(input, metric, steps[c], steps[|steps| - 1 - r])
  {
    hide CellAt;
    var bd := steps[|steps| - 1 - r];
    assert Grid(input, metric, steps)[r] == GridRow(input, metric, steps, bd);
  }

  lemma CellIs(input: AppraisalInput, metric: Metric, gd: real, bd: real)
    requires input.Valid()
    ensures var cell := CellAt(input, metric, gd, bd);
            var base := Figure(metric, Appraise(input, Shock(1.0, 1.0)));
            && cell.salesDelta == gd && cell.buildDelta == bd && (cell.isBase <==> gd == 0.0 == bd)
            && cell.value == Figure(metric, Appraise(input, Shock(1.0 + gd, 1.0 + bd)))
            && (if base > 0.0 then cell.ratio * base == cell.value else cell.ratio == 1.0)
  {
    hide Appraise;
    var base := Figure(metric, Appraise(input, Shock(1.0, 1.0)));
    if base > 0.0 { DivLaw(At(input, metric, gd, bd), base); }
    hide Div;
  }

  // ---------------------------------------------------------------- the structure is no looser than it need be

  lemma PreferredVaries(mode: SiteMode)
    ensures SensitivityStructure(mode).Of(SensitivityStructure(mode).preferred) == Varies
  {
  }

  /** Two inputs that differ only in how the site is solved cost and sell the same. */
  lemma SolvedOtherwise(a: AppraisalInput, b: AppraisalInput, shock: Shock)
    requires a.Valid() && b == a.(mode := b.mode, targetProfitOnGdvPct := b.targetProfitOnGdvPct)
    ensures b.Valid() && Phases(b, shock) == Phases(a, shock) && UnphasedBuild(b, shock) == UnphasedBuild(a, shock)
  {
    hide SumOf, Times, Percent, Div, PhaseStart, PhaseBuildMonths, PhaseShares, Valuation.Capitalise, Flatten;
    forall p ensures CalcPhase(b, shock, p) == CalcPhase(a, shock, p) {}
    hide CalcPhase;
    assert Phases(b, shock) == Phases(a, shock);
    assert Gia(b) == Gia(a);
    hide Gia;
  }


  lemma CostsAgree(a: AppraisalInput, b: AppraisalInput, shock: Shock)
    requires a.Valid() && b == a.(mode := b.mode, targetProfitOnGdvPct := b.targetProfitOnGdvPct)
    ensures b.Valid() && Build(b, shock) == Build(a, shock) && Fees(b, shock) == Fees(a, shock)
    ensures Contingency(b, shock) == Contingency(a, shock) && OtherTotal(b, shock) == OtherTotal(a, shock)
  {
    SolvedOtherwise(a, b, shock);
    hide Phases, UnphasedBuild, SumOf, Percent;
  }

  lemma TargetIs()
    ensures TargetScheme() == FreeLand().(mode := TargetScheme().mode, targetProfitOnGdvPct := TargetScheme().targetProfitOnGdvPct)
    ensures TargetScheme().agentPct + TargetScheme().legalPct == 0.0 && TargetScheme().acqPct == 0.0
    ensures TargetScheme().finance == FreeLand().finance
  {
    hide Phases;
  }

  lemma TargetFinance(build: real)
    ensures Finance(TargetScheme(), Shock(1.0, build)) == 0.0
  {
    TargetIs();
    FreeLandFields();
    hide FreeLand, TargetScheme;
    NoLoanNoFinance(TargetScheme(), Shock(1.0, build));
  }

  lemma NoSaleCosts(input: AppraisalInput, shock: Shock)
    requires input.Valid() && input.agentPct + input.legalPct == 0.0 && input.acqPct == 0.0
    ensures SaleCosts(input, shock) == 0.0
    ensures TotalCost(input, shock)
         == Build(input, shock) + Fees(input, shock) + Contingency(input, shock) + OtherTotal(input, shock)
            + Finance(input, shock) + ResidualNet(input, shock)
  {
    hide Gdv, Build, Fees, Contingency, OtherTotal, Finance, ResidualNet;
  }

  /** The land left when a fifth of £2 is kept and `build` is spent. */
  lemma TargetResidual(build: real)
    ensures ResidualNet(TargetScheme(), Shock(1.0, build)) == 1.6 - build
  {
    hide *;
    TargetIs();
    TargetSchemeMode();
    FreeLandMode();
    CostsAgree(FreeLand(), TargetScheme(), Shock(1.0, build));
    FreeLandBuild(build);
    TargetFinance(build);
    NoSaleCosts(TargetScheme(), Shock(1.0, build));
    ResidualIdentity(TargetScheme(), Shock(1.0, build));
    TargetValue(build);
    ReturnIs(TargetScheme(), Shock(1.0, build));
    FifthOf(2.0);
  }

  lemma TargetValue(build: real)
    ensures Gdv(TargetScheme(), Shock(1.0, build)) == 2.0
  {
    hide *;
    TargetSchemeMode();
    TargetSchemeGdv(1.0);
    WholeShare(2.0);
    GdvIgnoresBuild(TargetScheme(), Shock(1.0, build), Shock(1.0, 1.0));
  }

  lemma FifthOf(x: real)
    ensures Percent(x, 20.0) == x / 5.0
  {
  }

  lemma TargetProfits(sales: real)
    ensures ProfitOf(TargetScheme(), Shock(sales, 1.0)) == 2.0 * sales / 5.0
  {
    hide *;
    TargetSchemeMode();
    TargetSchemeGdv(sales);
    ReturnIs(TargetScheme(), Shock(sales, 1.0));
    FifthOf(Times(2.0, sales));
    Doubled(sales);
  }

  lemma Doubled(x: real)
    ensures Times(2.0, x) == 2.0 * x
  {
  }

  lemma FreeProfit(build: real)
    requires build > 0.0
    ensures ProfitOf(FreeLand(), Shock(1.0, build)) == 2.0 - build
    ensures ReturnOnCost(FreeLand(), Shock(1.0, build)) == Div(2.0 - build, build)
  {
    hide *;
    FreeLandMode();
    FreeLandFigures(build);
    ProfitIdentity(FreeLand(), Shock(1.0, build));
    ReturnAsRatio(FreeLand(), Shock(1.0, build));
    OverCost(2.0 - build, build);
  }

  lemma OverCost(a: real, b: real)
    requires b > 0.0
    ensures Ratio(a, b) == Div(a, b)
  {
  }

  /** The input and the steps that tell a declared response from the stronger ones. */
  function Telling(mode: SiteMode): (input: AppraisalInput)
    ensures input.Valid() && input.mode == mode
  {
    if mode == Residual then TargetScheme() else FreeLand()
  }

  lemma DownShows(mode: SiteMode, metric: Metric, build: real)
    requires build > 0.0
    ensures Telling(mode).Valid()
    ensures mode == Residual && metric == ResidualMetric ==> MetricFigure(mode, metric, 1.0, build) == 1.6 - build
    ensures mode == Profit && metric == ProfitMetric ==> MetricFigure(mode, metric, 1.0, build) == 2.0 - build
    ensures mode == Profit && metric == Roc ==> MetricFigure(mode, metric, 1.0, build) == Div(2.0 - build, build)
  {
    hide *;
    TellingIs(mode);
    TargetResidual(build);
    FreeProfit(build);
    FiguresOf(Telling(mode), Shock(1.0, build));
    MetricFigureIs(mode, metric, 1.0, build);
    FigureIs(metric, Appraise(Telling(mode), Shock(1.0, build)));
  }

  lemma FigureIs(metric: Metric, r: Figures)
    ensures Figure(metric, r)
         == match metric case Roc => r.poc case ProfitMetric => r.profit case ResidualMetric => r.residualNet
  {
  }

  function MetricFigure(mode: SiteMode, metric: Metric, sales: real, build: real): real {
    Figure(metric, Appraise(Telling(mode), Shock(sales, build)))
  }

  lemma TellingIs(mode: SiteMode)
    ensures Telling(mode) == (if mode == Residual then TargetScheme() else FreeLand())
    ensures Telling(mode).Valid() && Telling(mode).mode == mode
  {
    hide TargetScheme, FreeLand;
  }

  lemma FiguresOf(input: AppraisalInput, shock: Shock)
    requires input.Valid()
    ensures var r := Appraise(input, shock);
            && r.poc == ReturnOnCost(input, shock) && r.profit == ProfitOf(input, shock)
            && r.residualNet == ResidualNet(input, shock)
  {
    hide Gia, Nia, Gdv, SalesGdv, InvestmentValue, IncomeOf, PhaseRows, Build, Fees, Contingency, OtherTotal, SaleCosts,
         InterestCost, Arrangement, Finance, PeakDebt, ResidualNet, LandGross, ProfitOf, TotalCost, ReturnOnCost, Times, Div,
         TotalMonths, BuildPeriod, ConstructionTotal, SchemeRate;
  }

  /**
   * Whatever is not declared pinned really is not: a metric declared to follow sales moves with them, and one declared
   * to vary moves with build cost as well.
   */
  lemma DeclaredTightly(mode: SiteMode, metric: Metric)
    ensures Telling(mode).Valid() && Telling(mode).mode == mode
    ensures SensitivityStructure(mode).Of(metric) == GdvOnly ==> !Responds(Grid(Telling(mode), metric, [0.0, 1.0]), Pinned)
    ensures SensitivityStructure(mode).Of(metric) == Varies ==> !Responds(Grid(Telling(mode), metric, [0.0, 1.0]), GdvOnly)
  {
    var response := SensitivityStructure(mode).Of(metric);
    assert response == GdvOnly ==> mode == Residual && metric == ProfitMetric;
    assert response == Varies ==> (mode == Residual && metric == ResidualMetric) || (mode == Profit && metric != ResidualMetric);
    hide *;
    TellingIs(mode);
    if response == GdvOnly { MovesWithSales(); }
    if response == Varies { MovesWithBuild(mode, metric); }
  }

  lemma MovesWithSales()
    ensures Telling(Residual).Valid() && !Responds(Grid(Telling(Residual), ProfitMetric, [0.0, 1.0]), Pinned)
  {
    hide *;
    var steps := [0.0, 1.0];
    TellingIs(Residual);
    GridShows(Telling(Residual), ProfitMetric, steps, 1, 0);
    GridShows(Telling(Residual), ProfitMetric, steps, 1, 1);
    SalesShow(1.0);
    SalesShow(2.0);
    var g: seq<seq<Cell>> := Grid(Telling(Residual), ProfitMetric, steps);
    assert g[1][0].value != g[1][1].value;
    NotPinned(g, 1, 0, 1, 1);
  }

  lemma SalesShow(sales: real)
    ensures Telling(Residual).Valid()
    ensures Figure(ProfitMetric, Appraise(Telling(Residual), Shock(sales, 1.0))) == 2.0 * sales / 5.0
  {
    hide *;
    TellingIs(Residual);
    TargetProfits(sales);
    FiguresOf(Telling(Residual), Shock(sales, 1.0));
    ProfitFigure(Appraise(Telling(Residual), Shock(sales, 1.0)));
  }

  lemma ProfitFigure(r: Figures)
    ensures Figure(ProfitMetric, r) == r.profit
  {
  }

  lemma NotPinned(g: seq<seq<Cell>>, q: nat, b: nat, r: nat, c: nat)
    requires q < |g| && r < |g| && b < |g[q]| && c < |g[r]| && g[q][b].value != g[r][c].value
    ensures !Responds(g, Pinned)
    ensures b == c ==> !Responds(g, GdvOnly)
  {
  }

  lemma MovesWithBuild(mode: SiteMode, metric: Metric)
    requires (mode == Residual && metric == ResidualMetric) || (mode == Profit && metric != ResidualMetric)
    ensures Telling(mode).Valid() && !Responds(Grid(Telling(mode), metric, [0.0, 1.0]), GdvOnly)
  {
    hide *;
    var steps := [0.0, 1.0];
    TellingIs(mode);
    GridShows(Telling(mode), metric, steps, 0, 0);
    GridShows(Telling(mode), metric, steps, 1, 0);
    DownShows(mode, metric, 1.0);
    DownShows(mode, metric, 2.0);
    MetricFigureIs(mode, metric, 1.0, 1.0);
    MetricFigureIs(mode, metric, 1.0, 2.0);
    DivUnique(1.0, 1.0, 1.0);
    DivUnique(0.0, 2.0, 0.0);
    var g: seq<seq<Cell>> := Grid(Telling(mode), metric, steps);
    assert g[0][0].value != g[1][0].value;
    NotPinned(g, 0, 0, 1, 0);
  }

  lemma MetricFigureIs(mode: SiteMode, metric: Metric, sales: real, build: real)
    ensures Telling(mode).Valid()
    ensures MetricFigure(mode, metric, sales, build) == Figure(metric, Appraise(Telling(mode), Shock(sales, build)))
  {
    TellingIs(mode);
    hide Telling, Appraise;
  }
}
