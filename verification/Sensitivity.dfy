/** The sensitivity grid: what it is declared to do, and what the whole appraisal makes it do. */
module Sensitivity {
  import opened Numbers
  import opened Scheme
  import opened Facility
  import opened Engine
  import opened Monotone
  import BuildScale
  import Conservation

  datatype Metric = Roc | ProfitMetric | ResidualMetric

  datatype Response = Pinned | GdvOnly | Varies

  datatype Structure = Structure(preferred: Metric, roc: Response, profit: Response, residual: Response) {
    function Of(metric: Metric): Response {
      match metric
      case Roc => roc
      case ProfitMetric => profit
      case ResidualMetric => residual
    }
  }

  /** `sensitivityStructure`: which metrics a mode can move, and which it pins. */
  function SensitivityStructure(mode: SiteMode): Structure {
    if mode == Residual then Structure(ResidualMetric, Pinned, GdvOnly, Varies)
    else Structure(Roc, Varies, Varies, Pinned)
  }

  function MetricOf(metric: Metric, r: Figures): real {
    match metric
    case Roc => r.poc
    case ProfitMetric => r.profit
    case ResidualMetric => r.residualNet
  }

  datatype Cell = Cell(value: real, salesDelta: real, buildDelta: real, isBase: bool, ratio: real)

  function At(input: AppraisalInput, metric: Metric, gd: real, bd: real): real
    requires input.Valid()
  {
    MetricOf(metric, Appraise(input, Shock(1.0 + gd, 1.0 + bd)))
  }

  function CellAt(input: AppraisalInput, metric: Metric, gd: real, bd: real): Cell
    requires input.Valid()
  {
    var base, v := MetricOf(metric, Appraise(input, Shock(1.0, 1.0))), At(input, metric, gd, bd);
    Cell(v, gd, bd, gd == 0.0 && bd == 0.0, if base > 0.0 then Div(v, base) else 1.0)
  }

  /** `sensitivityGrid`: rows run from the largest build step down, columns from the smallest sales step up. */
  function Grid(input: AppraisalInput, metric: Metric, steps: seq<real>): (g: seq<seq<Cell>>)
    requires input.Valid()
    ensures |g| == |steps| && forall r :: 0 <= r < |steps| ==> |g[r]| == |steps|
  {
    seq(|steps|, r requires 0 <= r < |steps| => GridRow(input, metric, steps, steps[|steps| - 1 - r]))
  }

  function GridRow(input: AppraisalInput, metric: Metric, steps: seq<real>, bd: real): (cells: seq<Cell>)
    requires input.Valid()
    ensures |cells| == |steps|
  {
    seq(|steps|, c requires 0 <= c < |steps| => CellAt(input, metric, steps[c], bd))
  }

  // ---------------------------------------------------------------- the declared structure

  /** In residual mode cost is value less target profit: the land absorbs everything else. */
  lemma ResidualIdentity(input: AppraisalInput, shock: Shock)
    requires input.Valid() && input.mode == Residual
    ensures TotalCost(input, shock) == Gdv(input, shock) - ProfitOf(input, shock)
  {
    hide Gdv, CostsBeforeLand, TargetProfit, Div;
    var x := Gdv(input, shock) - CostsBeforeLand(input, shock) - TargetProfit(input, shock);
    DivLaw(x, Acquisition(input));
  }

  /** In profit mode the appraisal is an identity by definition. */
  lemma ProfitIdentity(input: AppraisalInput, shock: Shock)
    requires input.Valid()
    ensures ProfitOf(input, shock) == Gdv(input, shock) - TotalCost(input, shock)
  {
    hide Gdv, CostsBeforeLand, LandGross, TargetProfit;
    if input.mode == Residual { ResidualIdentity(input, shock); }
  }

  /** Target over one less target, or nothing when the target leaves no cost to divide by. */
  function PinnedReturn(targetPct: real): real {
    if targetPct < 100.0 then Div(targetPct, 100.0 - targetPct) else 0.0
  }

  /** When a value and a target leave the pinned return: the value is positive, or there is no return to report. */
  predicate PinHolds(gdv: real, targetPct: real) {
    if targetPct < 100.0 then gdv > 0.0 || targetPct == 0.0 else gdv >= 0.0 || targetPct == 100.0
  }

  /** Residual mode pins return on cost to the target, whatever happens to costs, exactly when the value lets it. */
  lemma ReturnPinned(input: AppraisalInput, shock: Shock)
    requires input.Valid() && input.mode == Residual
    ensures Appraise(input, shock).poc == PinnedReturn(input.targetProfitOnGdvPct)
      <==> PinHolds(Gdv(input, shock), input.targetProfitOnGdvPct)
  {
    hide *;
    ResidualIdentity(input, shock);
    ReturnIs(input, shock);
    PinnedRatio(Gdv(input, shock), input.targetProfitOnGdvPct, ProfitOf(input, shock), TotalCost(input, shock));
  }

  lemma ReturnIs(input: AppraisalInput, shock: Shock)
    requires input.Valid()
    ensures Appraise(input, shock).poc == Ratio(ProfitOf(input, shock), TotalCost(input, shock))
    ensures input.mode == Residual ==> ProfitOf(input, shock) == Percent(Gdv(input, shock), input.targetProfitOnGdvPct)
  {
    hide TotalCost, Gdv, Div, Percent;
  }

  lemma PinnedRatio(g: real, t: real, profit: real, cost: real)
    requires profit == Percent(g, t) && cost == g - profit
    ensures Ratio(profit, cost) == PinnedReturn(t) <==> PinHolds(g, t)
  {
    hide Div;
    assert cost == (100.0 - t) * (g / 100.0);
    if t != 100.0 && g != 0.0 {
      DivCancel(t, 100.0 - t, g / 100.0, profit, cost);
      QuotientSign(t, 100.0 - t);
    }
    if t < 100.0 { QuotientSign(t, 100.0 - t); }
    CostSign(g, t, cost);
  }

  lemma CostSign(g: real, t: real, cost: real)
    requires cost == (100.0 - t) * (g / 100.0)
    ensures cost > 0.0 <==> (t < 100.0 && g > 0.0) || (t > 100.0 && g < 0.0)
  {
    if t < 100.0 && g > 0.0 { MulStrict(0.0, 100.0 - t, g / 100.0); }
    if t > 100.0 && g < 0.0 { MulStrict(0.0, t - 100.0, -g / 100.0); }
    if t < 100.0 && g <= 0.0 { MulNonNegative(100.0 - t, -g / 100.0); }
    if t >= 100.0 && g >= 0.0 { MulNonNegative(t - 100.0, g / 100.0); }
  }

  lemma QuotientSign(a: real, b: real)
    requires b != 0.0
    ensures Div(a, b) == 0.0 <==> a == 0.0
  {
    DivLaw(a, b);
    hide Div;
  }

  lemma GdvIgnoresBuild(input: AppraisalInput, s: Shock, t: Shock)
    requires input.Valid() && s.sales == t.sales
    ensures Gdv(input, s) == Gdv(input, t)
  {
    hide Times;
  }

  lemma GridCell(input: AppraisalInput, metric: Metric, steps: seq<real>, r: nat, c: nat)
    requires input.Valid() && r < |steps| && c < |steps|
    ensures Grid(input, metric, steps)[r][c].value == At(input, metric, steps[c], steps[|steps| - 1 - r])
  {
    hide At, GridRow;
    var bd := steps[|steps| - 1 - r];
    CellShows(input, metric, steps, bd, c);
    assert Grid(input, metric, steps)[r] == GridRow(input, metric, steps, bd);
  }

  lemma CellShows(input: AppraisalInput, metric: Metric, steps: seq<real>, bd: real, c: nat)
    requires input.Valid() && c < |steps|
    ensures GridRow(input, metric, steps, bd)[c].value == At(input, metric, steps[c], bd)
  {
    hide At, Div, Appraise, MetricOf;
    assert GridRow(input, metric, steps, bd)[c] == CellAt(input, metric, steps[c], bd);
  }

  /** What a declared response means for a grid. */
  ghost predicate Responds(g: seq<seq<Cell>>, response: Response) {
    match response
    case Varies => true
    case GdvOnly => forall q, r, c :: 0 <= q < |g| && 0 <= r < |g| && 0 <= c < |g[q]| && c < |g[r]| ==>
                      g[q][c].value == g[r][c].value
    case Pinned => forall q, r, b, c :: 0 <= q < |g| && 0 <= r < |g| && 0 <= b < |g[q]| && 0 <= c < |g[r]| ==>
                      g[q][b].value == g[r][c].value
  }

  /** Columns that each show one value respond to sales alone, and not at all when the values are one. */
  lemma ColumnsRespond(g: seq<seq<Cell>>, columns: seq<real>)
    requires |g| == |columns| && forall r :: 0 <= r < |g| ==> |g[r]| == |columns|
    requires forall r, c :: 0 <= r < |g| && 0 <= c < |g[r]| ==> g[r][c].value == columns[c]
    ensures Responds(g, GdvOnly)
    ensures (forall b, c :: 0 <= b < |columns| && 0 <= c < |columns| ==> columns[b] == columns[c]) ==> Responds(g, Pinned)
  {
    forall q, r, c | 0 <= q < |g| && 0 <= r < |g| && 0 <= c < |g[q]| && c < |g[r]|
      ensures g[q][c].value == g[r][c].value
    {
      assert g[q][c].value == columns[c] == g[r][c].value;
    }
    if forall b, c :: 0 <= b < |columns| && 0 <= c < |columns| ==> columns[b] == columns[c] {
      forall q, r, b, c | 0 <= q < |g| && 0 <= r < |g| && 0 <= b < |g[q]| && 0 <= c < |g[r]|
        ensures g[q][b].value == g[r][c].value
      {
        assert g[q][b].value == columns[b] && g[r][c].value == columns[c];
      }
    }
  }

  /** The value a mode pins a metric to: the target's return, the target's share of value, or the fixed land price. */
  function PinnedValue(input: AppraisalInput, metric: Metric, gd: real): real
    requires input.Valid()
  {
    match metric
    case Roc => PinnedReturn(input.targetProfitOnGdvPct)
    case ProfitMetric => Percent(Gdv(input, Shock(1.0 + gd, 1.0)), input.targetProfitOnGdvPct)
    case ResidualMetric => input.landFixed
  }

  lemma PinnedCell(input: AppraisalInput, metric: Metric, gd: real, bd: real)
    requires input.Valid() && SensitivityStructure(input.mode).Of(metric) != Varies
    requires input.mode == Residual && metric == Roc ==>
      PinHolds(Gdv(input, Shock(1.0 + gd, 1.0 + bd)), input.targetProfitOnGdvPct)
    ensures At(input, metric, gd, bd) == PinnedValue(input, metric, gd)
  {
    hide Gdv, Div, TotalCost, Percent;
    var shock := Shock(1.0 + gd, 1.0 + bd);
    if input.mode == Residual {
      if metric == Roc { ReturnPinned(input, shock); }
      GdvIgnoresBuild(input, shock, Shock(1.0 + gd, 1.0));
    }
  }

  function PinnedColumns(input: AppraisalInput, metric: Metric, steps: seq<real>): (columns: seq<real>)
    requires input.Valid()
    ensures |columns| == |steps|
  {
    seq(|steps|, c requires 0 <= c < |steps| => PinnedValue(input, metric, steps[c]))
  }

  lemma PinnedToOne(input: AppraisalInput, metric: Metric, steps: seq<real>)
    requires input.Valid() && SensitivityStructure(input.mode).Of(metric) == Pinned
    ensures var columns := PinnedColumns(input, metric, steps);
            forall b, c :: 0 <= b < |columns| && 0 <= c < |columns| ==> columns[b] == columns[c]
  {
    hide Gdv, Percent, PinnedReturn;
  }

  lemma ColumnCell(input: AppraisalInput, metric: Metric, steps: seq<real>, r: nat, c: nat)
    requires input.Valid() && SensitivityStructure(input.mode).Of(metric) != Varies && r < |steps| && c < |steps|
    requires input.mode == Residual && metric == Roc ==>
      PinHolds(Gdv(input, Shock(1.0 + steps[c], 1.0 + steps[|steps| - 1 - r])), input.targetProfitOnGdvPct)
    ensures Grid(input, metric, steps)[r][c].value == PinnedColumns(input, metric, steps)[c]
  {
    hide Gdv, Grid, At, PinnedValue, SensitivityStructure, PinHolds;
    GridCell(input, metric, steps, r, c);
    PinnedCell(input, metric, steps[c], steps[|steps| - 1 - r]);
  }

  /** Every shocked value lets the return be pinned; positive values always do. */
  ghost predicate AllPinHold(input: AppraisalInput, steps: seq<real>)
    requires input.Valid()
  {
    forall i, j :: 0 <= i < |steps| && 0 <= j < |steps| ==>
      PinHolds(Gdv(input, Shock(1.0 + steps[i], 1.0 + steps[j])), input.targetProfitOnGdvPct)
  }

  /**
   * The grid does what its mode declares: a metric that does not vary shows one value the length of every column,
   * and that value is the target's return, the target's share of the column's value, or the fixed land price.
   */
  lemma StructureHolds(input: AppraisalInput, metric: Metric, steps: seq<real>)
    requires input.Valid() && (input.mode == Residual && metric == Roc ==> AllPinHold(input, steps))
    ensures Responds(Grid(input, metric, steps), SensitivityStructure(input.mode).Of(metric))
    ensures SensitivityStructure(input.mode).Of(metric) != Varies ==>
      forall r, c :: 0 <= r < |steps| && 0 <= c < |steps| ==>
        Grid(input, metric, steps)[r][c].value == PinnedValue(input, metric, steps[c])
  {
    var response := SensitivityStructure(input.mode).Of(metric);
    var g: seq<seq<Cell>> := Grid(input, metric, steps);
    hide Gdv, Grid, SensitivityStructure, PinHolds, PinnedValue;
    if response != Varies {
      forall r, c | 0 <= r < |g| && 0 <= c < |g[r]| ensures g[r][c].value == PinnedColumns(input, metric, steps)[c] {
        ColumnCell(input, metric, steps, r, c);
      }
      ColumnsRespond(g, PinnedColumns(input, metric, steps));
      if response == Pinned { PinnedToOne(input, metric, steps); }
      forall r, c | 0 <= r < |steps| && 0 <= c < |steps|
        ensures Grid(input, metric, steps)[r][c].value == PinnedValue(input, metric, steps[c])
      {
        assert g[r][c].value == PinnedColumns(input, metric, steps)[c];
      }
    }
  }

  /** Every cell of the grid shows one given value. */
  ghost predicate AllShow(g: seq<seq<Cell>>, value: real) {
    forall r, c :: 0 <= r < |g| && 0 <= c < |g[r]| ==> g[r][c].value == value
  }

  /** In residual mode every cell of the grid shows the target's return exactly when every shocked value lets it. */
  lemma GridPinnedExactly(input: AppraisalInput, steps: seq<real>)
    requires input.Valid() && input.mode == Residual
    ensures AllShow(Grid(input, Roc, steps), PinnedReturn(input.targetProfitOnGdvPct)) <==> AllPinHold(input, steps)
  {
    hide Grid, Appraise, Gdv, PinHolds, PinnedReturn;
    var n, pin := |steps|, PinnedReturn(input.targetProfitOnGdvPct);
    var g: seq<seq<Cell>> := Grid(input, Roc, steps);
    if AllShow(g, pin) {
      forall i, j | 0 <= i < n && 0 <= j < n
        ensures PinHolds(Gdv(input, Shock(1.0 + steps[i], 1.0 + steps[j])), input.targetProfitOnGdvPct)
      {
        PinShown(input, steps, n - 1 - j, i);
        assert g[n - 1 - j][i].value == pin;
      }
    }
    if AllPinHold(input, steps) {
      forall r, c | 0 <= r < |g| && 0 <= c < |g[r]| ensures g[r][c].value == pin {
        PinShown(input, steps, r, c);
      }
    }
  }

  lemma PinShown(input: AppraisalInput, steps: seq<real>, r: nat, c: nat)
    requires input.Valid() && input.mode == Residual && r < |steps| && c < |steps|
    ensures Grid(input, Roc, steps)[r][c].value == PinnedReturn(input.targetProfitOnGdvPct)
      <==> PinHolds(Gdv(input, Shock(1.0 + steps[c], 1.0 + steps[|steps| - 1 - r])), input.targetProfitOnGdvPct)
  {
    hide Grid, Appraise, Gdv, PinHolds, PinnedReturn;
    GridCell(input, Roc, steps, r, c);
    ReturnPinned(input, Shock(1.0 + steps[c], 1.0 + steps[|steps| - 1 - r]));
  }

  // ---------------------------------------------------------------- residual land value

  /** What disposal and the target leave of value, less the costs that do not depend on it. */
  lemma RemainderSplit(input: AppraisalInput, shock: Shock)
    requires input.Valid()
    ensures Gdv(input, shock) - CostsBeforeLand(input, shock) - TargetProfit(input, shock)
         == Times(Gdv(input, shock), 1.0 - (input.agentPct + input.legalPct + input.targetProfitOnGdvPct) / 100.0)
            - (Build(input, shock) + Fees(input, shock) + Contingency(input, shock) + OtherTotal(input, shock)
               + Finance(input, shock))
  {
    hide Gdv, Build, Fees, Contingency, OtherTotal, Finance;
  }

  /** Better sales and a cheaper build never lower what is left for land. */
  lemma ResidualRises(input: AppraisalInput, worse: Shock, better: Shock)
    requires input.Valid() && Sound(input) && input.mode == Residual
    requires 0.0 <= better.build <= worse.build && 0.0 <= worse.sales <= better.sales
    ensures ResidualNet(input, worse) <= ResidualNet(input, better)
  {
    hide Gdv, Build, Fees, Contingency, OtherTotal, Finance, Div, Times, CostsBeforeLand, TargetProfit, Sound,
         Cheaper, FlowOf, TotalMonths, SalesGdv, InvestmentValue;
    LandShare(input);
    hide Acquisition;
    RemainderSplit(input, worse);
    RemainderSplit(input, better);
    ValuesRise(input, worse, better);
    TotalsDearer(input, better, worse);
    FinanceFalls(input, better, worse);
    var keep := 1.0 - (input.agentPct + input.legalPct + input.targetProfitOnGdvPct) / 100.0;
    TimesMono(Gdv(input, worse), Gdv(input, better), keep);
    DivMono(Gdv(input, worse) - CostsBeforeLand(input, worse) - TargetProfit(input, worse),
            Gdv(input, better) - CostsBeforeLand(input, better) - TargetProfit(input, better), Acquisition(input));
  }

  lemma LandShare(input: AppraisalInput)
    requires input.Valid() && Sound(input)
    ensures Acquisition(input) > 0.0
    ensures 1.0 - (input.agentPct + input.legalPct + input.targetProfitOnGdvPct) / 100.0 >= 0.0
  {
  }

  // ---------------------------------------------------------------- profit

  /** Costs that disposal does not scale: construction, finance and land. */
  function OtherThanDisposal(input: AppraisalInput, shock: Shock): real
    requires input.Valid()
  {
    Build(input, shock) + Fees(input, shock) + Contingency(input, shock) + OtherTotal(input, shock)
    + Finance(input, shock) + LandGross(input, shock)
  }

  lemma CostSplit(input: AppraisalInput, shock: Shock)
    requires input.Valid()
    ensures TotalCost(input, shock)
         == Times(Gdv(input, shock), (input.agentPct + input.legalPct) / 100.0) + OtherThanDisposal(input, shock)
  {
    hide Gdv, Build, Fees, Contingency, OtherTotal, Finance, LandGross;
  }

  lemma FixedLand(input: AppraisalInput, s: Shock, t: Shock)
    requires input.Valid() && Sound(input) && input.mode == Profit
    ensures 0.0 <= LandGross(input, s) == LandGross(input, t)
  {
    hide Times;
    TimesMono(0.0, input.landFixed, Acquisition(input));
    MulNonNegative(input.landFixed, Acquisition(input));
    TimesMono(input.landFixed, input.landFixed, Acquisition(input));
  }

  lemma OtherCostsFall(input: AppraisalInput, worse: Shock, better: Shock)
    requires input.Valid() && Sound(input) && input.mode == Profit
    requires 0.0 <= better.build <= worse.build && 0.0 <= worse.sales <= better.sales
    ensures 0.0 <= OtherThanDisposal(input, better) <= OtherThanDisposal(input, worse)
  {
    hide Build, Fees, Contingency, OtherTotal, Finance, LandGross;
    TotalsDearer(input, better, worse);
    FinanceFalls(input, better, worse);
    FixedLand(input, better, worse);
  }

  lemma ProfitRises(input: AppraisalInput, worse: Shock, better: Shock)
    requires input.Valid() && Sound(input) && input.mode == Profit
    requires 0.0 <= better.build <= worse.build && 0.0 <= worse.sales <= better.sales
    ensures ProfitOf(input, worse) <= ProfitOf(input, better)
  {
    hide Gdv, OtherThanDisposal, Times, TotalCost;
    CostSplit(input, worse);
    CostSplit(input, better);
    ValuesRise(input, worse, better);
    OtherCostsFall(input, worse, better);
    var g, h, s := Gdv(input, worse), Gdv(input, better), (input.agentPct + input.legalPct) / 100.0;
    TimesMono(g, h, 1.0 - s);
    KeepAndShare(g, s);
    KeepAndShare(h, s);
  }

  lemma KeepAndShare(g: real, s: real)
    ensures g - Times(g, s) == Times(g, 1.0 - s)
  {
  }

  // ---------------------------------------------------------------- return on cost

  /** Return on cost is value over cost less one, so it orders as value over cost does. */
  lemma ReturnOrder(g: real, c: real, h: real, d: real)
    requires c > 0.0 && d > 0.0 && Times(g, d) <= Times(h, c)
    ensures Div(g - c, c) <= Div(h - d, d)
  {
    hide Div;
    DivLaw(g - c, c);
    DivLaw(h - d, d);
    var p, q := Div(g - c, c), Div(h - d, d);
    assert (p + 1.0) * c == g && (q + 1.0) * d == h;
    assert g * d == (p + 1.0) * (c * d) && h * c == (q + 1.0) * (c * d);
    MulStrict(0.0, c, d);
    if q < p { MulStrict(q + 1.0, p + 1.0, c * d); }
  }

  /** More value against no more cost per pound of value: the arithmetic of a sales step. */
  lemma SalesStep(g: real, h: real, s: real, r: real, t: real)
    requires 0.0 <= g <= h && 0.0 <= t <= r
    ensures Times(g, Times(h, s) + t) <= Times(h, Times(g, s) + r)
  {
    MulMono(t, r, g);
    MulMono(g, h, r);
    assert g * (h * s + t) == g * h * s + g * t;
    assert h * (g * s + r) == g * h * s + h * r;
  }

  /** With no construction cost nothing is drawn and finance is free. */
  lemma NoConstructionNoFinance(input: AppraisalInput, shock: Shock)
    requires input.Valid() && Sound(input) && shock.build >= 0.0 && ConstructionTotal(input, shock) == 0.0
    ensures Finance(input, shock) == 0.0
  {
    hide ConstrSeries, RevSeries, TotalMonths, ConstructionTotal, UnphasedBuild, UnphasedGia;
    Conservation.SpendConserved(input, shock);
    ConstructionCheapens(input, shock, shock);
    UnphasedDearer(input, shock, shock);
    TimesMono(0.0, UnphasedBuild(input, shock), input.OnCosts());
    DroppedNonNegative(input, shock);
    SumNonNegative(ConstrSeries(input, shock));
    var f := FlowOf(input, shock);
    forall m | 1 <= m < |f.draws| ensures f.draws[m] == 0.0 {
      assert ConstrSeries(input, shock)[m] == 0.0;
    }
    NoSpendNoFinance(f, TotalMonths(input));
  }

  lemma DroppedNonNegative(input: AppraisalInput, shock: Shock)
    requires input.Valid() && Sound(input) && shock.build >= 0.0
    ensures Conservation.Dropped(input, shock) >= 0.0
  {
    hide UnphasedBuild, UnphasedGia, Times;
    UnphasedDearer(input, shock, shock);
    TimesMono(UnphasedBuild(input, shock), UnphasedBuild(input, shock), input.OnCosts());
  }

  /** A scheme that costs nothing after disposal has no finance to shed. */
  lemma FreeSchemes(input: AppraisalInput, worse: Shock, better: Shock)
    requires input.Valid() && Sound(input) && input.mode == Profit
    requires 0.0 <= better.build == worse.build && 0.0 <= worse.sales <= better.sales
    requires OtherThanDisposal(input, better) == 0.0
    ensures OtherThanDisposal(input, worse) == 0.0
  {
    hide Build, Fees, Contingency, OtherTotal, Finance, LandGross;
    TotalsDearer(input, better, worse);
    TotalsDearer(input, worse, better);
    FinanceFalls(input, better, worse);
    FixedLand(input, better, worse);
    NoConstructionNoFinance(input, worse);
  }

  lemma ReturnAsRatio(input: AppraisalInput, shock: Shock)
    requires input.Valid()
    ensures ReturnOnCost(input, shock) == Ratio(Gdv(input, shock) - TotalCost(input, shock), TotalCost(input, shock))
  {
    hide Gdv, TotalCost, Ratio;
    ProfitIdentity(input, shock);
  }

  /** Return on cost never falls as sales rise. */
  lemma ReturnRisesWithSales(input: AppraisalInput, worse: Shock, better: Shock)
    requires input.Valid() && Sound(input) && input.mode == Profit
    requires 0.0 <= better.build == worse.build && 0.0 <= worse.sales <= better.sales
    ensures ReturnOnCost(input, worse) <= ReturnOnCost(input, better)
  {
    hide *;
    var s := (input.agentPct + input.legalPct) / 100.0;
    ReturnAsRatio(input, worse);
    ReturnAsRatio(input, better);
    CostSplit(input, worse);
    CostSplit(input, better);
    ValuesRise(input, worse, better);
    OtherCostsFall(input, worse, better);
    if OtherThanDisposal(input, better) == 0.0 { FreeSchemes(input, worse, better); }
    DisposalShare(input);
    SalesReturn(Gdv(input, worse), Gdv(input, better), s, OtherThanDisposal(input, worse),
                OtherThanDisposal(input, better), TotalCost(input, worse), TotalCost(input, better));
  }

  lemma DisposalShare(input: AppraisalInput)
    requires input.Valid() && Sound(input)
    ensures 0.0 <= (input.agentPct + input.legalPct) / 100.0 <= 1.0
  {
  }

  lemma SalesReturn(g: real, h: real, s: real, r: real, t: real, c: real, d: real)
    requires 0.0 <= g <= h && 0.0 <= s <= 1.0 && 0.0 <= t <= r && (t == 0.0 ==> r == 0.0)
    requires c == Times(g, s) + r && d == Times(h, s) + t
    ensures Ratio(g - c, c) <= Ratio(h - d, d)
  {
    hide Div, Times;
    TimesMono(g, h, s);
    TimesMono(h, h, s);
    if c > 0.0 && d > 0.0 {
      SalesStep(g, h, s, r, t);
      ReturnOrder(g, c, h, d);
    } else if d > 0.0 {
      TimesMono(s, 1.0, h);
      WholeShare(h);
      DivPositive(h - d, d);
    }
  }

  lemma WholeShare(h: real)
    ensures Times(1.0, h) == h && Times(h, 1.0) == h
  {
  }

  /** A scheme made altogether free reports a return of zero; that is the only way the return can fall. */
  lemma ReturnFallsOnlyToFree(input: AppraisalInput, dear: Shock, cheap: Shock)
    requires input.Valid() && Sound(input) && input.mode == Profit
    requires 0.0 <= cheap.build <= dear.build && 0.0 <= dear.sales == cheap.sales
    ensures ReturnOnCost(input, dear) <= ReturnOnCost(input, cheap)
      <==> !(TotalCost(input, cheap) == 0.0 && 0.0 < TotalCost(input, dear) < Gdv(input, dear))
  {
    hide *;
    ReturnAsRatio(input, dear);
    ReturnAsRatio(input, cheap);
    CostSplit(input, dear);
    CostSplit(input, cheap);
    GdvIgnoresBuild(input, dear, cheap);
    ValuesRise(input, dear, cheap);
    OtherCostsFall(input, dear, cheap);
    DisposalShare(input);
    var g := Gdv(input, dear);
    TimesMono(g, g, (input.agentPct + input.legalPct) / 100.0);
    BuildReturn(g, TotalCost(input, dear), TotalCost(input, cheap));
  }

  lemma BuildReturn(g: real, c: real, d: real)
    requires 0.0 <= g && 0.0 <= d <= c
    ensures Ratio(g - c, c) <= Ratio(g - d, d) <==> !(d == 0.0 && 0.0 < c < g)
  {
    hide Div, Times;
    if d > 0.0 {
      TimesMono(d, c, g);
      ReturnOrder(g, c, g, d);
    } else if c > 0.0 {
      DivPositive(g - c, c);
      DivUnique(0.0, c, 0.0);
      if g <= c { DivMono(g - c, 0.0, c); }
    }
  }

  // ---------------------------------------------------------------- free schemes

  /** A scheme costs nothing exactly when its sales, its construction and its land each cost nothing. */
  lemma FreeExactly(input: AppraisalInput, shock: Shock)
    requires input.Valid() && Sound(input) && input.mode == Profit && 0.0 <= shock.build && 0.0 <= shock.sales
    ensures TotalCost(input, shock) == 0.0
      <==> SaleCosts(input, shock) == 0.0 && ConstructionTotal(input, shock) == 0.0 && LandGross(input, shock) == 0.0
    ensures TotalCost(input, shock)
         == SaleCosts(input, shock) + ConstructionTotal(input, shock) + Finance(input, shock) + LandGross(input, shock)
    ensures 0.0 <= SaleCosts(input, shock) && 0.0 <= ConstructionTotal(input, shock) && 0.0 <= Finance(input, shock)
  {
    hide *;
    TotalParts(input, shock);
    SaleCostsNonNegative(input, shock);
    TotalsDearer(input, shock, shock);
    FinanceFalls(input, shock, shock);
    FixedLand(input, shock, shock);
    if ConstructionTotal(input, shock) == 0.0 { NoConstructionNoFinance(input, shock); }
  }

  lemma SaleCostsNonNegative(input: AppraisalInput, shock: Shock)
    requires input.Valid() && Sound(input) && 0.0 <= shock.sales
    ensures 0.0 <= SaleCosts(input, shock)
  {
    hide Gdv, Percent;
    ValuesRise(input, shock, shock);
    PercentMono(0.0, Gdv(input, shock), input.agentPct + input.legalPct);
    PercentOfNil(input.agentPct + input.legalPct);
  }

  lemma PercentOfNil(pct: real)
    ensures Percent(0.0, pct) == 0.0
  {
  }

  lemma TotalParts(input: AppraisalInput, shock: Shock)
    requires input.Valid()
    ensures TotalCost(input, shock)
         == SaleCosts(input, shock) + ConstructionTotal(input, shock) + Finance(input, shock) + LandGross(input, shock)
    ensures ConstructionTotal(input, shock)
         == Build(input, shock) + Fees(input, shock) + Contingency(input, shock) + OtherTotal(input, shock)
    ensures SaleCosts(input, shock) == Percent(Gdv(input, shock), input.agentPct + input.legalPct)
  {
    hide Build, Fees, Contingency, OtherTotal, Finance, LandGross, Percent, Gdv;
  }

  lemma NilOverheads(input: AppraisalInput, shock: Shock)
    requires input.Valid() && input.mode == Profit && input.landFixed == 0.0 && input.agentPct + input.legalPct == 0.0
    ensures SaleCosts(input, shock) == 0.0 == LandGross(input, shock)
  {
    hide Gdv, Acquisition;
    NilTimes(Gdv(input, shock));
    TimesAssociates(Gdv(input, shock), 0.0, 1.0);
    NilTimes(Acquisition(input));
    hide Times;
  }

  /** Land, disposal and the other costs are all free: nothing but the build costs anything. */
  ghost predicate GivenAway(input: AppraisalInput) {
    && input.landFixed == 0.0 && input.agentPct + input.legalPct == 0.0
    && OtherTotal(input, Shock(1.0, 1.0)) == 0.0
  }

  /** Built at a cost, and worth more than that and the finance for it. */
  ghost predicate Profits(input: AppraisalInput, shock: Shock)
    requires input.Valid()
  {
    0.0 < ConstructionTotal(input, shock) && ConstructionTotal(input, shock) + Finance(input, shock) < Gdv(input, shock)
  }

  lemma OtherFixed(input: AppraisalInput, s: Shock, t: Shock)
    ensures OtherTotal(input, s) == OtherTotal(input, t)
  {
    hide Times, Percent, PhaseGia, PhaseShares, PhaseStart, PhaseBuildMonths;
    SumOfSame(OtherOf, Phases(input, s), OtherOf, Phases(input, t));
  }

  /** What a scheme costs when everything but the build is free. */
  lemma GivenAwayCosts(input: AppraisalInput, shock: Shock)
    requires input.Valid() && input.mode == Profit && GivenAway(input)
    ensures SaleCosts(input, shock) == 0.0 == LandGross(input, shock)
    ensures ConstructionTotal(input, shock) == BuildScale.BuildCost(input, shock)
  {
    GivenAwayIs(input);
    BuildCostIs(input, shock);
    hide *;
    OtherFixed(input, shock, Shock(1.0, 1.0));
    TotalParts(input, shock);
    NilOverheads(input, shock);
  }

  lemma BuildCostIs(input: AppraisalInput, shock: Shock)
    requires input.Valid()
    ensures BuildScale.BuildCost(input, shock) == Build(input, shock) + Fees(input, shock) + Contingency(input, shock)
  {
    hide Build, Fees, Contingency;
  }

  /** A free scheme under a profitable dearer one: the land, disposal and other costs free, and the build shocked away. */
  lemma FreeBelowProfit(input: AppraisalInput, dear: Shock, cheap: Shock)
    requires input.Valid() && Sound(input) && input.mode == Profit
    requires 0.0 <= cheap.build <= dear.build && 0.0 <= dear.sales == cheap.sales
    ensures TotalCost(input, cheap) == 0.0 && 0.0 < TotalCost(input, dear) < Gdv(input, dear)
      <==> GivenAway(input) && cheap.build == 0.0 && Profits(input, dear)
  {
    FreeExactly(input, cheap);
    FreeExactly(input, dear);
    BuildScale.NilBuild(input, cheap, dear);
    GdvIgnoresBuild(input, dear, cheap);
    if GivenAway(input) {
      GivenAwayCosts(input, cheap);
      GivenAwayCosts(input, dear);
      hide *;
    } else if TotalCost(input, cheap) == 0.0 && 0.0 < Gdv(input, dear) {
      FreeIsGivenAway(input, cheap);
    }
  }

  lemma FreeIsGivenAway(input: AppraisalInput, shock: Shock)
    requires input.Valid() && Sound(input) && input.mode == Profit && 0.0 <= shock.build && 0.0 <= shock.sales
    requires TotalCost(input, shock) == 0.0 && 0.0 < Gdv(input, shock)
    ensures GivenAway(input)
  {
    hide *;
    FreeExactly(input, shock);
    TotalParts(input, shock);
    TotalsDearer(input, shock, shock);
    OtherFixed(input, shock, Shock(1.0, 1.0));
    LandShare(input);
    LandIs(input, shock);
    FreeFactor(input.landFixed, Acquisition(input));
    FreePercent(Gdv(input, shock), input.agentPct + input.legalPct);
    GivenAwayIs(input);
  }

  lemma LandIs(input: AppraisalInput, shock: Shock)
    requires input.Valid() && input.mode == Profit
    ensures LandGross(input, shock) == Times(input.landFixed, Acquisition(input))
  {
  }

  lemma GivenAwayIs(input: AppraisalInput)
    ensures GivenAway(input) <==>
      input.landFixed == 0.0 && input.agentPct + input.legalPct == 0.0 && OtherTotal(input, Shock(1.0, 1.0)) == 0.0
  {
  }

  lemma FreeFactor(x: real, w: real)
    requires w != 0.0
    ensures Times(x, w) == 0.0 ==> x == 0.0
  {
    if Times(x, w) == 0.0 { MulCancel(x, 0.0, w); }
  }

  lemma FreePercent(x: real, pct: real)
    requires x != 0.0
    ensures Percent(x, pct) == 0.0 ==> pct == 0.0
  {
    if Percent(x, pct) == 0.0 { MulCancel(pct, 0.0, x); }
  }

  /**
   * Return on cost does not fall as build cost drops, exactly unless land, disposal and other costs are all free,
   * the multiplier takes the whole build away, and the dearer scheme makes a profit.
   */
  lemma ReturnRisesAsBuildFalls(input: AppraisalInput, dear: Shock, cheap: Shock)
    requires input.Valid() && Sound(input) && input.mode == Profit
    requires 0.0 <= cheap.build <= dear.build && 0.0 <= dear.sales == cheap.sales
    ensures ReturnOnCost(input, dear) <= ReturnOnCost(input, cheap)
      <==> !(GivenAway(input) && cheap.build == 0.0 && Profits(input, dear))
  {
    ReturnFallsOnlyToFree(input, dear, cheap);
    FreeBelowProfit(input, dear, cheap);
  }

  /** The exception, concretely: one unit worth £2 built for £1, on land that was free and with no loan. */
  function FreeLand(): (input: AppraisalInput)
    ensures input.Valid() && input.mode == Profit && input.landFixed == 0.0 && input.agentPct + input.legalPct == 0.0
  {
    AppraisalInput(
      [AppraisalUnit(1.0, 1.0, 2.0)], [], 100.0, [BuildTrade(1.0, None)], 0.0, 0.0, [],
      FinanceInput(0.0, 0.0, 12.0, 6.0, 0.0, None, None), Profit, 0.0, 0.0, 0.0, 0.0, 0.0, None)
  }

  lemma FreeLandSums()
    ensures SumOf(UnitValue, AllUnits(FreeLand())) == 2.0
    ensures SumOf(UnitArea, AllUnits(FreeLand())) == 1.0 == SumOf(Rate, FreeLand().trades)
  {
    var unit, trade := FreeLand().units[0], FreeLand().trades[0];
    assert AllUnits(FreeLand()) == [unit] && FreeLand().trades == [trade];
    SumOfOne(UnitValue, unit);
    SumOfOne(UnitArea, unit);
    SumOfOne(Rate, trade);
    hide SumOf, AllUnits;
  }

  lemma FreeLandArea()
    ensures Gia(FreeLand()) == 1.0
  {
    FreeLandSums();
    hide SumOf, AllUnits, Div;
    assert Nia(FreeLand()) == 1.0 && Efficiency(FreeLand()) == 1.0;
    hide Nia, Efficiency;
    DivUnique(1.0, 1.0, 1.0);
  }

  lemma FreeLandRate(build: real)
    ensures !FreeLand().Phased() && SchemeRate(FreeLand(), Shock(1.0, build)) == build
  {
    FreeLandSums();
    WholeShare(build);
    hide SumOf, Times;
  }

  lemma FreeLandUnphased(build: real)
    ensures UnphasedBuild(FreeLand(), Shock(1.0, build)) == build
  {
    FreeLandMode();
    FreeLandRate(build);
    FreeLandArea();
    hide *;
    Conservation.UnphasedBuildIsAll(FreeLand(), Shock(1.0, build));
    WholeShare(build);
  }

  lemma FreeLandBuild(build: real)
    ensures Build(FreeLand(), Shock(1.0, build)) == build
    ensures Fees(FreeLand(), Shock(1.0, build)) == Contingency(FreeLand(), Shock(1.0, build)) == 0.0
    ensures OtherTotal(FreeLand(), Shock(1.0, build)) == 0.0
  {
    FreeLandUnphased(build);
    Conservation.NoPhaseSums(FreeLand(), Shock(1.0, build));
    EmptySum();
    NilTimes(build);
    hide SumOf, UnphasedBuild;
  }

  lemma EmptySum()
    ensures SumOf(Amount, []) == 0.0
  {
  }

  lemma FreeLandGdv(build: real)
    ensures Gdv(FreeLand(), Shock(1.0, build)) == 2.0
  {
    FreeLandSums();
    WholeShare(2.0);
    hide SumOf, Times, AllUnits;
  }

  lemma FreeLandOverheads(build: real)
    ensures SaleCosts(FreeLand(), Shock(1.0, build)) == 0.0 == LandGross(FreeLand(), Shock(1.0, build))
  {
    hide FreeLand;
    NilOverheads(FreeLand(), Shock(1.0, build));
  }

  lemma FreeLandFigures(build: real)
    requires build >= 0.0
    ensures Gdv(FreeLand(), Shock(1.0, build)) == 2.0 && TotalCost(FreeLand(), Shock(1.0, build)) == build
  {
    FreeLandGdv(build);
    FreeLandOverheads(build);
    FreeLandBuild(build);
    FreeLandFinance(build);
    hide FreeLand, Gdv, Build, Fees, Contingency, OtherTotal, Finance, SaleCosts, LandGross;
  }

  lemma FreeLandSound()
    ensures Sound(FreeLand())
  {
    FreeLandFields();
    hide FreeLand;
    var input := FreeLand();
    assert SoundUnits(input.units) && SoundTrades(input.trades) && SoundCosts(input.otherCosts);
  }

  lemma FreeLandFields()
    ensures var input := FreeLand();
            && input.units == [AppraisalUnit(1.0, 1.0, 2.0)] && input.trades == [BuildTrade(1.0, None)]
            && input.phases == [] && input.otherCosts == [] && input.income == None
            && input.profFeePct == 0.0 == input.contingencyPct && input.targetProfitOnGdvPct == 0.0 == input.acqPct
            && input.finance.ltcPct == 0.0 == input.finance.ratePct && input.finance.arrangementFeePct == 0.0
  {
  }

  /** With nothing borrowed, finance costs nothing, whatever is spent and whatever sells. */
  lemma NoLoanNoFinance(input: AppraisalInput, shock: Shock)
    requires input.Valid() && LoanToCost(input) == 0.0
    ensures Finance(input, shock) == 0.0
  {
    hide ConstrSeries, RevSeries, TotalMonths;
    var f := FlowOf(input, shock);
    forall m | 1 <= m < |f.draws| ensures f.draws[m] == 0.0 { NothingDrawn(ConstrSeries(input, shock)[m]); }
    NoSpendNoFinance(f, TotalMonths(input));
    PercentOfNil(input.finance.arrangementFeePct);
    hide Draw, Percent;
  }

  lemma NothingDrawn(spend: real)
    ensures Draw(spend, 0.0) == 0.0
  {
  }

  lemma FreeLandFinance(build: real)
    ensures Finance(FreeLand(), Shock(1.0, build)) == 0.0
  {
    FreeLandFields();
    hide FreeLand;
    NoLoanNoFinance(FreeLand(), Shock(1.0, build));
  }

  /** What is worth £2 and costs £1 returns 100%; once that £1 is taken away the return reported is nothing. */
  lemma FreeBuildLosesReturn()
    ensures ReturnOnCost(FreeLand(), Shock(1.0, 1.0)) == 1.0
    ensures ReturnOnCost(FreeLand(), Shock(1.0, 0.0)) == 0.0
  {
    hide *;
    FreeLandMode();
    FreeLandFigures(1.0);
    FreeLandFigures(0.0);
    ReturnAsRatio(FreeLand(), Shock(1.0, 1.0));
    ReturnAsRatio(FreeLand(), Shock(1.0, 0.0));
    WholeAndNothing(1.0);
  }

  lemma WholeAndNothing(x: real)
    ensures x > 0.0 ==> Ratio(x, x) == 1.0
    ensures forall y :: Ratio(y, 0.0) == 0.0
  {
    if x > 0.0 { DivUnique(x, x, 1.0); }
  }

  lemma FreeLandMode()
    ensures FreeLand().Valid() && FreeLand().mode == Profit
  {
  }

  // ---------------------------------------------------------------- the unpinned return

  /** The same unit, appraised for the land value that leaves a fifth of what it sells for. */
  function TargetScheme(): (input: AppraisalInput)
    ensures input.Valid() && input.mode == Residual && input.targetProfitOnGdvPct == 20.0
  {
    FreeLand().(mode := Residual, targetProfitOnGdvPct := 20.0)
  }

  lemma TargetSchemeUnits()
    ensures AllUnits(TargetScheme()) == AllUnits(FreeLand()) && TargetScheme().income == None
  {
    hide Flatten;
  }

  /** With nothing let, value is what the units sell for. */
  lemma SalesAreAll(input: AppraisalInput, shock: Shock)
    requires input.Valid() && input.income == None
    ensures Gdv(input, shock) == Times(SumOf(UnitValue, AllUnits(input)), shock.sales)
  {
    hide SumOf, AllUnits, Times;
  }

  lemma TargetSchemeGdv(sales: real)
    ensures Gdv(TargetScheme(), Shock(sales, 1.0)) == Times(2.0, sales)
  {
    hide *;
    FreeLandSums();
    TargetSchemeUnits();
    TargetSchemeMode();
    SalesAreAll(TargetScheme(), Shock(sales, 1.0));
  }

  lemma TargetSchemeMode()
    ensures TargetScheme().Valid() && TargetScheme().mode == Residual && TargetScheme().targetProfitOnGdvPct == 20.0
  {
  }

  /** What the scheme returns on cost with its sales shocked. */
  function TargetReturn(sales: real): real { Appraise(TargetScheme(), Shock(sales, 1.0)).poc }

  lemma TargetReturnIs(sales: real)
    ensures TargetReturn(sales) == Appraise(TargetScheme(), Shock(sales, 1.0)).poc
  {
    hide Appraise;
  }

  /** It returns the quarter its target stands for; with its sales shocked away it returns nothing. */
  lemma UnsoldIsUnpinned()
    ensures TargetReturn(1.0) == PinnedReturn(20.0) == 0.25
    ensures TargetReturn(0.0) == 0.0
  {
    hide *;
    TargetReturnIs(1.0);
    TargetReturnIs(0.0);
    TargetSchemeMode();
    TargetSchemeGdv(1.0);
    WholeShare(2.0);
    ReturnPinned(TargetScheme(), Shock(1.0, 1.0));
    QuarterPin();
    TargetSchemeGdv(0.0);
    NilTimes(2.0);
    ReturnIs(TargetScheme(), Shock(0.0, 1.0));
    ResidualIdentity(TargetScheme(), Shock(0.0, 1.0));
    PercentOfNil(20.0);
    WholeAndNothing(0.0);
  }

  lemma QuarterPin()
    ensures PinnedReturn(20.0) == 0.25 && !PinHolds(0.0, 20.0) && PinHolds(2.0, 20.0)
  {
    DivUnique(20.0, 80.0, 0.25);
  }

  /** So a grid that steps sales down to -100% is not pinned, though its structure says so. */
  lemma UnsoldGridIsUnpinned()
    ensures SensitivityStructure(TargetScheme().mode).Of(Roc) == Pinned
    ensures !Responds(Grid(TargetScheme(), Roc, [-1.0, 0.0]), Pinned)
  {
    hide Appraise, Grid, TargetScheme, PinnedReturn, TargetReturn;
    UnsoldIsUnpinned();
    TargetReturnIs(1.0);
    TargetReturnIs(0.0);
    var steps := [-1.0, 0.0];
    var g: seq<seq<Cell>> := Grid(TargetScheme(), Roc, steps);
    GridCell(TargetScheme(), Roc, steps, 0, 0);
    GridCell(TargetScheme(), Roc, steps, 0, 1);
    assert g[0][0].value != g[0][1].value;
  }

  // ---------------------------------------------------------------- the grid

  ghost predicate Ascending(steps: seq<real>) {
    && (forall i :: 0 <= i < |steps| ==> steps[i] >= -1.0)
    && (forall i, j :: 0 <= i <= j < |steps| ==> steps[i] <= steps[j])
  }

  /** The metrics a mode lets vary in both directions. */
  predicate Moves(mode: SiteMode, metric: Metric) {
    if mode == Residual then metric == ResidualMetric else metric != ResidualMetric
  }

  /** Left to right across a row, no cell falls. */
  ghost predicate RowsRise(g: seq<seq<Cell>>) {
    forall r, b, c :: 0 <= r < |g| && 0 <= b <= c < |g[r]| ==> g[r][b].value <= g[r][c].value
  }

  /** Down a column, no cell falls. */
  ghost predicate ColumnsRise(g: seq<seq<Cell>>) {
    forall q, r, c :: 0 <= q <= r < |g| && 0 <= c < |g[q]| && c < |g[r]| ==> g[q][c].value <= g[r][c].value
  }

  lemma StepRight(input: AppraisalInput, metric: Metric, gd: real, hd: real, bd: real)
    requires input.Valid() && Sound(input) && Moves(input.mode, metric)
    requires -1.0 <= gd <= hd && -1.0 <= bd
    ensures At(input, metric, gd, bd) <= At(input, metric, hd, bd)
  {
    hide Sound, Gdv, TotalCost, ReturnOnCost, ProfitOf, ResidualNet;
    var a, b := Shock(1.0 + gd, 1.0 + bd), Shock(1.0 + hd, 1.0 + bd);
    match metric {
      case Roc => ReturnRisesWithSales(input, a, b);
      case ProfitMetric => ProfitRises(input, a, b);
      case ResidualMetric => ResidualRises(input, a, b);
    }
  }

  /** A cell whose build is shocked away altogether, when nothing else costs anything, below one that makes a profit. */
  ghost predicate LosesReturn(input: AppraisalInput, gd: real, dear: real, cheap: real)
    requires input.Valid()
  {
    GivenAway(input) && cheap == -1.0 && Profits(input, Shock(1.0 + gd, 1.0 + dear))
  }

  lemma StepDown(input: AppraisalInput, metric: Metric, gd: real, dear: real, cheap: real)
    requires input.Valid() && Sound(input) && Moves(input.mode, metric)
    requires -1.0 <= gd && -1.0 <= cheap <= dear
    ensures At(input, metric, gd, dear) <= At(input, metric, gd, cheap)
      <==> !(metric == Roc && LosesReturn(input, gd, dear, cheap))
  {
    var a, b := Shock(1.0 + gd, 1.0 + dear), Shock(1.0 + gd, 1.0 + cheap);
    MetricShown(input, metric, gd, dear);
    MetricShown(input, metric, gd, cheap);
    assert input.mode == Residual <==> metric == ResidualMetric;
    hide Sound, GivenAway, Profits, At, Moves;
    match metric {
      case Roc => ReturnRisesAsBuildFalls(input, a, b);
      case ProfitMetric => ProfitRises(input, a, b);
      case ResidualMetric => ResidualRises(input, a, b);
    }
  }

  lemma MetricShown(input: AppraisalInput, metric: Metric, gd: real, bd: real)
    requires input.Valid()
    ensures var shock := Shock(1.0 + gd, 1.0 + bd);
            At(input, metric, gd, bd) == match metric
              case Roc => ReturnOnCost(input, shock)
              case ProfitMetric => ProfitOf(input, shock)
              case ResidualMetric => ResidualNet(input, shock)
  {
    hide ReturnOnCost, ProfitOf, ResidualNet, Gdv, TotalCost;
  }

  /** Left to right: for any ascending steps, in any scheduling branch, the moving metric never falls. */
  lemma GridRowsRise(input: AppraisalInput, metric: Metric, steps: seq<real>)
    requires input.Valid() && Sound(input) && Moves(input.mode, metric) && Ascending(steps)
    ensures RowsRise(Grid(input, metric, steps))
  {
    hide At, Sound, Grid;
    var n := |steps|;
    var g: seq<seq<Cell>> := Grid(input, metric, steps);
    forall r, b, c | 0 <= r < |g| && 0 <= b <= c < |g[r]| ensures g[r][b].value <= g[r][c].value {
      GridCell(input, metric, steps, r, b);
      GridCell(input, metric, steps, r, c);
      StepRight(input, metric, steps[b], steps[c], steps[n - 1 - r]);
    }
  }

  lemma CellsFall(input: AppraisalInput, metric: Metric, steps: seq<real>, q: nat, r: nat, c: nat)
    requires input.Valid() && Sound(input) && Moves(input.mode, metric) && Ascending(steps)
    requires q <= r < |steps| && c < |steps|
    ensures Grid(input, metric, steps)[q][c].value <= Grid(input, metric, steps)[r][c].value
      <==> !(metric == Roc && GivenAway(input) && steps[|steps| - 1 - r] == -1.0 && ProfitsAt(input, steps, q, c))
  {
    hide At, Sound, Grid, GivenAway, Profits;
    var n := |steps|;
    GridCell(input, metric, steps, q, c);
    GridCell(input, metric, steps, r, c);
    StepDown(input, metric, steps[c], steps[n - 1 - q], steps[n - 1 - r]);
  }

  /** The cell in row `q` and column `c` is built at a cost and makes a profit. */
  ghost predicate ProfitsAt(input: AppraisalInput, steps: seq<real>, q: nat, c: nat)
    requires input.Valid() && q < |steps| && c < |steps|
  {
    Profits(input, Shock(1.0 + steps[c], 1.0 + steps[|steps| - 1 - q]))
  }

  ghost predicate SomeProfit(input: AppraisalInput, steps: seq<real>)
    requires input.Valid()
  {
    exists q, c :: 0 <= q < |steps| && 0 <= c < |steps| && ProfitsAt(input, steps, q, c)
  }

  /** The first step that leaves some of what it is applied to. */
  function FirstAbove(steps: seq<real>): (p: nat)
    ensures p <= |steps| && (p < |steps| ==> steps[p] > -1.0)
    ensures forall i :: 0 <= i < p ==> steps[i] <= -1.0
  {
    if |steps| == 0 || steps[0] > -1.0 then 0 else 1 + FirstAbove(steps[1..])
  }

  /** The best sales step against the deepest build step short of -100% makes a profit. */
  ghost predicate BestProfits(input: AppraisalInput, steps: seq<real>)
    requires input.Valid()
  {
    var p := FirstAbove(steps);
    p < |steps| && Profits(input, Shock(1.0 + steps[|steps| - 1], 1.0 + steps[p]))
  }

  /** When all but the build is free, a profit is a reported profit on a build that costs something. */
  lemma GivenAwayProfits(input: AppraisalInput, shock: Shock)
    requires input.Valid() && input.mode == Profit && GivenAway(input)
    ensures Profits(input, shock) <==> 0.0 < BuildScale.BuildCost(input, shock) && 0.0 < ProfitOf(input, shock)
  {
    GivenAwayCosts(input, shock);
    ProfitIdentity(input, shock);
    TotalParts(input, shock);
    hide GivenAway, ProfitOf, Gdv, TotalCost, ConstructionTotal, Finance, SaleCosts, LandGross;
  }

  lemma BestIsBest(input: AppraisalInput, cell: Shock, best: Shock)
    requires input.Valid() && Sound(input) && input.mode == Profit && GivenAway(input)
    requires 0.0 < best.build <= cell.build && 0.0 <= cell.sales <= best.sales
    ensures Profits(input, cell) ==> Profits(input, best)
  {
    hide *;
    GivenAwayProfits(input, cell);
    GivenAwayProfits(input, best);
    GivenAwayCosts(input, best);
    ProfitRises(input, cell, best);
    BuildScale.NilBuild(input, best, cell);
    TotalsDearer(input, best, best);
    TotalParts(input, best);
  }

  /** Some cell makes a profit exactly when the best of those that cost something does. */
  lemma BestDecides(input: AppraisalInput, steps: seq<real>)
    requires input.Valid() && Sound(input) && input.mode == Profit && Ascending(steps) && GivenAway(input)
    ensures SomeProfit(input, steps) <==> BestProfits(input, steps)
  {
    hide Sound, GivenAway, Profits;
    var n, p := |steps|, FirstAbove(steps);
    if BestProfits(input, steps) { assert ProfitsAt(input, steps, n - 1 - p, n - 1); }
    if SomeProfit(input, steps) {
      var q, c :| 0 <= q < n && 0 <= c < n && ProfitsAt(input, steps, q, c);
      var cell := Shock(1.0 + steps[c], 1.0 + steps[n - 1 - q]);
      NeedsBuild(input, cell);
      assert p <= n - 1 - q;
      BestIsBest(input, cell, Shock(1.0 + steps[n - 1], 1.0 + steps[p]));
    }
  }

  lemma NeedsBuild(input: AppraisalInput, shock: Shock)
    requires input.Valid() && input.mode == Profit && GivenAway(input) && Profits(input, shock)
    ensures shock.build != 0.0
  {
    hide *;
    GivenAwayProfits(input, shock);
    BuildScale.NilBuild(input, shock, shock);
  }

  /** The grid's last row takes the whole build away from a scheme nothing else of which costs anything. */
  ghost predicate BottomIsFree(input: AppraisalInput, steps: seq<real>) {
    GivenAway(input) && |steps| > 0 && steps[0] == -1.0
  }

  lemma SomeColumnFalls(input: AppraisalInput, steps: seq<real>)
    requires input.Valid() && Sound(input) && Moves(input.mode, Roc) && Ascending(steps)
    requires BottomIsFree(input, steps) && SomeProfit(input, steps)
    ensures !ColumnsRise(Grid(input, Roc, steps))
  {
    hide Sound, Grid, ProfitsAt, Moves, Ascending, GivenAway;
    var n := |steps|;
    var g: seq<seq<Cell>> := Grid(input, Roc, steps);
    var q, c :| 0 <= q < n && 0 <= c < n && ProfitsAt(input, steps, q, c);
    CellsFall(input, Roc, steps, q, n - 1, c);
    assert !(g[q][c].value <= g[n - 1][c].value);
  }

  lemma EveryColumnRises(input: AppraisalInput, metric: Metric, steps: seq<real>)
    requires input.Valid() && Sound(input) && Moves(input.mode, metric) && Ascending(steps)
    requires !(metric == Roc && BottomIsFree(input, steps) && SomeProfit(input, steps))
    ensures ColumnsRise(Grid(input, metric, steps))
  {
    hide Sound, Grid, ProfitsAt, Moves, GivenAway;
    var n := |steps|;
    var g: seq<seq<Cell>> := Grid(input, metric, steps);
    forall q, r, c | 0 <= q <= r < |g| && 0 <= c < |g[q]| && c < |g[r]| ensures g[q][c].value <= g[r][c].value {
      CellsFall(input, metric, steps, q, r, c);
      assert -1.0 <= steps[0] <= steps[n - 1 - r];
    }
  }

  /**
   * Top to bottom likewise; for return on cost, exactly unless the bottom row is altogether free and one cell makes a
   * profit, the best sales step against the deepest build step short of -100%.
   */
  lemma GridColumnsRise(input: AppraisalInput, metric: Metric, steps: seq<real>)
    requires input.Valid() && Sound(input) && Moves(input.mode, metric) && Ascending(steps)
    ensures ColumnsRise(Grid(input, metric, steps))
      <==> !(metric == Roc && BottomIsFree(input, steps) && BestProfits(input, steps))
  {
    if metric == Roc && BottomIsFree(input, steps) { BestDecides(input, steps); }
    hide *;
    if metric == Roc && BottomIsFree(input, steps) && SomeProfit(input, steps) {
      SomeColumnFalls(input, steps);
    } else {
      EveryColumnRises(input, metric, steps);
    }
  }

  /** Land that was paid for, disposal or other costs that were charged, or a step short of -100%: every column rises. */
  lemma PaidColumnsRise(input: AppraisalInput, metric: Metric, steps: seq<real>)
    requires input.Valid() && Sound(input) && Moves(input.mode, metric) && Ascending(steps)
    requires input.landFixed > 0.0 || input.agentPct + input.legalPct > 0.0 || OtherTotal(input, Shock(1.0, 1.0)) > 0.0
             || (|steps| > 0 && steps[0] > -1.0)
    ensures ColumnsRise(Grid(input, metric, steps))
  {
    GridColumnsRise(input, metric, steps);
    hide Sound, Grid, BestProfits, ColumnsRise, OtherTotal;
  }
}
