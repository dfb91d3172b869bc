/** The residual / profit appraisal: programme, facility and solve. */
module Engine {
  import opened Numbers
  import opened Spend
  import opened Absorption
  import opened Scheme
  import opened Facility
  import CashSeries
  import Construction
  import Irr
  import Valuation

  function MonthlyRate(input: AppraisalInput): real { input.finance.ratePct / 100.0 / 12.0 }

  function LoanToCost(input: AppraisalInput): real { input.finance.ltcPct / 100.0 }

  /** What the facility sees of the scheme. */
  function FlowOf(input: AppraisalInput, shock: Shock): (f: Flow)
    requires input.Valid()
    ensures |f.draws| == |f.revs| == TotalMonths(input) + 1
  {
    Flow(Draws(ConstrSeries(input, shock), LoanToCost(input)), RevSeries(input, shock), MonthlyRate(input))
  }

  function InterestCost(input: AppraisalInput, shock: Shock): real
    requires input.Valid()
  {
    TotalInterest(FlowOf(input, shock), TotalMonths(input))
  }

  /** The facility is sized at the highest closing balance. */
  function PeakDebt(input: AppraisalInput, shock: Shock): real
    requires input.Valid()
  {
    Peak(FlowOf(input, shock), TotalMonths(input))
  }

  function Arrangement(input: AppraisalInput, shock: Shock): real
    requires input.Valid()
  {
    Percent(PeakDebt(input, shock), input.finance.arrangementFeePct)
  }

  function Finance(input: AppraisalInput, shock: Shock): real
    requires input.Valid()
  {
    InterestCost(input, shock) + Arrangement(input, shock)
  }

  /** Everything but land. */
  function CostsBeforeLand(input: AppraisalInput, shock: Shock): real
    requires input.Valid()
  {
    SaleCosts(input, shock) + Build(input, shock) + Fees(input, shock) + Contingency(input, shock)
    + OtherTotal(input, shock) + Finance(input, shock)
  }

  function Acquisition(input: AppraisalInput): (a: real)
    requires input.Valid()
    ensures a != 0.0
  {
    1.0 + input.acqPct / 100.0
  }

  /** Residual mode: the target is a share of value, and the land takes what is left. */
  function TargetProfit(input: AppraisalInput, shock: Shock): real
    requires input.Valid()
  {
    Percent(Gdv(input, shock), input.targetProfitOnGdvPct)
  }

  function ResidualNet(input: AppraisalInput, shock: Shock): real
    requires input.Valid()
  {
    if input.mode == Residual then
      Div(Gdv(input, shock) - CostsBeforeLand(input, shock) - TargetProfit(input, shock), Acquisition(input))
    else input.landFixed
  }

  function LandGross(input: AppraisalInput, shock: Shock): real
    requires input.Valid()
  {
    Times(ResidualNet(input, shock), Acquisition(input))
  }

  function TotalCost(input: AppraisalInput, shock: Shock): real
    requires input.Valid()
  {
    CostsBeforeLand(input, shock) + LandGross(input, shock)
  }

  function ProfitOf(input: AppraisalInput, shock: Shock): real
    requires input.Valid()
  {
    if input.mode == Residual then TargetProfit(input, shock) else Gdv(input, shock) - TotalCost(input, shock)
  }

  /** A ratio reported as zero when there is nothing to divide by. */
  function Ratio(a: real, b: real): real { if b > 0.0 then Div(a, b) else 0.0 }

  /** `poc`: profit on cost. */
  function ReturnOnCost(input: AppraisalInput, shock: Shock): real
    requires input.Valid()
  {
    Ratio(ProfitOf(input, shock), TotalCost(input, shock))
  }

  /** A phase as the result reports it: its programme, its areas and value, and its own costs. */
  datatype PhaseRow = PhaseRow(
    start: nat, buildMonths: nat, salesMonths: nat, practicalCompletion: nat, end: nat,
    nia: real, gia: real, gdv: real, trades: seq<BuildTrade>, ownTrades: bool, buildRate: real,
    build: real, fees: real, cont: real, cost: real, otherTotal: real, unitCount: real)

  function PhaseRowOf(input: AppraisalInput, shock: Shock, p: Phase): PhaseRow {
    var pc := CalcPhase(input, shock, p);
    PhaseRow(
      pc.start, pc.buildMonths, |pc.share|, PracticalCompletion(p), PhaseEnd(p),
      SumOf(UnitArea, p.units), pc.gia, pc.gdv, pc.trades, |p.trades| > 0,
      Times(SumOf(Rate, PhaseTrades(input, p)), shock.build),
      pc.build, pc.fees, pc.cont, pc.Cost(), pc.otherTotal, SumOf(UnitCount, p.units))
  }

  function PhaseRows(input: AppraisalInput, shock: Shock): (rows: Option<seq<PhaseRow>>)
    ensures rows.Some? <==> input.Phased()
    ensures rows.Some? ==> |rows.value| == |input.phases|
  {
    if input.Phased() then
      Some(seq(|input.phases|, i requires 0 <= i < |input.phases| => PhaseRowOf(input, shock, input.phases[i])))
    else None
  }

  function IncomeOf(input: AppraisalInput): Option<Valuation.IncomeResult>
    requires input.Valid()
  {
    if input.income.Some? then Some(Valuation.Capitalise(input.income.value)) else None
  }

  datatype Figures = Figures(
    nia: real, gia: real, gdv: real, salesGdv: real, investmentValue: real,
    income: Option<Valuation.IncomeResult>, phases: Option<seq<PhaseRow>>, buildRate: real,
    build: real, fees: real, cont: real, otherTotal: real, saleCosts: real,
    interest: real, arrangement: real, finance: real, facility: real, equity: real,
    residualNet: real, landGross: real, acqCost: real, profit: real, totalCost: real,
    poc: real, rogdv: real, roe: real, period: nat, salesMonths: nat, holdYears: real)

  /** The appraisal as a function of its inputs and the two multipliers. */
  function Appraise(input: AppraisalInput, shock: Shock): Figures
    requires input.Valid()
  {
    SalesFollowBuild(input);
    var equity := LandGross(input, shock) + Times(ConstructionTotal(input, shock), 1.0 - LoanToCost(input));
    Figures(
      Nia(input), Gia(input), Gdv(input, shock), SalesGdv(input, shock), InvestmentValue(input, shock),
      IncomeOf(input), PhaseRows(input, shock),
      if Gia(input) > 0.0 then Div(Build(input, shock), Gia(input)) else SchemeRate(input, shock),
      Build(input, shock), Fees(input, shock), Contingency(input, shock), OtherTotal(input, shock),
      SaleCosts(input, shock), InterestCost(input, shock), Arrangement(input, shock), Finance(input, shock),
      PeakDebt(input, shock), equity, ResidualNet(input, shock), LandGross(input, shock),
      LandGross(input, shock) - ResidualNet(input, shock), ProfitOf(input, shock), TotalCost(input, shock),
      ReturnOnCost(input, shock), Ratio(ProfitOf(input, shock), Gdv(input, shock)),
      Ratio(ProfitOf(input, shock), equity), BuildPeriod(input), TotalMonths(input) - BuildPeriod(input),
      TotalMonths(input) as real / 12.0)
  }

  // ---------------------------------------------------------------- the monthly ledger

  datatype CashflowRow = CashflowRow(m: nat, cost: real, intr: real, rev: real, net: real, cum: real)

  /** A row's figures; land falls in month 1 and the cumulative position carries forward. */
  function LedgerRow(input: AppraisalInput, shock: Shock, m: nat): CashflowRow
    requires input.Valid() && 1 <= m <= TotalMonths(input)
    decreases m
  {
    var cost := ConstrSeries(input, shock)[m] + (if m == 1 then LandGross(input, shock) else 0.0);
    var intr, rev := Interest(FlowOf(input, shock), m), RevSeries(input, shock)[m];
    var before := if m == 1 then 0.0 else LedgerRow(input, shock, m - 1).cum;
    CashflowRow(m, cost, intr, rev, rev - cost - intr, before + (rev - cost - intr))
  }

  function Ledger(input: AppraisalInput, shock: Shock): (rows: seq<CashflowRow>)
    requires input.Valid()
    ensures |rows| == TotalMonths(input)
  {
    seq(TotalMonths(input), i requires 0 <= i < TotalMonths(input) => LedgerRow(input, shock, i + 1))
  }

  /** The cash view: the ledger, the peak, and the annual rates of return before and after borrowing. */
  datatype Cash = Cash(
    rows: seq<CashflowRow>, totalMonths: nat, peak: real, projIrr: Option<real>, eqIrr: Option<real>)

  function ProjectSeries(input: AppraisalInput, shock: Shock): (cf: seq<real>)
    requires input.Valid()
    ensures |cf| == TotalMonths(input) + 1
  {
    CashSeries.Ungeared(ConstrSeries(input, shock), RevSeries(input, shock), LandGross(input, shock))
  }

  /** All the facility ever draws and charges. */
  function DebtIncurred(input: AppraisalInput, shock: Shock): real
    requires input.Valid()
  {
    var f, total := FlowOf(input, shock), TotalMonths(input);
    Drawn(f, total) + TotalInterest(f, total)
  }

  function EquitySeries(input: AppraisalInput, shock: Shock): (cf: seq<real>)
    requires input.Valid()
    ensures |cf| == TotalMonths(input) + 1
  {
    CashSeries.Geared(ConstrSeries(input, shock), RevSeries(input, shock), LandGross(input, shock), LoanToCost(input),
                      DebtIncurred(input, shock))
  }

  function CashOf(input: AppraisalInput, shock: Shock): Cash
    requires input.Valid()
  {
    Cash(Ledger(input, shock), TotalMonths(input), PeakDebt(input, shock),
         CashSeries.Annualise(Irr.Rate(ProjectSeries(input, shock))),
         CashSeries.Annualise(Irr.Rate(EquitySeries(input, shock))))
  }

  // ---------------------------------------------------------------- the engine's own passes

  /** A phase's sales, month by month from the one after it completes; the guard never has anything to turn away. */
  method AddPhaseSales(revs: array<real>, net: real, completion: nat, share: seq<real>, total: nat)
    requires revs.Length == total + 1 && Spread(net, completion + 1, share).Fits(revs.Length)
    modifies revs
    ensures revs[..] == AddSpread(old(revs[..]), Spread(net, completion + 1, share))
  {
    hide Times;
    ghost var x := Spread(net, completion + 1, share);
    ghost var before := revs[..];
    for i := 0 to |share|
      invariant revs[..] == AddMonths(before, x, i)
    {
      AddMonthsStep(before, x, i);
      var m := completion + 1 + i;
      if m <= total { revs[m] := revs[m] + Times(net, share[i]); }
    }
  }

  /** The held element's value in equal parts over the months after the build. */
  method AddHeldSale(revs: array<real>, net: real, P: nat)
    requires P + 1 < revs.Length
    modifies revs
    ensures revs[..] == AddSpread(old(revs[..]), Spread(net, P + 1, FlatShares(revs.Length - 1 - P)))
  {
    hide Times, Div;
    var window := revs.Length - 1 - P;
    ghost var x := Spread(net, P + 1, FlatShares(window));
    ghost var before := revs[..];
    DivReciprocal(net, window as real);
    assert Div(net, window as real) == Times(net, Div(1.0, window as real)) by { TimesIs(net, Div(1.0, window as real)); }
    for i := 0 to window
      invariant revs[..] == AddMonths(before, x, i)
    {
      AddMonthsStep(before, x, i);
      revs[P + 1 + i] := revs[P + 1 + i] + Div(net, window as real);
    }
  }

  lemma TimesIs(a: real, b: real)
    ensures Times(a, b) == a * b
  {
  }

  /** An unphased scheme's sales, written month by month. */
  method LaySales(revs: array<real>, saleNet: real, P: nat, revShare: seq<real>)
    requires revs[..] == Zeros(revs.Length) && revs.Length == P + |revShare| + 1
    modifies revs
    ensures revs[..] == AddSpread(old(revs[..]), Spread(saleNet, P + 1, revShare))
  {
    hide Times;
    ghost var x := Spread(saleNet, P + 1, revShare);
    for m := P + 1 to revs.Length
      invariant revs[..] == AddMonths(Zeros(revs.Length), x, m - P - 1)
    {
      AddMonthsStep(Zeros(revs.Length), x, m - P - 1);
      revs[m] := Times(saleNet, revShare[m - P - 1]);
    }
  }

  /** Fills `revSeries`: each phase sells as it completes and the held element once everything is, or one sales spread. */
  method LayReceipts(input: AppraisalInput, shock: Shock) returns (revs: array<real>)
    requires input.Valid()
    ensures fresh(revs) && revs[..] == RevSeries(input, shock)
  {
    hide RevSeries, TotalMonths, BuildPeriod, Gdv, SaleCosts, SchemeShares, AddSpread;
    SalesFollowBuild(input);
    var total, P := TotalMonths(input), BuildPeriod(input);
    revs := new real[total + 1](_ => 0.0);
    assert revs[..] == Zeros(total + 1);
    if input.Phased() {
      LayPhasedReceipts(input, shock, revs);
    } else {
      SalesFill(input);
      SalesSeries(input, shock);
      LaySales(revs, Gdv(input, shock) - SaleCosts(input, shock), P, SchemeShares(input));
    }
  }

  lemma SalesFill(input: AppraisalInput)
    requires !input.Phased()
    ensures TotalMonths(input) == BuildPeriod(input) + |SchemeShares(input)|
  {
    hide BuildPeriod, SchemeShares;
  }

  lemma SalesSeries(input: AppraisalInput, shock: Shock)
    requires input.Valid() && !input.Phased()
    ensures RevSeries(input, shock)
         == AddSpread(Zeros(TotalMonths(input) + 1),
                      Spread(Gdv(input, shock) - SaleCosts(input, shock), BuildPeriod(input) + 1, SchemeShares(input)))
  {
    hide Gdv, SaleCosts, SchemeShares, BuildPeriod, TotalMonths, AddSpread;
    Construction.SingleSpread(Zeros(TotalMonths(input) + 1),
      Spread(Gdv(input, shock) - SaleCosts(input, shock), BuildPeriod(input) + 1, SchemeShares(input)));
  }

  method LayPhasedReceipts(input: AppraisalInput, shock: Shock, revs: array<real>)
    requires input.Valid() && input.Phased() && revs[..] == Zeros(TotalMonths(input) + 1)
    modifies revs
    ensures revs[..] == RevSeries(input, shock)
  {
    hide RevSeries, TotalMonths, BuildPeriod, CalcPhase, Times, Percent, AddSpread, ApplyAll, NetOfDisposal,
         InvestmentValue, PhaseReceipts, FlatShares;
    SalesFollowBuild(input);
    PhasedReceiptSeries(input, shock);
    var total, P, ps := TotalMonths(input), BuildPeriod(input), Phases(input, shock);
    ghost var zeros := revs[..];
    ghost var sales := PhaseReceipts(input, ps);
    NoneApplied(zeros, sales);
    for i := 0 to |ps|
      invariant revs[..] == ApplyAll(zeros, sales[..i])
    {
      var p := ps[i];
      OneMoreApplied(zeros, sales, i);
      SaleFits(input, shock, i);
      AddPhaseSales(revs, Times(p.gdv, NetOfDisposal(input)), p.start + p.buildMonths - 1, p.share, total);
    }
    assert sales[..|ps|] == sales;
    if InvestmentValue(input, shock) > 0.0 {
      AddHeldSale(revs, Times(InvestmentValue(input, shock), NetOfDisposal(input)), P);
    }
  }

  /** What a phase's receipts are, and that they end inside the programme. */
  lemma SaleFits(input: AppraisalInput, shock: Shock, i: nat)
    requires input.Valid() && input.Phased() && i < |input.phases|
    ensures var p := Phases(input, shock)[i];
            && p.start >= 1
            && PhaseReceipts(input, Phases(input, shock))[i]
               == Spread(Times(p.gdv, NetOfDisposal(input)), p.start + p.buildMonths - 1 + 1, p.share)
            && Spread(Times(p.gdv, NetOfDisposal(input)), p.start + p.buildMonths - 1 + 1, p.share).Fits(TotalMonths(input) + 1)
  {
    ReceiptsFit(input, shock);
    Construction.PhaseWindow(input, shock, i);
    hide CalcPhase, TotalMonths, HeldReceipts, Times;
    var sales := PhaseReceipts(input, Phases(input, shock));
    assert Receipts(input, shock)[i] == sales[i];
  }

  lemma NoneApplied(s: seq<real>, xs: seq<Spread>)
    ensures ApplyAll(s, xs[..0]) == s
  {
  }

  lemma OneMoreApplied(s: seq<real>, xs: seq<Spread>, i: nat)
    requires i < |xs|
    ensures ApplyAll(s, xs[..i + 1]) == AddSpread(ApplyAll(s, xs[..i]), xs[i])
  {
    assert xs[..i + 1][..i] == xs[..i];
  }

  /** The phases' sales, and then the held element's if it has a value, are the phased receipts. */
  lemma PhasedReceiptSeries(input: AppraisalInput, shock: Shock)
    requires input.Valid() && input.Phased() && BuildPeriod(input) < TotalMonths(input)
    ensures var sold := ApplyAll(Zeros(TotalMonths(input) + 1), PhaseReceipts(input, Phases(input, shock)));
            RevSeries(input, shock) ==
              if InvestmentValue(input, shock) > 0.0 then
                AddSpread(sold, Spread(Times(InvestmentValue(input, shock), NetOfDisposal(input)), BuildPeriod(input) + 1,
                                       FlatShares(TotalMonths(input) - BuildPeriod(input))))
              else sold
  {
    hide ApplyAll, AddSpread, TotalMonths, BuildPeriod, PhaseReceipts, InvestmentValue, FlatShares, Times;
    var zeros, sales := Zeros(TotalMonths(input) + 1), PhaseReceipts(input, Phases(input, shock));
    if InvestmentValue(input, shock) > 0.0 {
      var held := HeldReceipts(input, shock)[0];
      assert Receipts(input, shock) == sales + [held];
      ApplyAllSnoc(zeros, sales, held);
    } else {
      assert Receipts(input, shock) == sales + [] == sales;
    }
  }

  lemma ReceiptsFit(input: AppraisalInput, shock: Shock)
    requires input.Valid()
    ensures AllFit(Receipts(input, shock), TotalMonths(input) + 1)
    ensures AllWeightsNonNegative(Receipts(input, shock))
  {
    hide Times, Gdv, SaleCosts, InvestmentValue, CalcPhase, Shares, PhaseShares, SchemeShares, FlatShares;
    SalesFollowBuild(input);
    if input.Phased() {
      var ps := Phases(input, shock);
      forall i | 0 <= i < |ps|
        ensures PhaseReceipts(input, ps)[i].Fits(TotalMonths(input) + 1) && PhaseReceipts(input, ps)[i].NonNegativeWeights()
      {
        Construction.PhaseWindow(input, shock, i);
        PhaseSharesNonNegative(input.phases[i]);
      }
      FlatNonNegative(TotalMonths(input) - BuildPeriod(input));
    } else {
      SchemeSharesNonNegative(input);
    }
  }

  lemma PhaseSharesNonNegative(p: Phase)
    ensures forall k :: 0 <= k < |PhaseShares(p)| ==> PhaseShares(p)[k] >= 0.0
  {
    SharesNonNegative(SumOf(UnitCount, p.units), p.absorptionUnitsPerMonth, p.salesMonths, 24);
  }

  lemma SchemeSharesNonNegative(input: AppraisalInput)
    ensures forall k :: 0 <= k < |SchemeShares(input)| ==> SchemeShares(input)[k] >= 0.0
  {
    SharesNonNegative(SumOf(UnitCount, AllUnits(input)), input.finance.absorptionUnitsPerMonth,
                      input.finance.salesMonths, 8);
  }

  lemma FlatNonNegative(n: nat)
    requires n > 0
    ensures forall k :: 0 <= k < n ==> FlatShares(n)[k] >= 0.0
  {
    DivPositive(1.0, n as real);
  }

  /** `computeAppraisal`: lay the spend and the receipts, run the facility, solve, and write the ledger if asked. */
  method ComputeAppraisal(input: AppraisalInput, shock: Shock, withCash: bool)
    returns (r: Figures, cash: Option<Cash>)
    requires input.Valid()
    ensures r == Appraise(input, shock)
    ensures cash == if withCash then Some(CashOf(input, shock)) else None
  {
    hide ConstrSeries, RevSeries, Times, Percent, Div, ConstructionTotal, Build, Fees, Contingency, OtherTotal, Gdv,
         Gia, Nia, SchemeRate, InvestmentValue, SalesGdv, BuildPeriod, CashOf, IncomeOf, PhaseRows;
    var total := TotalMonths(input);
    hide TotalMonths;
    var constr := Construction.LayConstruction(input, shock);
    var revs := LayReceipts(input, shock);
    var intSeries, interest, peak, drawn, bal :=
      RunFacility(constr, revs, MonthlyRate(input), LoanToCost(input), total);
    var gdv, saleCosts := Gdv(input, shock), SaleCosts(input, shock);
    var build, fees, cont := Build(input, shock), Fees(input, shock), Contingency(input, shock);
    var other, construction := OtherTotal(input, shock), ConstructionTotal(input, shock);
    var arrangement := Percent(peak, input.finance.arrangementFeePct);
    var finance := interest + arrangement;
    var costs := saleCosts + build + fees + cont + other + finance;
    var residualNet, landGross, profit;
    if input.mode == Residual {
      profit := Percent(gdv, input.targetProfitOnGdvPct);
      residualNet := Div(gdv - costs - profit, Acquisition(input));
      landGross := Times(residualNet, Acquisition(input));
    } else {
      residualNet := input.landFixed;
      landGross := Times(input.landFixed, Acquisition(input));
      profit := gdv - (costs + landGross);
    }
    var totalCost := costs + landGross;
    var equity := landGross + Times(construction, 1.0 - LoanToCost(input));
    var gia := Gia(input);
    SalesFollowBuild(input);
    r := Figures(
      Nia(input), gia, gdv, SalesGdv(input, shock), InvestmentValue(input, shock),
      IncomeOf(input), PhaseRows(input, shock),
      if gia > 0.0 then Div(build, gia) else SchemeRate(input, shock),
      build, fees, cont, other, saleCosts, interest, arrangement, finance, peak, equity,
      residualNet, landGross, landGross - residualNet, profit, totalCost,
      Ratio(profit, totalCost), Ratio(profit, gdv), Ratio(profit, equity),
      BuildPeriod(input), total - BuildPeriod(input), total as real / 12.0);
    cash := None;
    if withCash {
      var view := CashView(input, shock, constr, revs, intSeries, landGross, drawn, interest, peak);
      cash := Some(view);
    }
  }

  /** The cash view: the ledger, and the two series with their rates of return. */
  method CashView(input: AppraisalInput, shock: Shock, constr: array<real>, revs: array<real>, intSeries: array<real>,
                  landGross: real, drawn: real, interest: real, peak: real)
    returns (cash: Cash)
    requires input.Valid() && landGross == LandGross(input, shock)
    requires constr[..] == ConstrSeries(input, shock) && revs[..] == RevSeries(input, shock)
    requires intSeries.Length == TotalMonths(input) + 1
    requires forall m :: 0 <= m <= TotalMonths(input) ==> intSeries[m] == Interest(FlowOf(input, shock), m)
    requires drawn + interest == DebtIncurred(input, shock) && peak == PeakDebt(input, shock)
    ensures cash == CashOf(input, shock)
  {
    hide ConstrSeries, RevSeries, LandGross, Interest, DebtIncurred, PeakDebt, Ledger, TotalMonths, Irr.Rate,
         CashSeries.Ungeared, CashSeries.Geared, CashSeries.Annualise;
    var rows := WriteLedger(input, shock, constr, revs, intSeries, landGross);
    var cfU := CashSeries.LayUngeared(constr, revs, landGross);
    var cfE := CashSeries.LayGeared(constr, revs, landGross, LoanToCost(input), drawn + interest);
    var projRate := Irr.InternalRate(cfU[..]);
    var eqRate := Irr.InternalRate(cfE[..]);
    cash := Cash(rows, TotalMonths(input), peak, CashSeries.Annualise(projRate), CashSeries.Annualise(eqRate));
  }

  /** `net = rev − cost − interest`, with a running total. */
  method WriteLedger(input: AppraisalInput, shock: Shock, constr: array<real>, revs: array<real>,
                     intSeries: array<real>, landGross: real)
    returns (rows: seq<CashflowRow>)
    requires input.Valid() && landGross == LandGross(input, shock)
    requires constr[..] == ConstrSeries(input, shock) && revs[..] == RevSeries(input, shock)
    requires intSeries.Length == TotalMonths(input) + 1
    requires forall m :: 0 <= m <= TotalMonths(input) ==> intSeries[m] == Interest(FlowOf(input, shock), m)
    ensures rows == Ledger(input, shock)
  {
    hide ConstrSeries, RevSeries, LandGross, Interest;
    rows := [];
    var cum := 0.0;
    for m := 1 to TotalMonths(input) + 1
      invariant rows == Ledger(input, shock)[..m - 1]
      invariant cum == if m == 1 then 0.0 else LedgerRow(input, shock, m - 1).cum
    {
      var cost := constr[m] + (if m == 1 then landGross else 0.0);
      var net := revs[m] - cost - intSeries[m];
      cum := cum + net;
      rows := rows + [CashflowRow(m, cost, intSeries[m], revs[m], net, cum)];
      assert rows[m - 1] == LedgerRow(input, shock, m);
    }
  }
}
