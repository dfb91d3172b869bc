/** The reported figures as a statement of account: each against the others and the input's own percentages. */
module Accounts {
  import opened Numbers
  import opened Absorption
  import opened Scheme
  import opened Facility
  import opened Engine
  import opened Windows
  import CashSeries
  import Closing = Ledger
  import Conservation
  import Irr
  import Valuation

  /** So many per cent of `x`. */
  function PerCent(x: real, pct: real): real { x * pct / 100.0 }

  // ---------------------------------------------------------------- the facility, month by month

  /** What is left owing once a month's receipts, if there are any, have gone to it. */
  function Settled(owed: real, rev: real): real { if rev > 0.0 then owed - (if rev <= owed then rev else owed) else owed }

  lemma RowIs(input: AppraisalInput, shock: Shock, m: nat)
    requires input.Valid() && 1 <= m <= TotalMonths(input)
    ensures Ledger(input, shock)[m - 1] == LedgerRow(input, shock, m)
    ensures Ledger(input, shock)[m - 1].intr == Interest(FlowOf(input, shock), m)
  {
    hide ConstrSeries, RevSeries, LandGross, Interest, TotalMonths, FlowOf;
  }

  lemma LandIsReported(input: AppraisalInput, shock: Shock)
    requires input.Valid()
    ensures Appraise(input, shock).landGross == LandGross(input, shock)
  {
    hide SalesGdv, Gia, Nia, PhaseRows, Build, Fees, Contingency, OtherTotal, BuildPeriod, TotalMonths, Gdv, IncomeOf,
         SaleCosts, ResidualNet, LandGross, TotalCost, ProfitOf, ReturnOnCost, Times, Div, Finance, InterestCost, PeakDebt;
  }

  /** A row of the ledger: land with the first month's spend, and a position that carries forward from nothing. */
  lemma RowAddsUp(input: AppraisalInput, shock: Shock, m: nat)
    requires input.Valid() && 1 <= m <= TotalMonths(input)
    ensures var rows := Ledger(input, shock);
            var row := rows[m - 1];
            && row.m == m && row.rev == RevSeries(input, shock)[m]
            && row.cost == ConstrSeries(input, shock)[m] + (if m == 1 then Appraise(input, shock).landGross else 0.0)
            && row.net == row.rev - row.cost - row.intr
            && row.cum == (if m == 1 then 0.0 else rows[m - 2].cum) + row.net
  {
    hide *;
    LandIsReported(input, shock);
    RowIs(input, shock, m);
    RowUnfolds(input, shock, m);
    if m > 1 { RowIs(input, shock, m - 1); }
  }

  lemma RowUnfolds(input: AppraisalInput, shock: Shock, m: nat)
    requires input.Valid() && 1 <= m <= TotalMonths(input)
    ensures var row := LedgerRow(input, shock, m);
            && row.m == m && row.rev == RevSeries(input, shock)[m]
            && row.cost == ConstrSeries(input, shock)[m] + (if m == 1 then LandGross(input, shock) else 0.0)
            && row.net == row.rev - row.cost - row.intr
            && row.cum == (if m == 1 then 0.0 else LedgerRow(input, shock, m - 1).cum) + row.net
  {
    hide ConstrSeries, RevSeries, LandGross, Interest, TotalMonths, FlowOf;
  }

  lemma FlowIs(input: AppraisalInput, shock: Shock, m: nat)
    requires input.Valid() && m <= TotalMonths(input)
    ensures var f := FlowOf(input, shock);
            && f.Valid() && f.rate == input.finance.ratePct / 100.0 / 12.0
            && f.draws[m] == PerCent(ConstrSeries(input, shock)[m], input.finance.ltcPct)
            && f.revs[m] == RevSeries(input, shock)[m]
  {
    hide ConstrSeries, RevSeries, TotalMonths;
    assert FlowOf(input, shock).draws[m] == Draw(ConstrSeries(input, shock)[m], LoanToCost(input));
    DrawIs(ConstrSeries(input, shock)[m], input.finance.ltcPct);
    hide Draw, PerCent;
  }

  lemma DrawIs(spend: real, pct: real)
    ensures Draw(spend, pct / 100.0) == PerCent(spend, pct)
  {
  }

  lemma BalanceStep(f: Flow, m: nat)
    requires f.Valid() && 1 <= m < |f.draws|
    ensures Balance(f, 0) == 0.0 && Interest(f, m) == Accrued(Balance(f, m - 1), f.rate)
    ensures Balance(f, m) == Settled(Balance(f, m - 1) + Interest(f, m) + f.draws[m], f.revs[m])
  {
    hide Accrued;
  }

  lemma RateIs(pct: real, bal: real)
    ensures 1200.0 * Accrued(bal, pct / 100.0 / 12.0) == pct * bal
  {
  }

  /**
   * Twelve times a month's interest is the annual rate on what the month before closed at; the loan's share of the
   * month's spend is drawn, and receipts go to the debt first.
   */
  lemma FacilityRuns(input: AppraisalInput, shock: Shock, m: nat)
    requires input.Valid() && 1 <= m <= TotalMonths(input)
    ensures var f, row := FlowOf(input, shock), Ledger(input, shock)[m - 1];
            && Balance(f, 0) == 0.0 && 1200.0 * row.intr == input.finance.ratePct * Balance(f, m - 1)
            && Balance(f, m) == Settled(Balance(f, m - 1) + row.intr
                                        + PerCent(ConstrSeries(input, shock)[m], input.finance.ltcPct),
                                        RevSeries(input, shock)[m])
  {
    hide *;
    RowIs(input, shock, m);
    FlowIs(input, shock, m);
    BalanceStep(FlowOf(input, shock), m);
    RateIs(input.finance.ratePct, Balance(FlowOf(input, shock), m - 1));
  }

  lemma QuietMonth(f: Flow, m: nat)
    requires f.Valid() && 1 <= m < |f.draws| && f.draws[m] == 0.0 && f.revs[m] <= 0.0
    ensures Balance(f, m) == Balance(f, m - 1) * (1.0 + f.rate)
  {
  }

  /** Left alone for `k` months, neither drawn on nor repaid, a debt grows by a twelfth of the annual rate each month. */
  lemma {:induction false} DebtCompounds(input: AppraisalInput, shock: Shock, a: nat, k: nat)
    requires input.Valid() && a + k <= TotalMonths(input)
    requires forall m :: a < m <= a + k ==> ConstrSeries(input, shock)[m] == 0.0 && RevSeries(input, shock)[m] <= 0.0
    ensures var f := FlowOf(input, shock);
            Balance(f, a + k) == Balance(f, a) * Pow(1.0 + input.finance.ratePct / 1200.0, k)
  {
    hide *;
    var f, g := FlowOf(input, shock), 1.0 + input.finance.ratePct / 1200.0;
    FlowIs(input, shock, a);
    if k == 0 {
      PowZero(g);
    } else {
      DebtCompounds(input, shock, a, k - 1);
      FlowIs(input, shock, a + k);
      NilPerCent(input.finance.ltcPct);
      QuietMonth(f, a + k);
      PowStep(g, k);
      Grows(Balance(f, a), Pow(g, k - 1), g, Balance(f, a + k - 1), Balance(f, a + k), Pow(g, k));
    }
  }

  lemma Grows(start: real, p: real, g: real, before: real, after: real, q: real)
    requires before == start * p && after == before * g && q == g * p
    ensures after == start * q
  {
    assert start * p * g == start * (g * p);
  }

  lemma NilPerCent(pct: real)
    ensures PerCent(0.0, pct) == 0.0
  {
  }

  function RowInterest(row: CashflowRow): real { row.intr }

  /** The ledger's interest adds up to what is reported, and the facility is sized at its highest closing balance. */
  lemma FacilitySized(input: AppraisalInput, shock: Shock)
    requires input.Valid()
    ensures var r, f := Appraise(input, shock), FlowOf(input, shock);
            && r.interest == SumOf((row: CashflowRow) => row.intr, Ledger(input, shock))
            && r.finance == r.interest + r.arrangement
            && r.arrangement == PerCent(r.facility, input.finance.arrangementFeePct)
            && (forall m :: 0 <= m <= TotalMonths(input) ==> Balance(f, m) <= r.facility)
            && (exists m :: 0 <= m <= TotalMonths(input) && Balance(f, m) == r.facility)
  {
    FinanceReported(input, shock);
    hide *;
    FlowIs(input, shock, 0);
    PeakIsMaximum(FlowOf(input, shock), TotalMonths(input));
    InterestAddsUp(input, shock, TotalMonths(input));
    WholeLedger(input, shock);
    SumOfSame(RowInterest, Ledger(input, shock), (row: CashflowRow) => row.intr, Ledger(input, shock)) by {
      forall i | 0 <= i < |Ledger(input, shock)|
        ensures RowInterest(Ledger(input, shock)[i]) == ((row: CashflowRow) => row.intr)(Ledger(input, shock)[i])
      {
        RowInterestIs(Ledger(input, shock)[i]);
      }
    }
  }

  lemma RowInterestIs(row: CashflowRow)
    ensures RowInterest(row) == row.intr
  {
  }

  lemma FinanceReported(input: AppraisalInput, shock: Shock)
    requires input.Valid()
    ensures var r, f := Appraise(input, shock), FlowOf(input, shock);
            && f.Valid() && r.interest == TotalInterest(f, TotalMonths(input)) && r.facility == Peak(f, TotalMonths(input))
            && r.finance == r.interest + r.arrangement
            && r.arrangement == PerCent(r.facility, input.finance.arrangementFeePct)
  {
    FlowIs(input, shock, 0);
    FeeIs(PeakDebt(input, shock), input.finance.arrangementFeePct);
    hide SalesGdv, Gia, Nia, PhaseRows, Build, Fees, Contingency, OtherTotal, BuildPeriod, TotalMonths, Gdv, IncomeOf,
         SaleCosts, ResidualNet, LandGross, TotalCost, ProfitOf, ReturnOnCost, Times, Div, Peak, TotalInterest, FlowOf,
         Percent, PerCent;
  }

  lemma FeeIs(x: real, pct: real)
    ensures Percent(x, pct) == PerCent(x, pct)
  {
  }

  lemma WholeLedger(input: AppraisalInput, shock: Shock)
    requires input.Valid()
    ensures Ledger(input, shock)[..TotalMonths(input)] == Ledger(input, shock)
  {
    hide TotalMonths, LedgerRow;
  }

  lemma {:induction false} InterestAddsUp(input: AppraisalInput, shock: Shock, m: nat)
    requires input.Valid() && m <= TotalMonths(input) && FlowOf(input, shock).Valid()
    ensures TotalInterest(FlowOf(input, shock), m) == SumOf(RowInterest, Ledger(input, shock)[..m])
  {
    hide *;
    if m == 0 {
      NoInterestYet(FlowOf(input, shock), Ledger(input, shock));
    } else {
      InterestAddsUp(input, shock, m - 1);
      RowIs(input, shock, m);
      InterestStep(FlowOf(input, shock), m, Ledger(input, shock));
    }
  }

  lemma NoInterestYet(f: Flow, rows: seq<CashflowRow>)
    requires f.Valid()
    ensures TotalInterest(f, 0) == 0.0 == SumOf(RowInterest, rows[..0])
  {
  }

  lemma InterestStep(f: Flow, m: nat, rows: seq<CashflowRow>)
    requires f.Valid() && 1 <= m < |f.draws| && m <= |rows|
    ensures TotalInterest(f, m) == TotalInterest(f, m - 1) + Interest(f, m)
    ensures SumOf(RowInterest, rows[..m]) == SumOf(RowInterest, rows[..m - 1]) + rows[m - 1].intr
  {
    hide Interest;
    assert rows[..m][..m - 1] == rows[..m - 1];
  }


  // ---------------------------------------------------------------- the two series behind the rates of return

  lemma DebtAtFirst(input: AppraisalInput, shock: Shock)
    requires input.Valid() && TotalMonths(input) > 0
    ensures CashSeries.DebtLeft(RevSeries(input, shock), DebtIncurred(input, shock), 0)
         == PerCent(Sum(ConstrSeries(input, shock)), input.finance.ltcPct) + SumOf(RowInterest, Ledger(input, shock))
  {
    hide *;
    Closing.LedgerCum(input, shock);
    Closing.DebtIs(input, shock);
    LentIs(input, Sum(ConstrSeries(input, shock)));
    FlowIs(input, shock, 0);
    InterestAddsUp(input, shock, TotalMonths(input));
    WholeLedger(input, shock);
    DebtAfter(RevSeries(input, shock), DebtIncurred(input, shock), 0);
  }

  lemma LentIs(input: AppraisalInput, spend: real)
    ensures Times(spend, LoanToCost(input)) == PerCent(spend, input.finance.ltcPct)
    ensures Times(spend, 1.0 - LoanToCost(input)) == spend - PerCent(spend, input.finance.ltcPct)
  {
  }

  lemma DebtAfter(revs: seq<real>, debt: real, m: nat)
    requires m < |revs|
    ensures CashSeries.DebtLeft(revs, debt, m)
         == if m == 0 then debt else Serviced(CashSeries.DebtLeft(revs, debt, m - 1), revs[m])
  {
  }

  /** What is left of a debt when all of a month's receipts go to it. */
  function Serviced(owed: real, rev: real): real { if rev <= owed then owed - rev else 0.0 }

  lemma EquityFlowIs(input: AppraisalInput, spend: real, rev: real, owed: real)
    ensures CashSeries.EquityFlow(spend, rev, LoanToCost(input), owed)
         == rev - (spend - PerCent(spend, input.finance.ltcPct)) - (owed - Serviced(owed, rev))
  {
    LentIs(input, spend);
    hide Times, PerCent, LoanToCost;
  }

  /**
   * Land goes out first. After it the project keeps each month's receipts less its spend, and equity keeps what the
   * receipts leave once they have gone to the debt, less the share of the spend that was not lent; the debt they go to
   * is everything lent and every month's interest.
   */
  lemma SeriesAre(input: AppraisalInput, shock: Shock, m: nat)
    requires input.Valid() && 1 <= m <= TotalMonths(input)
    ensures var spend, rev, debt := ConstrSeries(input, shock), RevSeries(input, shock), DebtIncurred(input, shock);
            var owed, left := CashSeries.DebtLeft(rev, debt, m - 1), CashSeries.DebtLeft(rev, debt, m);
            && ProjectSeries(input, shock)[0] == -Appraise(input, shock).landGross == EquitySeries(input, shock)[0]
            && ProjectSeries(input, shock)[m] == rev[m] - spend[m]
            && EquitySeries(input, shock)[m]
                == rev[m] - (spend[m] - PerCent(spend[m], input.finance.ltcPct)) - (owed - left)
            && left == (if rev[m] <= owed then owed - rev[m] else 0.0)
            && CashSeries.DebtLeft(rev, debt, 0)
                == PerCent(Sum(spend), input.finance.ltcPct) + SumOf(RowInterest, Ledger(input, shock))
  {
    hide *;
    var spend, rev, debt := ConstrSeries(input, shock), RevSeries(input, shock), DebtIncurred(input, shock);
    LandIsReported(input, shock);
    DebtAtFirst(input, shock);
    Closing.WholeSeries(input, shock);
    UngearedAt(spend, rev, LandGross(input, shock), m);
    CashSeries.GearedAt(spend, rev, LandGross(input, shock), LoanToCost(input), debt, 0);
    CashSeries.GearedAt(spend, rev, LandGross(input, shock), LoanToCost(input), debt, m);
    EquityFlowIs(input, spend[m], rev[m], CashSeries.DebtLeft(rev, debt, m - 1));
    DebtAfter(rev, debt, m);
    ServicedIs(CashSeries.DebtLeft(rev, debt, m - 1), rev[m]);
  }

  lemma ServicedIs(owed: real, rev: real)
    ensures Serviced(owed, rev) == if rev <= owed then owed - rev else 0.0
  {
  }

  lemma UngearedAt(constr: seq<real>, revs: seq<real>, land: real, m: nat)
    requires |constr| == |revs| && 1 <= m < |constr|
    ensures CashSeries.Ungeared(constr, revs, land)[0] == -land
    ensures CashSeries.Ungeared(constr, revs, land)[m] == revs[m] - constr[m]
  {
  }

  /** The cash view: the whole ledger, the highest balance, and each series' monthly rate over twelve months. */
  lemma CashShows(input: AppraisalInput, shock: Shock)
    requires input.Valid()
    ensures var cash, f := CashOf(input, shock), FlowOf(input, shock);
            && cash.rows == Ledger(input, shock) && |cash.rows| == cash.totalMonths == TotalMonths(input)
            && (forall m :: 1 <= m <= TotalMonths(input) ==> Balance(f, m) <= cash.peak)
            && cash.projIrr == OverTwelveMonths(Irr.Rate(ProjectSeries(input, shock)))
            && cash.eqIrr == OverTwelveMonths(Irr.Rate(EquitySeries(input, shock)))
  {
    hide *;
    CashParts(input, shock);
    FlowIs(input, shock, 0);
    PeakIsMaximum(FlowOf(input, shock), TotalMonths(input));
    PeakReported(input, shock);
  }

  lemma PeakReported(input: AppraisalInput, shock: Shock)
    requires input.Valid() && FlowOf(input, shock).Valid()
    ensures PeakDebt(input, shock) == Peak(FlowOf(input, shock), TotalMonths(input))
  {
    hide FlowOf, TotalMonths, Peak;
  }

  function OverTwelveMonths(monthly: Option<real>): Option<real> {
    match monthly
    case None => None
    case Some(r) => Some(Pow(1.0 + r, 12) - 1.0)
  }

  lemma CashParts(input: AppraisalInput, shock: Shock)
    requires input.Valid()
    ensures var cash := CashOf(input, shock);
            && cash.rows == Ledger(input, shock) && |Ledger(input, shock)| == cash.totalMonths == TotalMonths(input)
            && cash.peak == PeakDebt(input, shock)
            && cash.projIrr == OverTwelveMonths(Irr.Rate(ProjectSeries(input, shock)))
            && cash.eqIrr == OverTwelveMonths(Irr.Rate(EquitySeries(input, shock)))
  {
    hide Ledger, TotalMonths, PeakDebt, Irr.Rate, ProjectSeries, EquitySeries, Pow;
  }

  // ---------------------------------------------------------------- the appraisal's own arithmetic

  /** The figures as the engine's functions give them. */
  lemma Reported(input: AppraisalInput, shock: Shock)
    requires input.Valid()
    ensures var r := Appraise(input, shock);
            && r.nia == Nia(input) && r.gia == Gia(input) && r.gdv == Gdv(input, shock)
            && r.salesGdv == SalesGdv(input, shock) && r.investmentValue == InvestmentValue(input, shock)
            && r.income == IncomeOf(input) && r.phases == PhaseRows(input, shock)
            && r.buildRate == (if Gia(input) > 0.0 then Div(Build(input, shock), Gia(input)) else SchemeRate(input, shock))
            && r.build == Build(input, shock) && r.fees == Fees(input, shock) && r.cont == Contingency(input, shock)
            && r.otherTotal == OtherTotal(input, shock) && r.saleCosts == SaleCosts(input, shock)
            && r.finance == Finance(input, shock)
            && r.equity == LandGross(input, shock) + Times(ConstructionTotal(input, shock), 1.0 - LoanToCost(input))
            && r.residualNet == ResidualNet(input, shock) && r.landGross == LandGross(input, shock)
            && r.acqCost == LandGross(input, shock) - ResidualNet(input, shock)
            && r.profit == ProfitOf(input, shock) && r.totalCost == TotalCost(input, shock)
            && r.poc == Ratio(r.profit, r.totalCost) && r.rogdv == Ratio(r.profit, r.gdv) && r.roe == Ratio(r.profit, r.equity)
            && r.period == BuildPeriod(input) && r.period + r.salesMonths == TotalMonths(input)
            && r.holdYears == TotalMonths(input) as real / 12.0
  {
    hide SalesGdv, Gia, Nia, PhaseRows, Build, Fees, Contingency, OtherTotal, BuildPeriod, TotalMonths, Gdv, IncomeOf,
         SaleCosts, InterestCost, Finance, ResidualNet, LandGross, TotalCost, ProfitOf, PeakDebt, Times, Div,
         ConstructionTotal, InvestmentValue, SchemeRate, Ratio, Arrangement;
  }

  /** A return is profit over what it is measured against, and nothing when that is nothing or less. */
  ghost predicate IsReturn(x: real, profit: real, against: real) {
    if against > 0.0 then x * against == profit else x == 0.0
  }

  lemma RatioIsReturn(a: real, b: real)
    ensures IsReturn(Ratio(a, b), a, b)
  {
    if b > 0.0 { DivLaw(a, b); }
    hide Div;
  }

  /** Cost, land, profit and the three returns, each from the others and the percentages of the input. */
  lemma SolveReconciles(input: AppraisalInput, shock: Shock)
    requires input.Valid()
    ensures var r := Appraise(input, shock);
            && r.gdv == r.salesGdv + r.investmentValue
            && r.saleCosts == PerCent(r.gdv, input.agentPct + input.legalPct)
            && r.totalCost == r.saleCosts + r.build + r.fees + r.cont + r.otherTotal + r.finance + r.landGross
            && r.totalCost + r.profit == r.gdv
            && r.landGross == r.residualNet + r.acqCost && r.acqCost == PerCent(r.residualNet, input.acqPct)
            && (if input.mode == Residual then r.profit == PerCent(r.gdv, input.targetProfitOnGdvPct)
                else r.residualNet == input.landFixed)
            && IsReturn(r.poc, r.profit, r.totalCost) && IsReturn(r.rogdv, r.profit, r.gdv)
            && IsReturn(r.roe, r.profit, r.equity)
            && r.equity == r.landGross + (r.build + r.fees + r.cont + r.otherTotal)
                           - PerCent(r.build + r.fees + r.cont + r.otherTotal, input.finance.ltcPct)
            && r.holdYears * 12.0 == (r.period + r.salesMonths) as real
  {
    hide *;
    Reported(input, shock);
    SolveParts(input, shock);
    var r := Appraise(input, shock);
    RatioIsReturn(r.profit, r.totalCost);
    RatioIsReturn(r.profit, r.gdv);
    RatioIsReturn(r.profit, r.equity);
    FeeIs(r.gdv, input.agentPct + input.legalPct);
    FeeIs(r.gdv, input.targetProfitOnGdvPct);
    GrossedUp(r.residualNet, input.acqPct);
    Unlent(ConstructionTotal(input, shock), input.finance.ltcPct);
  }

  lemma GrossedUp(x: real, pct: real)
    ensures Times(x, 1.0 + pct / 100.0) - x == PerCent(x, pct)
  {
  }

  lemma Unlent(x: real, pct: real)
    ensures Times(x, 1.0 - pct / 100.0) == x - PerCent(x, pct)
  {
  }

  lemma SolveParts(input: AppraisalInput, shock: Shock)
    requires input.Valid()
    ensures Gdv(input, shock) == SalesGdv(input, shock) + InvestmentValue(input, shock)
    ensures SaleCosts(input, shock) == Percent(Gdv(input, shock), input.agentPct + input.legalPct)
    ensures TotalCost(input, shock)
         == SaleCosts(input, shock) + Build(input, shock) + Fees(input, shock) + Contingency(input, shock)
            + OtherTotal(input, shock) + Finance(input, shock) + LandGross(input, shock)
    ensures LandGross(input, shock) == Times(ResidualNet(input, shock), 1.0 + input.acqPct / 100.0)
    ensures if input.mode == Residual then ProfitOf(input, shock) == Percent(Gdv(input, shock), input.targetProfitOnGdvPct)
            else ResidualNet(input, shock) == input.landFixed
    ensures TotalCost(input, shock) + ProfitOf(input, shock) == Gdv(input, shock)
    ensures ConstructionTotal(input, shock)
         == Build(input, shock) + Fees(input, shock) + Contingency(input, shock) + OtherTotal(input, shock)
    ensures LoanToCost(input) == input.finance.ltcPct / 100.0
  {
    hide *;
    CostParts(input, shock);
    ResidualCloses(input, shock);
    ResidualIs(input, shock);
    SitePart(input, shock);
  }

  lemma CostParts(input: AppraisalInput, shock: Shock)
    requires input.Valid()
    ensures Gdv(input, shock) == SalesGdv(input, shock) + InvestmentValue(input, shock)
    ensures SaleCosts(input, shock) == Percent(Gdv(input, shock), input.agentPct + input.legalPct)
    ensures CostsBeforeLand(input, shock)
         == SaleCosts(input, shock) + Build(input, shock) + Fees(input, shock) + Contingency(input, shock)
            + OtherTotal(input, shock) + Finance(input, shock)
    ensures TotalCost(input, shock) == CostsBeforeLand(input, shock) + LandGross(input, shock)
    ensures ConstructionTotal(input, shock)
         == Build(input, shock) + Fees(input, shock) + Contingency(input, shock) + OtherTotal(input, shock)
    ensures LoanToCost(input) == input.finance.ltcPct / 100.0
  {
    hide SalesGdv, InvestmentValue, Build, Fees, Contingency, OtherTotal, Finance, LandGross, Percent;
  }

  lemma SitePart(input: AppraisalInput, shock: Shock)
    requires input.Valid()
    ensures Acquisition(input) == 1.0 + input.acqPct / 100.0
    ensures if input.mode == Residual
            then ProfitOf(input, shock) == TargetProfit(input, shock) == Percent(Gdv(input, shock), input.targetProfitOnGdvPct)
            else ResidualNet(input, shock) == input.landFixed
                 && ProfitOf(input, shock) == Gdv(input, shock) - TotalCost(input, shock)
  {
    hide Gdv, TotalCost, CostsBeforeLand, Percent, Times, Div;
  }

  /** What is divided by one plus the acquisition rate and multiplied back is what there was. */
  lemma ResidualCloses(input: AppraisalInput, shock: Shock)
    requires input.Valid()
    ensures input.mode == Residual ==>
      LandGross(input, shock) == Gdv(input, shock) - CostsBeforeLand(input, shock) - TargetProfit(input, shock)
  {
    hide *;
    ResidualIs(input, shock);
    TimesBack(Gdv(input, shock) - CostsBeforeLand(input, shock) - TargetProfit(input, shock), Acquisition(input));
  }

  lemma ResidualIs(input: AppraisalInput, shock: Shock)
    requires input.Valid()
    ensures LandGross(input, shock) == Times(ResidualNet(input, shock), Acquisition(input))
    ensures input.mode == Residual ==>
      ResidualNet(input, shock)
      == Div(Gdv(input, shock) - CostsBeforeLand(input, shock) - TargetProfit(input, shock), Acquisition(input))
  {
    hide Gdv, CostsBeforeLand, TargetProfit, Div, Times, Acquisition;
  }

  lemma TimesBack(x: real, a: real)
    requires a != 0.0
    ensures Times(Div(x, a), a) == x
  {
    DivLaw(x, a);
    hide Div;
  }

  // ---------------------------------------------------------------- areas, values and building costs

  /** Net area over the efficiency, when there is one. */
  ghost predicate IsGross(gross: real, net: real, efficiencyPct: real) {
    if efficiencyPct > 0.0 then gross * efficiencyPct == 100.0 * net else gross == net
  }

  lemma GrossIs(input: AppraisalInput, net: real)
    ensures IsGross(Gross(input, net), net, input.efficiency)
  {
    var e := input.efficiency;
    if e > 0.0 {
      DivLaw(net, e / 100.0);
      hide Div;
      HundredthOver(Gross(input, net), e, net);
    }
    if e == 0.0 { DivUnique(net, 1.0, net); }
  }

  lemma HundredthOver(g: real, e: real, net: real)
    requires g * (e / 100.0) == net
    ensures g * e == 100.0 * net
  {
    assert g * e == 100.0 * (g * (e / 100.0));
  }

  /** What is let, and what it is worth, beside what is sold. */
  function LetArea(r: Figures): real { if r.income.Some? then r.income.value.totalArea else 0.0 }

  /** Areas and values of a scheme without phases, from its units and its let space. */
  lemma UnphasedAreas(input: AppraisalInput, shock: Shock)
    requires input.Valid() && !input.Phased()
    ensures var r := Appraise(input, shock);
            && r.salesGdv == ValueSum(input.units) * shock.sales
            && r.nia == AreaSum(input.units) + LetArea(r) && IsGross(r.gia, r.nia, input.efficiency)
            && r.income == (if input.income.Some? then Some(Valuation.Capitalise(input.income.value)) else None)
            && r.investmentValue == (if r.income.Some? then r.income.value.netCapitalValue * shock.sales else 0.0)
            && r.phases == None
  {
    hide *;
    Reported(input, shock);
    AreasAre(input, shock);
    GrossIs(input, Nia(input));
    AreaSumIs(input.units);
    ValueSumIs(input.units);
    PhasesNone(input, shock);
    TimesIs(ValueSum(input.units), shock.sales);
    LetIs(input, shock);
    LetAreaIs(Appraise(input, shock));
  }

  lemma LetAreaIs(r: Figures)
    ensures LetArea(r) == if r.income.Some? then r.income.value.totalArea else 0.0
  {
  }

  lemma TimesIs(a: real, b: real)
    ensures Times(a, b) == a * b
  {
  }

  lemma PhasesNone(input: AppraisalInput, shock: Shock)
    requires !input.Phased()
    ensures PhaseRows(input, shock) == None
  {
  }

  lemma ValueSumIs(units: seq<AppraisalUnit>)
    ensures ValueSum(units) == SumOf(UnitValue, units)
  {
    SumOfSame(UnitValue, units, (u: AppraisalUnit) => u.count * u.area * u.cap, units);
    hide SumOf;
  }

  lemma AreasAre(input: AppraisalInput, shock: Shock)
    requires input.Valid()
    ensures Nia(input) == SumOf(UnitArea, AllUnits(input)) + IncomeArea(input) && Gia(input) == Gross(input, Nia(input))
    ensures SalesGdv(input, shock) == Times(SumOf(UnitValue, AllUnits(input)), shock.sales)
    ensures !input.Phased() ==> AllUnits(input) == input.units
  {
    hide SumOf, IncomeArea, Gross, Times, Flatten;
  }

  lemma LetIs(input: AppraisalInput, shock: Shock)
    requires input.Valid()
    ensures IncomeOf(input) == if input.income.Some? then Some(Valuation.Capitalise(input.income.value)) else None
    ensures IncomeArea(input) == if IncomeOf(input).Some? then IncomeOf(input).value.totalArea else 0.0
    ensures InvestmentValue(input, shock)
         == if IncomeOf(input).Some? then IncomeOf(input).value.netCapitalValue * shock.sales else 0.0
  {
    if input.income.Some? { TimesIs(Valuation.Capitalise(input.income.value).netCapitalValue, shock.sales); }
    hide Valuation.Capitalise, Times;
  }


  // ---------------------------------------------------------------- building costs and the programme

  function AmountSum(costs: seq<OtherCost>): real { SumOf((o: OtherCost) => o.amount, costs) }

  lemma AmountSumIs(costs: seq<OtherCost>)
    ensures AmountSum(costs) == SumOf(Amount, costs)
  {
    SumOfSame(Amount, costs, (o: OtherCost) => o.amount, costs);
    hide SumOf;
  }

  /** Building a scheme without phases: one rate over the gross area, and its two percentages. */
  lemma UnphasedCosts(input: AppraisalInput, shock: Shock)
    requires input.Valid() && !input.Phased()
    ensures var r := Appraise(input, shock);
            && r.build == RateSum(input.trades) * shock.build * r.gia
            && r.fees == PerCent(r.build, input.profFeePct) && r.cont == PerCent(r.build, input.contingencyPct)
            && r.otherTotal == AmountSum(input.otherCosts)
            && (if r.gia > 0.0 then r.buildRate * r.gia == r.build else r.buildRate == RateSum(input.trades) * shock.build)
  {
    hide *;
    Reported(input, shock);
    CostsWithoutPhases(input, shock);
    RateSumIs(input.trades);
    AmountSumIs(input.otherCosts);
    FeeIs(Build(input, shock), input.profFeePct);
    FeeIs(Build(input, shock), input.contingencyPct);
    TwiceTimes(RateSum(input.trades), shock.build, Gia(input));
    TimesIs(RateSum(input.trades), shock.build);
    if Gia(input) > 0.0 { DivLaw(Build(input, shock), Gia(input)); }
  }

  lemma CostsWithoutPhases(input: AppraisalInput, shock: Shock)
    requires input.Valid() && !input.Phased()
    ensures Build(input, shock) == Times(Times(SumOf(Rate, input.trades), shock.build), Gia(input))
    ensures SchemeRate(input, shock) == Times(SumOf(Rate, input.trades), shock.build)
    ensures Fees(input, shock) == Percent(Build(input, shock), input.profFeePct)
    ensures Contingency(input, shock) == Percent(Build(input, shock), input.contingencyPct)
    ensures OtherTotal(input, shock) == SumOf(Amount, input.otherCosts)
  {
    NoPhasesNoSums(Phases(input, shock));
    hide SumOf, Times, Percent, Gia;
  }

  lemma NoPhasesNoSums(ps: seq<PhaseCalc>)
    requires |ps| == 0
    ensures SumOf(GiaOf, ps) == 0.0 == SumOf(BuildOf, ps)
    ensures SumOf(FeesOf, ps) == 0.0 == SumOf(ContOf, ps) && SumOf(OtherOf, ps) == 0.0
  {
  }

  /** A month count as written, brought inside a range: nothing written counts as `fallback`. */
  function Months(x: real, fallback: int, low: int, high: int): int {
    var r := if Round(x) == 0 then fallback else Round(x);
    if r < low then low else if r > high then high else r
  }

  /** How long `units` take to sell. */
  ghost predicate SellsIn(n: nat, units: real, perMonth: Option<real>, fallback: real, cap: nat) {
    if perMonth.Some? && perMonth.value > 0.0 && units > 0.0 then
      && 1 <= n <= 24 && (n < 24 ==> units <= n as real * perMonth.value)
      && (n > 1 ==> units > (n - 1) as real * perMonth.value)
    else n == Months(fallback, 1, 1, cap)
  }

  lemma MonthsAreSellsIn(units: real, perMonth: Option<real>, fallback: real, cap: nat)
    requires cap >= 1
    ensures SellsIn(|Shares(units, perMonth, fallback, cap)|, units, perMonth, fallback, cap)
  {
    var n := |Shares(units, perMonth, fallback, cap)|;
    MonthsExact(units, perMonth, fallback, cap);
    if perMonth.Some? && perMonth.value > 0.0 && units > 0.0 && n > 1 {
      FewerFallShort(units, perMonth, fallback, cap, n - 1);
    }
    hide Shares, Absorption.Months, Round;
  }

  /** The programme of a scheme without phases: 4 to 22 months of building, then as long as its units take to sell. */
  lemma UnphasedProgramme(input: AppraisalInput, shock: Shock)
    requires input.Valid() && !input.Phased()
    ensures var r := Appraise(input, shock);
            && r.period == Months(input.finance.periodMonths, 12, 4, 22)
            && SellsIn(r.salesMonths, CountSum(input.units), input.finance.absorptionUnitsPerMonth,
                       input.finance.salesMonths, 8)
  {
    hide *;
    Reported(input, shock);
    PeriodIs(input);
    ReceiptsAre(input, shock);
    CountSumIs(input.units);
    MonthsAreSellsIn(CountSum(input.units), input.finance.absorptionUnitsPerMonth, input.finance.salesMonths, 8);
  }

  lemma PeriodIs(input: AppraisalInput)
    requires !input.Phased()
    ensures BuildPeriod(input) == Months(input.finance.periodMonths, 12, 4, 22)
  {
    hide Round;
  }

  // ---------------------------------------------------------------- a phase's row

  /** The trades and percentages a phase is priced at: its own where it gives them, the scheme's otherwise. */
  function TradesOf(input: AppraisalInput, p: Phase): seq<BuildTrade> { if |p.trades| > 0 then p.trades else input.trades }

  function FeePctOf(input: AppraisalInput, p: Phase): real {
    if p.profFeePct.Some? then p.profFeePct.value else input.profFeePct
  }

  function ContPctOf(input: AppraisalInput, p: Phase): real {
    if p.contingencyPct.Some? then p.contingencyPct.value else input.contingencyPct
  }

  /** A phase's row, from what the phase says of itself. */
  lemma PhaseRowAddsUp(input: AppraisalInput, shock: Shock, k: nat)
    requires input.Valid() && k < |input.phases|
    ensures var p := input.phases[k];
            Appraise(input, shock).phases.Some? && |Appraise(input, shock).phases.value| == |input.phases|
            && RowSays(Appraise(input, shock).phases.value[k], input, shock, p)
  {
    hide *;
    Reported(input, shock);
    HasPhases(input, k);
    RowOfPhase(input, shock, k);
    PhaseRowSays(input, shock, input.phases[k]);
  }

  lemma RowOfPhase(input: AppraisalInput, shock: Shock, k: nat)
    requires k < |input.phases|
    ensures PhaseRows(input, shock).Some? && |PhaseRows(input, shock).value| == |input.phases|
    ensures PhaseRows(input, shock).value[k] == PhaseRowOf(input, shock, input.phases[k])
  {
    hide PhaseRowOf;
  }

  ghost predicate RowSays(row: PhaseRow, input: AppraisalInput, shock: Shock, p: Phase) {
    && row.start == Months(p.start, 1, 1, 240) && row.buildMonths == Months(p.buildMonths, 12, 1, 60)
    && SellsIn(row.salesMonths, CountSum(p.units), p.absorptionUnitsPerMonth, p.salesMonths, 24)
    && row.practicalCompletion == row.start + row.buildMonths - 1
    && row.end == row.practicalCompletion + row.salesMonths
    && row.nia == AreaSum(p.units) && IsGross(row.gia, row.nia, input.efficiency)
    && row.gdv == ValueSum(p.units) * shock.sales && row.unitCount == CountSum(p.units)
    && row.trades == TradesOf(input, p) && (row.ownTrades <==> |p.trades| > 0)
    && row.buildRate == RateSum(TradesOf(input, p)) * shock.build && row.build == Times(row.buildRate, row.gia)
    && row.fees == PerCent(row.build, FeePctOf(input, p)) && row.cont == PerCent(row.build, ContPctOf(input, p))
    && row.cost == row.build + row.fees + row.cont && row.otherTotal == AmountSum(p.otherCosts)
  }

  lemma PhaseRowSays(input: AppraisalInput, shock: Shock, p: Phase)
    ensures RowSays(PhaseRowOf(input, shock, p), input, shock, p)
  {
    PhaseMonths(p);
    PhaseSharesAre(p);
    MonthsAreSellsIn(SumOf(UnitCount, p.units), p.absorptionUnitsPerMonth, p.salesMonths, 24);
    CountSumIs(p.units);
    AreaSumIs(p.units);
    ValueSumIs(p.units);
    RateSumIs(TradesOf(input, p));
    AmountSumIs(p.otherCosts);
    GrossIs(input, SumOf(UnitArea, p.units));
    TimesIs(SumOf(UnitValue, p.units), shock.sales);
    TimesIs(SumOf(Rate, TradesOf(input, p)), shock.build);
    RowParts(input, shock, p);
    var row := PhaseRowOf(input, shock, p);
    FeeIs(row.build, FeePctOf(input, p));
    FeeIs(row.build, ContPctOf(input, p));
    hide SumOf, CountSum, AreaSum, ValueSum, RateSum, AmountSum, PhaseRowOf, Times, Percent, PerCent, Gross, IsGross, SellsIn,
         Months, Shares, FeePctOf, ContPctOf, TradesOf, PhaseShares;
  }

  lemma PhaseMonths(p: Phase)
    ensures PhaseStart(p) == Months(p.start, 1, 1, 240) && PhaseBuildMonths(p) == Months(p.buildMonths, 12, 1, 60)
  {
    hide Round;
  }

  lemma RowParts(input: AppraisalInput, shock: Shock, p: Phase)
    ensures var row := PhaseRowOf(input, shock, p);
            && row.start == PhaseStart(p) && row.buildMonths == PhaseBuildMonths(p)
            && row.salesMonths == |PhaseShares(p)|
            && row.practicalCompletion == row.start + row.buildMonths - 1
            && row.end == row.practicalCompletion + row.salesMonths
            && row.nia == SumOf(UnitArea, p.units) && row.gia == Gross(input, SumOf(UnitArea, p.units))
            && row.gdv == Times(SumOf(UnitValue, p.units), shock.sales) && row.unitCount == SumOf(UnitCount, p.units)
            && row.trades == TradesOf(input, p) && (row.ownTrades <==> |p.trades| > 0)
            && row.buildRate == Times(SumOf(Rate, TradesOf(input, p)), shock.build)
            && row.build == Times(row.buildRate, row.gia)
            && row.fees == Percent(row.build, FeePctOf(input, p)) && row.cont == Percent(row.build, ContPctOf(input, p))
            && row.cost == row.build + row.fees + row.cont && row.otherTotal == SumOf(Amount, p.otherCosts)
  {
    hide SumOf, Times, Percent, Gross, PhaseStart, PhaseBuildMonths, PhaseShares;
  }


  // ---------------------------------------------------------------- a phased scheme's totals

  function RowNia(r: PhaseRow): real { r.nia }

  function RowGia(r: PhaseRow): real { r.gia }

  function RowGdv(r: PhaseRow): real { r.gdv }

  function RowBuild(r: PhaseRow): real { r.build }

  function RowFees(r: PhaseRow): real { r.fees }

  function RowCont(r: PhaseRow): real { r.cont }

  function RowOther(r: PhaseRow): real { r.otherTotal }

  lemma RowMatches(input: AppraisalInput, shock: Shock, i: nat)
    requires i < |input.phases|
    ensures PhaseRows(input, shock).Some? && |PhaseRows(input, shock).value| == |Phases(input, shock)| == |input.phases|
    ensures var row, pc := PhaseRows(input, shock).value[i], Phases(input, shock)[i];
            && row.gia == pc.gia && row.gdv == pc.gdv && row.build == pc.build && row.fees == pc.fees
            && row.cont == pc.cont && row.otherTotal == pc.otherTotal && row.nia == SumOf(UnitArea, input.phases[i].units)
  {
    hide Times, Percent, SumOf, PhaseGia, PhaseShares, PhaseStart, PhaseBuildMonths, PracticalCompletion, PhaseEnd;
  }

  lemma RowSums(input: AppraisalInput, shock: Shock)
    requires input.Phased()
    ensures PhaseRows(input, shock).Some?
    ensures var rows, ps := PhaseRows(input, shock).value, Phases(input, shock);
            && SumOf(RowGia, rows) == SumOf(GiaOf, ps) && SumOf(RowGdv, rows) == SumOf(GdvOf, ps)
            && SumOf(RowBuild, rows) == SumOf(BuildOf, ps) && SumOf(RowFees, rows) == SumOf(FeesOf, ps)
            && SumOf(RowCont, rows) == SumOf(ContOf, ps) && SumOf(RowOther, rows) == SumOf(OtherOf, ps)
  {
    RowMatches(input, shock, 0);
    var rows: seq<PhaseRow>, ps := PhaseRows(input, shock).value, Phases(input, shock);
    forall i | 0 <= i < |rows|
      ensures rows[i].gia == ps[i].gia && rows[i].gdv == ps[i].gdv && rows[i].build == ps[i].build
      ensures rows[i].fees == ps[i].fees && rows[i].cont == ps[i].cont && rows[i].otherTotal == ps[i].otherTotal
    {
      RowMatches(input, shock, i);
    }
    hide PhaseRows, Phases, SumOf;
    SumOfSame(RowGia, rows, GiaOf, ps);
    SumOfSame(RowGdv, rows, GdvOf, ps);
    SumOfSame(RowBuild, rows, BuildOf, ps);
    SumOfSame(RowFees, rows, FeesOf, ps);
    SumOfSame(RowCont, rows, ContOf, ps);
    SumOfSame(RowOther, rows, OtherOf, ps);
  }

  lemma {:induction false} NetAreas(input: AppraisalInput, shock: Shock, k: nat)
    requires input.Phased() && k <= |input.phases|
    ensures PhaseRows(input, shock).Some? && |PhaseRows(input, shock).value| == |input.phases|
    ensures SumOf(UnitArea, Flatten(input.phases[..k])) == SumOf(RowNia, PhaseRows(input, shock).value[..k])
  {
    RowMatches(input, shock, 0);
    hide PhaseRows;
    if k > 0 {
      NetAreas(input, shock, k - 1);
      RowMatches(input, shock, k - 1);
      var rows, flat, units := PhaseRows(input, shock).value, Flatten(input.phases[..k - 1]), input.phases[k - 1].units;
      assert rows[..k][..k - 1] == rows[..k - 1] && input.phases[..k][..k - 1] == input.phases[..k - 1];
      assert Flatten(input.phases[..k]) == flat + units;
      hide Flatten, UnitArea;
      SumOfConcat(UnitArea, flat, units);
    }
  }

  /** The let space a phase does not build: what it comes to before fees, at the scheme's rate. */
  function LetBuild(input: AppraisalInput, shock: Shock, area: real): real { RateSum(input.trades) * shock.build * area }

  /**
   * A phased scheme's totals are its phases' rows and its let space, column by column; what no phase carries is the
   * let space's, at the scheme's own rate and percentages.
   */
  lemma PhasedTotals(input: AppraisalInput, shock: Shock)
    requires input.Valid() && input.Phased()
    ensures Appraise(input, shock).phases.Some?
    ensures var r, held := Appraise(input, shock), Gross(input, IncomeArea(input));
            var rows, let := r.phases.value, LetBuild(input, shock, held);
            && IsGross(held, LetArea(r), input.efficiency)
            && r.nia == SumOf(RowNia, rows) + LetArea(r) && r.gia == SumOf(RowGia, rows) + held
            && r.build == SumOf(RowBuild, rows) + let
            && r.fees == SumOf(RowFees, rows) + PerCent(let, input.profFeePct)
            && r.cont == SumOf(RowCont, rows) + PerCent(let, input.contingencyPct)
            && r.otherTotal == SumOf(RowOther, rows) + AmountSum(input.otherCosts)
            && r.income == (if input.income.Some? then Some(Valuation.Capitalise(input.income.value)) else None)
            && r.investmentValue == (if r.income.Some? then r.income.value.netCapitalValue * shock.sales else 0.0)
            && (if r.gia > 0.0 then r.buildRate * r.gia == r.build else r.buildRate == RateSum(input.trades) * shock.build)
  {
    hide *;
    Reported(input, shock);
    RowSums(input, shock);
    PhasedNet(input, shock);
    PhasedCosts(input, shock);
    Conservation.HeldAreaIsUnphased(input, shock);
    LetIs(input, shock);
    LetAreaIs(Appraise(input, shock));
    GrossIs(input, IncomeArea(input));
    RateSumIs(input.trades);
    AmountSumIs(input.otherCosts);
    LetBuildIs(input, shock, Gross(input, IncomeArea(input)));
    FeeIs(LetBuild(input, shock, Gross(input, IncomeArea(input))), input.profFeePct);
    FeeIs(LetBuild(input, shock, Gross(input, IncomeArea(input))), input.contingencyPct);
    TimesIs(RateSum(input.trades), shock.build);
    if Gia(input) > 0.0 { DivLaw(Build(input, shock), Gia(input)); }
  }

  lemma PhasedNet(input: AppraisalInput, shock: Shock)
    requires input.Valid() && input.Phased()
    ensures PhaseRows(input, shock).Some?
    ensures Nia(input) == SumOf(RowNia, PhaseRows(input, shock).value) + IncomeArea(input)
  {
    NetAreas(input, shock, |input.phases|);
    assert input.phases[..|input.phases|] == input.phases;
    var rows := PhaseRows(input, shock).value;
    assert rows[..|input.phases|] == rows;
    hide PhaseRows, SumOf, IncomeArea, Flatten;
  }

  lemma PhasedCosts(input: AppraisalInput, shock: Shock)
    requires input.Valid()
    ensures var ps, u := Phases(input, shock), UnphasedBuild(input, shock);
            && u == Times(Times(SumOf(Rate, input.trades), shock.build), UnphasedGia(input, shock))
            && Gia(input) == SumOf(GiaOf, ps) + UnphasedGia(input, shock)
            && Build(input, shock) == SumOf(BuildOf, ps) + u
            && Fees(input, shock) == SumOf(FeesOf, ps) + Percent(u, input.profFeePct)
            && Contingency(input, shock) == SumOf(ContOf, ps) + Percent(u, input.contingencyPct)
            && OtherTotal(input, shock) == SumOf(OtherOf, ps) + SumOf(Amount, input.otherCosts)
            && SchemeRate(input, shock) == Times(SumOf(Rate, input.trades), shock.build)
  {
    hide SumOf, Percent, Gia, Phases, Times;
  }

  lemma LetBuildIs(input: AppraisalInput, shock: Shock, area: real)
    ensures Times(Times(SumOf(Rate, input.trades), shock.build), area) == LetBuild(input, shock, area)
  {
    RateSumIs(input.trades);
    hide SumOf, RateSum;
    TwiceTimes(RateSum(input.trades), shock.build, area);
    hide Times;
  }
}
