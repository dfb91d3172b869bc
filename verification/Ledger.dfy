/** The monthly ledger closes on the appraisal: what the cumulative column ends at, exactly. */
module Ledger {
  import opened Numbers
  import opened Spend
  import opened Absorption
  import opened Scheme
  import opened Facility
  import opened Engine
  import CashSeries
  import opened Monotone
  import opened Conservation
  import Construction
  import Sensitivity

  // ---------------------------------------------------------------- receipts that never arrive

  /** The value of each phase that its sales window leaves unsold. */
  function UnsoldPhases(ps: seq<PhaseCalc>, keep: real): real {
    if |ps| == 0 then 0.0
    else
      var p := ps[|ps| - 1];
      UnsoldPhases(ps[..|ps| - 1], keep) + Times(Times(p.gdv, keep), 1.0 - Sum(p.share))
  }

  /** Net value that the receipts leave out: units unsold at the end, and a held value that is not positive. */
  function Unsold(input: AppraisalInput, shock: Shock): real
    requires input.Valid()
  {
    if input.Phased() then
      UnsoldPhases(Phases(input, shock), NetOfDisposal(input))
      + (if InvestmentValue(input, shock) > 0.0 then 0.0
         else Times(InvestmentValue(input, shock), NetOfDisposal(input)))
    else
      Times(Gdv(input, shock) - SaleCosts(input, shock), 1.0 - Sum(SchemeShares(input)))
  }

  /** Every sales window sells its units, and nothing held is worth less than nothing. */
  ghost predicate SellsOut(input: AppraisalInput, shock: Shock)
    requires input.Valid()
  {
    if input.Phased() then
      && (forall i :: 0 <= i < |input.phases| ==>
           SoldShare(SumOf(UnitCount, input.phases[i].units), input.phases[i].absorptionUnitsPerMonth) == 1.0)
      && InvestmentValue(input, shock) >= 0.0
    else
      SoldShare(SumOf(UnitCount, AllUnits(input)), input.finance.absorptionUnitsPerMonth) == 1.0
  }

  lemma SoldOrNot(amount: real, share: real)
    ensures Times(amount, share) == amount - Times(amount, 1.0 - share)
  {
  }

  lemma {:induction false} PhaseReceiptsTotal(input: AppraisalInput, shock: Shock, k: nat)
    requires k <= |input.phases|
    ensures var ps, d := Phases(input, shock)[..k], NetOfDisposal(input);
            SumOf(Laid, PhaseReceipts(input, ps)) == Times(SumOf(GdvOf, ps), d) - UnsoldPhases(ps, d)
  {
    hide CalcPhase;
    var all, d := Phases(input, shock), NetOfDisposal(input);
    if k == 0 {
      NilTimes(d);
    } else {
      PhaseReceiptsTotal(input, shock, k - 1);
      var ps, p := all[..k], all[k - 1];
      assert ps[..k - 1] == all[..k - 1];
      assert PhaseReceipts(input, ps)[..k - 1] == PhaseReceipts(input, all[..k - 1]);
      SoldOrNot(Times(p.gdv, d), Sum(p.share));
      TimesAdds(d, SumOf(GdvOf, all[..k - 1]), p.gdv);
      hide Times, Sum;
    }
  }

  /** Receipts add up to net sales less what is left unsold. */
  lemma ReceiptsTotal(input: AppraisalInput, shock: Shock)
    requires input.Valid()
    ensures RevSeries(input, shock)[0] == 0.0
    ensures Sum(RevSeries(input, shock)) == Gdv(input, shock) - SaleCosts(input, shock) - Unsold(input, shock)
  {
    assert RevSeries(input, shock) == ApplyAll(Zeros(TotalMonths(input) + 1), Receipts(input, shock));
    hide *;
    ReceiptsFit(input, shock);
    ReceiptsLaid(input, shock);
    LaidTotal(TotalMonths(input) + 1, Receipts(input, shock));
  }

  lemma ReceiptsLaid(input: AppraisalInput, shock: Shock)
    requires input.Valid()
    ensures SumOf(Laid, Receipts(input, shock)) == Gdv(input, shock) - SaleCosts(input, shock) - Unsold(input, shock)
  {
    if input.Phased() {
      PhasedLaid(input, shock);
    } else {
      hide Gdv, SaleCosts, SchemeShares, Times, Sum, BuildPeriod;
      SoldOrNot(Gdv(input, shock) - SaleCosts(input, shock), Sum(SchemeShares(input)));
      assert Receipts(input, shock)[..0] == [];
    }
  }

  lemma PhasedLaid(input: AppraisalInput, shock: Shock)
    requires input.Valid() && input.Phased()
    ensures SumOf(Laid, Receipts(input, shock)) == Gdv(input, shock) - SaleCosts(input, shock) - Unsold(input, shock)
  {
    PhasedParts(input, shock);
    hide *;
    var ps, d := Phases(input, shock), NetOfDisposal(input);
    SaleNet(input, shock);
    HeldLaid(input, shock);
    PhasesSellEverything(input, shock);
    PhaseReceiptsTotal(input, shock, |ps|);
    assert ps[..|ps|] == ps;
    SumOfConcat(Laid, PhaseReceipts(input, ps), HeldReceipts(input, shock));
    TimesSplits(Gdv(input, shock), SalesGdv(input, shock), InvestmentValue(input, shock), d);
  }

  lemma PhasedParts(input: AppraisalInput, shock: Shock)
    requires input.Valid() && input.Phased()
    ensures Receipts(input, shock) == PhaseReceipts(input, Phases(input, shock)) + HeldReceipts(input, shock)
    ensures Gdv(input, shock) == SalesGdv(input, shock) + InvestmentValue(input, shock)
    ensures Unsold(input, shock)
         == UnsoldPhases(Phases(input, shock), NetOfDisposal(input))
            + (if InvestmentValue(input, shock) > 0.0 then 0.0
               else Times(InvestmentValue(input, shock), NetOfDisposal(input)))
  {
  }

  lemma HeldLaid(input: AppraisalInput, shock: Shock)
    requires input.Valid()
    ensures SumOf(Laid, HeldReceipts(input, shock))
         == if InvestmentValue(input, shock) > 0.0 then Times(InvestmentValue(input, shock), NetOfDisposal(input)) else 0.0
  {
    hide InvestmentValue, FlatShares, BuildPeriod, TotalMonths;
    SalesFollowBuild(input);
    EqualShares(TotalMonths(input) - BuildPeriod(input));
    assert InvestmentValue(input, shock) > 0.0 ==> HeldReceipts(input, shock)[..0] == [];
  }

  // ---------------------------------------------------------------- the cumulative column

  /** The cumulative position after month `m`: all receipts less all cost, land and interest to date. */
  lemma {:induction false} CumulativeTo(input: AppraisalInput, shock: Shock, m: nat)
    requires input.Valid() && 1 <= m <= TotalMonths(input)
    requires RevSeries(input, shock)[0] == 0.0 && ConstrSeries(input, shock)[0] == 0.0
    ensures LedgerRow(input, shock, m).cum
         == Sum(RevSeries(input, shock)[..m + 1]) - Sum(ConstrSeries(input, shock)[..m + 1])
            - LandGross(input, shock) - TotalInterest(FlowOf(input, shock), m)
  {
    hide RevSeries, ConstrSeries, LandGross, Interest, TotalMonths;
    var r, c := RevSeries(input, shock), ConstrSeries(input, shock);
    assert r[..m + 1][..m] == r[..m] && c[..m + 1][..m] == c[..m];
    if m == 1 {
      assert r[..1] == [r[0]] && c[..1] == [c[0]];
      assert [r[0]][..0] == [] && [c[0]][..0] == [];
      assert TotalInterest(FlowOf(input, shock), 0) == 0.0;
    } else {
      CumulativeTo(input, shock, m - 1);
    }
  }

  /**
   * For every input, multiplier and site mode: the last cumulative row is profit plus the arrangement fee,
   * less net value left unsold, plus build the area cut-off kept off the programme.
   */
  lemma LedgerCloses(input: AppraisalInput, shock: Shock)
    requires input.Valid()
    ensures |Ledger(input, shock)| == TotalMonths(input) > 0
    ensures Ledger(input, shock)[TotalMonths(input) - 1].cum
         == ProfitOf(input, shock) + Arrangement(input, shock) - Unsold(input, shock) + Dropped(input, shock)
  {
    CostParts(input, shock);
    LastRow(input, shock);
    hide *;
    SalesFollowBuild(input);
    SpendConserved(input, shock);
    ReceiptsTotal(input, shock);
    Sensitivity.ProfitIdentity(input, shock);
    var total := TotalMonths(input);
    CumulativeTo(input, shock, total);
    assert RevSeries(input, shock)[..total + 1] == RevSeries(input, shock);
    assert ConstrSeries(input, shock)[..total + 1] == ConstrSeries(input, shock);
  }

  lemma CostParts(input: AppraisalInput, shock: Shock)
    requires input.Valid()
    ensures TotalCost(input, shock)
         == SaleCosts(input, shock) + ConstructionTotal(input, shock)
            + TotalInterest(FlowOf(input, shock), TotalMonths(input)) + Arrangement(input, shock) + LandGross(input, shock)
  {
  }

  lemma LastRow(input: AppraisalInput, shock: Shock)
    requires input.Valid()
    ensures |Ledger(input, shock)| == TotalMonths(input) > 0
    ensures Ledger(input, shock)[TotalMonths(input) - 1] == LedgerRow(input, shock, TotalMonths(input))
  {
    SalesFollowBuild(input);
    hide TotalMonths, LedgerRow;
  }

  lemma {:induction false} NothingUnsold(ps: seq<PhaseCalc>, keep: real)
    requires forall i :: 0 <= i < |ps| ==> Sum(ps[i].share) == 1.0
    ensures UnsoldPhases(ps, keep) == 0.0
  {
    if |ps| > 0 { NothingUnsold(ps[..|ps| - 1], keep); }
  }

  /** A scheme that sells out has nothing unsold. */
  lemma SoldOut(input: AppraisalInput, shock: Shock)
    requires input.Valid() && SellsOut(input, shock)
    ensures Unsold(input, shock) == 0.0
  {
    hide InvestmentValue, Gdv, SaleCosts, Sum, SoldShare, Shares, SumOf;
    if input.Phased() {
      var ps := Phases(input, shock);
      forall i | 0 <= i < |ps| ensures Sum(ps[i].share) == 1.0 {
        var p := input.phases[i];
        Construction.PhaseWindow(input, shock, i);
        SoldShareExact(SumOf(UnitCount, p.units), p.absorptionUnitsPerMonth, p.salesMonths, 24);
      }
      hide CalcPhase;
      NothingUnsold(ps, NetOfDisposal(input));
      NilTimes(NetOfDisposal(input));
      hide UnsoldPhases;
    } else {
      SoldShareExact(SumOf(UnitCount, AllUnits(input)), input.finance.absorptionUnitsPerMonth,
                     input.finance.salesMonths, 8);
    }
  }

  /** When everything sells and every cost is on the programme, the ledger ends at profit plus the arrangement fee. */
  lemma LedgerClosesOnProfit(input: AppraisalInput, shock: Shock)
    requires input.Valid() && SellsOut(input, shock) && Dropped(input, shock) == 0.0
    ensures |Ledger(input, shock)| == TotalMonths(input) > 0
    ensures Ledger(input, shock)[TotalMonths(input) - 1].cum == ProfitOf(input, shock) + Arrangement(input, shock)
  {
    hide Dropped, SellsOut, Unsold, Ledger, ProfitOf, Arrangement, TotalMonths;
    LedgerCloses(input, shock);
    SoldOut(input, shock);
  }


  // ---------------------------------------------------------------- the series the rates of return are read from

  /** The project series adds up to the ledger's close with the interest put back. */
  lemma ProjectCloses(input: AppraisalInput, shock: Shock)
    requires input.Valid() && TotalMonths(input) > 0
    ensures Sum(ProjectSeries(input, shock))
         == Ledger(input, shock)[TotalMonths(input) - 1].cum + TotalInterest(FlowOf(input, shock), TotalMonths(input))
  {
    hide *;
    var total := TotalMonths(input);
    LastRow(input, shock);
    LedgerCum(input, shock);
    WholeSeries(input, shock);
    CashSeries.UngearedTo(ConstrSeries(input, shock), RevSeries(input, shock), LandGross(input, shock), total);
  }

  lemma WholeSeries(input: AppraisalInput, shock: Shock)
    requires input.Valid()
    ensures var n := TotalMonths(input) + 1;
            && RevSeries(input, shock)[..n] == RevSeries(input, shock)
            && ConstrSeries(input, shock)[..n] == ConstrSeries(input, shock)
            && ProjectSeries(input, shock)[..n] == ProjectSeries(input, shock)
            && EquitySeries(input, shock)[..n] == EquitySeries(input, shock)
    ensures ProjectSeries(input, shock)
         == CashSeries.Ungeared(ConstrSeries(input, shock), RevSeries(input, shock), LandGross(input, shock))
    ensures EquitySeries(input, shock)
         == CashSeries.Geared(ConstrSeries(input, shock), RevSeries(input, shock), LandGross(input, shock),
                              LoanToCost(input), DebtIncurred(input, shock))
  {
    hide RevSeries, ConstrSeries, LandGross, DebtIncurred, TotalMonths, CashSeries.Ungeared, CashSeries.Geared;
  }

  /** All that is drawn is the lent share of all that is spent. */
  lemma {:induction false} DrawnIsLent(f: Flow, constr: seq<real>, ltcF: real, m: nat)
    requires f.Valid() && |constr| == |f.draws| && m < |constr| && constr[0] == 0.0
    requires f.draws == Draws(constr, ltcF)
    ensures Drawn(f, m) == Times(Sum(constr[..m + 1]), ltcF)
  {
    CashSeries.SumFrom(constr, m);
    if m == 0 {
      CashSeries.NoneYet(constr);
      NilTimes(ltcF);
    } else {
      DrawnIsLent(f, constr, ltcF, m - 1);
      DrawIs(constr[m], ltcF);
      TimesSplits(Sum(constr[..m + 1]), Sum(constr[..m]), constr[m], ltcF);
    }
    hide Sum, Times;
  }

  lemma DrawIs(spend: real, ltcF: real)
    ensures Draw(spend, ltcF) == Times(spend, ltcF)
  {
  }

  lemma DebtIs(input: AppraisalInput, shock: Shock)
    requires input.Valid() && ConstrSeries(input, shock)[0] == 0.0
    ensures DebtIncurred(input, shock)
         == Times(Sum(ConstrSeries(input, shock)), LoanToCost(input))
            + TotalInterest(FlowOf(input, shock), TotalMonths(input))
  {
    var f, total := FlowOf(input, shock), TotalMonths(input);
    assert f.draws == Draws(ConstrSeries(input, shock), LoanToCost(input));
    hide TotalMonths, ConstrSeries, RevSeries, Draws, TotalInterest;
    DrawnIsLent(f, ConstrSeries(input, shock), LoanToCost(input), total);
    assert ConstrSeries(input, shock)[..total + 1] == ConstrSeries(input, shock);
  }

  lemma LentAndNot(spend: real, ltcF: real)
    ensures Times(spend, ltcF) + Times(spend, 1.0 - ltcF) == spend
  {
  }

  /** For every input: the equity series adds up to the ledger's close and whatever debt the receipts never reached. */
  lemma EquityCloses(input: AppraisalInput, shock: Shock)
    requires input.Valid() && TotalMonths(input) > 0
    ensures Sum(EquitySeries(input, shock))
         == Ledger(input, shock)[TotalMonths(input) - 1].cum
            + CashSeries.DebtLeft(RevSeries(input, shock), DebtIncurred(input, shock), TotalMonths(input))
  {
    hide *;
    LastRow(input, shock);
    LedgerCum(input, shock);
    EquityTotal(input, shock);
    DebtIs(input, shock);
    LentAndNot(Sum(ConstrSeries(input, shock)), LoanToCost(input));
  }

  lemma LedgerCum(input: AppraisalInput, shock: Shock)
    requires input.Valid() && TotalMonths(input) > 0
    ensures ConstrSeries(input, shock)[0] == 0.0 == RevSeries(input, shock)[0]
    ensures LedgerRow(input, shock, TotalMonths(input)).cum
         == Sum(RevSeries(input, shock)) - Sum(ConstrSeries(input, shock)) - LandGross(input, shock)
            - TotalInterest(FlowOf(input, shock), TotalMonths(input))
  {
    hide *;
    SpendConserved(input, shock);
    ReceiptsTotal(input, shock);
    CumulativeTo(input, shock, TotalMonths(input));
    WholeSeries(input, shock);
  }

  lemma EquityTotal(input: AppraisalInput, shock: Shock)
    requires input.Valid() && ConstrSeries(input, shock)[0] == 0.0 == RevSeries(input, shock)[0]
    ensures Sum(EquitySeries(input, shock))
         == Sum(RevSeries(input, shock)) - Times(Sum(ConstrSeries(input, shock)), 1.0 - LoanToCost(input))
            - LandGross(input, shock) - DebtIncurred(input, shock)
            + CashSeries.DebtLeft(RevSeries(input, shock), DebtIncurred(input, shock), TotalMonths(input))
  {
    hide *;
    WholeSeries(input, shock);
    CashSeries.GearedTo(ConstrSeries(input, shock), RevSeries(input, shock), LandGross(input, shock), LoanToCost(input),
                        DebtIncurred(input, shock), TotalMonths(input));
  }
}
