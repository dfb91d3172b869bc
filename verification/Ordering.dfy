/** Earlier spend never costs less finance: front-, even- and back-loaded builds compared. */
module Ordering {
  import opened Numbers
  import opened SpendProfile
  import opened Spend
  import opened Scheme
  import opened Facility
  import opened Engine
  import Construction
  import Monotone

  function WithProfile(input: AppraisalInput, key: SpendKey): AppraisalInput {
    input.(finance := input.finance.(spendProfile := Some(key)))
  }

  /** One profile over one build: no phases and no line timed for itself. */
  predicate OneProfile(input: AppraisalInput) { !input.Phased() && !Timed(input) }

  ghost predicate NonNegativeFinance(input: AppraisalInput, shock: Shock)
    requires input.Valid()
  {
    && input.finance.ltcPct >= 0.0 && input.finance.ratePct >= 0.0 && input.finance.arrangementFeePct >= 0.0
    && ConstructionTotal(input, shock) >= 0.0
  }

  // ---------------------------------------------------------------- the profile moves spend and nothing else

  lemma SameProgramme(input: AppraisalInput, key: SpendKey)
    requires OneProfile(input)
    ensures BuildPeriod(WithProfile(input, key)) == BuildPeriod(input)
    ensures TotalMonths(WithProfile(input, key)) == TotalMonths(input)
    ensures SchemeShares(WithProfile(input, key)) == SchemeShares(input)
  {
  }

  lemma SameMoney(input: AppraisalInput, key: SpendKey, shock: Shock)
    requires input.Valid() && OneProfile(input)
    ensures var other := WithProfile(input, key);
            && Gdv(other, shock) == Gdv(input, shock) && SaleCosts(other, shock) == SaleCosts(input, shock)
            && Build(other, shock) == Build(input, shock) && Fees(other, shock) == Fees(input, shock)
            && Contingency(other, shock) == Contingency(input, shock) && OtherTotal(other, shock) == OtherTotal(input, shock)
  {
    hide Times, Percent, Div, SumOf, CalcPhase;
    var other := WithProfile(input, key);
    assert Phases(other, shock) == Phases(input, shock);
    assert Gia(other) == Gia(input);
    assert SchemeRate(other, shock) == SchemeRate(input, shock);
    hide Gia, SchemeRate;
  }

  lemma SameReceipts(input: AppraisalInput, key: SpendKey, shock: Shock)
    requires input.Valid() && OneProfile(input)
    ensures RevSeries(WithProfile(input, key), shock) == RevSeries(input, shock)
  {
    SameProgramme(input, key);
    SameMoney(input, key, shock);
    hide Gdv, SaleCosts, SchemeShares, TotalMonths, BuildPeriod, ApplyAll;
  }

  lemma NothingSoldInTheBuild(input: AppraisalInput, shock: Shock)
    requires input.Valid() && OneProfile(input)
    ensures forall m :: 0 <= m <= BuildPeriod(input) ==> RevSeries(input, shock)[m] == 0.0
  {
    SalesFollowBuild(input);
    hide Gdv, SaleCosts, SchemeShares, TotalMonths, BuildPeriod;
    ApplyAllBefore(Zeros(TotalMonths(input) + 1), Receipts(input, shock), BuildPeriod(input) + 1);
  }

  // ---------------------------------------------------------------- what has been drawn by each month

  lemma SpendInMonth(input: AppraisalInput, shock: Shock, m: nat)
    requires input.Valid() && OneProfile(input) && 1 <= m <= TotalMonths(input)
    ensures ConstrSeries(input, shock)[m]
         == if m <= BuildPeriod(input)
            then Times(ConstructionTotal(input, shock), Weights(BuildPeriod(input), input.Profile())[m - 1])
            else 0.0
  {
    hide ConstructionTotal, Weights, Times, TotalMonths, BuildPeriod;
    var x := Spread(ConstructionTotal(input, shock), 1, Weights(BuildPeriod(input), input.Profile()));
    Construction.SingleSpread(Zeros(TotalMonths(input) + 1), x);
  }

  /** Drawn to date is a share of one total: the profile's running share. */
  lemma {:induction false} DrawnToDate(input: AppraisalInput, shock: Shock, k: nat)
    requires input.Valid() && OneProfile(input) && k <= BuildPeriod(input) <= TotalMonths(input)
    ensures Drawn(FlowOf(input, shock), k)
         == Times(Times(ConstructionTotal(input, shock), LoanToCost(input)),
                  Sum(Weights(BuildPeriod(input), input.Profile())[..k]))
  {
    hide ConstructionTotal, Weights, ConstrSeries, RevSeries, TotalMonths, BuildPeriod;
    var w, total := Weights(BuildPeriod(input), input.Profile()), ConstructionTotal(input, shock);
    if k == 0 {
      TimesAdds(Times(total, LoanToCost(input)), 0.0, 0.0);
    } else {
      DrawnToDate(input, shock, k - 1);
      SpendInMonth(input, shock, k);
      assert w[..k][..k - 1] == w[..k - 1];
      DrawShare(total, w[k - 1], LoanToCost(input));
      TimesAdds(Times(total, LoanToCost(input)), Sum(w[..k - 1]), w[k - 1]);
      hide Times, Draw;
    }
  }

  lemma DrawShare(total: real, w: real, ltcF: real)
    ensures Draw(Times(total, w), ltcF) == Times(Times(total, ltcF), w)
  {
    assert total * w * ltcF == total * ltcF * w;
  }

  // ---------------------------------------------------------------- the comparison

  /** `early` has always spent at least as much as `late`. */
  ghost predicate RunsAhead(early: SpendKey, late: SpendKey, months: nat) {
    forall k :: 0 <= k <= months ==> Sum(Weights(months, late)[..k]) <= Sum(Weights(months, early)[..k])
  }

  lemma DrawnUnder(input: AppraisalInput, key: SpendKey, shock: Shock, k: nat)
    requires input.Valid() && OneProfile(input) && k <= BuildPeriod(input)
    ensures TotalMonths(WithProfile(input, key)) == TotalMonths(input) > BuildPeriod(input)
    ensures Drawn(FlowOf(WithProfile(input, key), shock), k)
         == Times(Times(ConstructionTotal(input, shock), LoanToCost(input)), Sum(Weights(BuildPeriod(input), key)[..k]))
  {
    SalesFollowBuild(input);
    SameProgramme(input, key);
    SameMoney(input, key, shock);
    assert ConstructionTotal(WithProfile(input, key), shock) == ConstructionTotal(input, shock);
    hide ConstructionTotal, Weights, FlowOf, TotalMonths, BuildPeriod, Times;
    DrawnToDate(WithProfile(input, key), shock, k);
  }

  lemma NothingDrawnAfterBuild(input: AppraisalInput, key: SpendKey, shock: Shock, k: nat)
    requires input.Valid() && OneProfile(input) && BuildPeriod(input) < k <= TotalMonths(input)
    ensures TotalMonths(WithProfile(input, key)) == TotalMonths(input)
    ensures FlowOf(WithProfile(input, key), shock).draws[k] == Draw(0.0, LoanToCost(input))
  {
    SameProgramme(input, key);
    hide ConstrSeries, RevSeries, TotalMonths, BuildPeriod, Draw;
    SpendInMonth(WithProfile(input, key), shock, k);
  }

  lemma AheadDrawsMore(input: AppraisalInput, shock: Shock, early: SpendKey, late: SpendKey)
    requires input.Valid() && OneProfile(input) && NonNegativeFinance(input, shock)
    requires RunsAhead(early, late, BuildPeriod(input))
    ensures BuildPeriod(input) < TotalMonths(input)
    ensures var f, g := FlowOf(WithProfile(input, late), shock), FlowOf(WithProfile(input, early), shock);
            && |f.draws| == |g.draws| == TotalMonths(input) + 1 && f.rate == g.rate && f.revs == g.revs
            && (forall k :: 0 <= k <= BuildPeriod(input) ==> Drawn(f, k) <= Drawn(g, k))
            && (forall k :: BuildPeriod(input) < k <= TotalMonths(input) ==> f.draws[k] == g.draws[k])
  {
    var a, b, P := WithProfile(input, late), WithProfile(input, early), BuildPeriod(input);
    SalesFollowBuild(input);
    SameProgramme(input, late);
    SameProgramme(input, early);
    SameReceipts(input, late, shock);
    SameReceipts(input, early, shock);
    var f, g := FlowOf(a, shock), FlowOf(b, shock);
    assert f.revs == g.revs && f.rate == g.rate;
    TimesMono(0.0, ConstructionTotal(input, shock), LoanToCost(input));
    NilTimes(LoanToCost(input));
    hide FlowOf, ConstructionTotal, Weights, TotalMonths, BuildPeriod, Times, Draw;
    forall k | 0 <= k <= P ensures Drawn(f, k) <= Drawn(g, k) {
      DrawnUnder(input, late, shock, k);
      DrawnUnder(input, early, shock, k);
      TimesMono(Sum(Weights(P, late)[..k]), Sum(Weights(P, early)[..k]),
                Times(ConstructionTotal(input, shock), LoanToCost(input)));
    }
    forall k | P < k <= TotalMonths(input) ensures f.draws[k] == g.draws[k] {
      NothingDrawnAfterBuild(input, late, shock, k);
      NothingDrawnAfterBuild(input, early, shock, k);
    }
  }

  lemma FlowRates(input: AppraisalInput, key: SpendKey, shock: Shock)
    requires input.Valid() && OneProfile(input) && NonNegativeFinance(input, shock)
    ensures FlowOf(WithProfile(input, key), shock).rate >= 0.0
    ensures FlowOf(WithProfile(input, key), shock).revs == RevSeries(input, shock)
  {
    SameReceipts(input, key, shock);
    hide RevSeries, ConstrSeries, TotalMonths;
  }

  /** Spending ahead never owes less in any month, pays less interest, peaks lower or leaves more for land. */
  lemma AheadCostsMore(input: AppraisalInput, shock: Shock, early: SpendKey, late: SpendKey, m: nat)
    requires input.Valid() && OneProfile(input) && NonNegativeFinance(input, shock)
    requires RunsAhead(early, late, BuildPeriod(input)) && m <= TotalMonths(input)
    ensures TotalMonths(WithProfile(input, late)) == TotalMonths(WithProfile(input, early)) == TotalMonths(input)
    ensures Cheaper(FlowOf(WithProfile(input, late), shock), FlowOf(WithProfile(input, early), shock), m)
    ensures m > 0 ==> Interest(FlowOf(WithProfile(input, late), shock), m)
                      <= Interest(FlowOf(WithProfile(input, early), shock), m)
  {
    hide FlowOf, RevSeries, TotalMonths, BuildPeriod, Accrued, NonNegativeFinance, RunsAhead, Interest, Balance;
    SameProgramme(input, late);
    SameProgramme(input, early);
    NothingSoldInTheBuild(input, shock);
    SalesFollowBuild(input);
    AheadDrawsMore(input, shock, early, late);
    var f, g := FlowOf(WithProfile(input, late), shock), FlowOf(WithProfile(input, early), shock);
    FlowRates(input, late, shock);
    LaterSpendCheaper(f, g, BuildPeriod(input), m);
    if m > 0 {
      LaterSpendCheaper(f, g, BuildPeriod(input), m - 1);
      InterestCheaper(f, g, m);
    }
  }

  lemma AheadLeavesLess(input: AppraisalInput, shock: Shock, early: SpendKey, late: SpendKey)
    requires input.Valid() && OneProfile(input) && NonNegativeFinance(input, shock)
    requires RunsAhead(early, late, BuildPeriod(input)) && input.mode == Residual && input.acqPct > -100.0
    ensures Arrangement(WithProfile(input, late), shock) <= Arrangement(WithProfile(input, early), shock)
    ensures ResidualNet(WithProfile(input, early), shock) <= ResidualNet(WithProfile(input, late), shock)
  {
    hide FlowOf, TotalMonths, BuildPeriod, Gdv, SaleCosts, Build, Fees, Contingency, OtherTotal, Percent, Div,
         RunsAhead;
    var a, b := WithProfile(input, late), WithProfile(input, early);
    AheadCostsMore(input, shock, early, late, TotalMonths(input));
    SameMoney(input, late, shock);
    SameMoney(input, early, shock);
    Monotone.PercentMono(PeakDebt(a, shock), PeakDebt(b, shock), input.finance.arrangementFeePct);
    DivMono(Gdv(b, shock) - CostsBeforeLand(b, shock) - TargetProfit(b, shock),
            Gdv(a, shock) - CostsBeforeLand(a, shock) - TargetProfit(a, shock), Acquisition(input));
  }

  lemma FrontRunsAhead(months: nat)
    requires months > 0
    ensures RunsAhead(Front, Even, months) && RunsAhead(Even, Back, months)
  {
    hide Weights;
    forall k | 0 <= k <= months
      ensures Sum(Weights(months, Back)[..k]) <= Sum(Weights(months, Even)[..k]) <= Sum(Weights(months, Front)[..k])
    {
      SpendOrder(months, k);
    }
  }

  /** Front-loading costs at least as much finance as even spend, and even spend as back-loading, month by month. */
  lemma FinanceOrder(input: AppraisalInput, shock: Shock, m: nat)
    requires input.Valid() && OneProfile(input) && NonNegativeFinance(input, shock) && m <= TotalMonths(input)
    ensures forall key :: TotalMonths(WithProfile(input, key)) == TotalMonths(input)
    ensures Cheaper(FlowOf(WithProfile(input, Even), shock), FlowOf(WithProfile(input, Front), shock), m)
    ensures Cheaper(FlowOf(WithProfile(input, Back), shock), FlowOf(WithProfile(input, Even), shock), m)
    ensures m > 0 ==> Interest(FlowOf(WithProfile(input, Back), shock), m)
                      <= Interest(FlowOf(WithProfile(input, Even), shock), m)
                      <= Interest(FlowOf(WithProfile(input, Front), shock), m)
  {
    SalesFollowBuild(input);
    FrontRunsAhead(BuildPeriod(input));
    forall key ensures TotalMonths(WithProfile(input, key)) == TotalMonths(input) { SameProgramme(input, key); }
    hide FlowOf, RunsAhead, Cheaper, TotalMonths, BuildPeriod;
    AheadCostsMore(input, shock, Front, Even, m);
    AheadCostsMore(input, shock, Even, Back, m);
  }

  /** So what is left for land orders the other way. */
  lemma ResidualOrder(input: AppraisalInput, shock: Shock)
    requires input.Valid() && OneProfile(input) && NonNegativeFinance(input, shock)
    requires input.mode == Residual && input.acqPct > -100.0
    ensures ResidualNet(WithProfile(input, Front), shock) <= ResidualNet(WithProfile(input, Even), shock)
            <= ResidualNet(WithProfile(input, Back), shock)
    ensures Arrangement(WithProfile(input, Back), shock) <= Arrangement(WithProfile(input, Even), shock)
            <= Arrangement(WithProfile(input, Front), shock)
  {
    SalesFollowBuild(input);
    FrontRunsAhead(BuildPeriod(input));
    hide RunsAhead, ResidualNet, Arrangement, BuildPeriod, TotalMonths;
    AheadLeavesLess(input, shock, Front, Even);
    AheadLeavesLess(input, shock, Even, Back);
  }


  // ---------------------------------------------------------------- a fixed land price

  /** In profit mode the land price is fixed, so what finance takes comes out of profit. */
  lemma AheadEarnsLess(input: AppraisalInput, shock: Shock, early: SpendKey, late: SpendKey)
    requires input.Valid() && OneProfile(input) && NonNegativeFinance(input, shock)
    requires RunsAhead(early, late, BuildPeriod(input)) && input.mode == Profit
    ensures Arrangement(WithProfile(input, late), shock) <= Arrangement(WithProfile(input, early), shock)
    ensures ProfitOf(WithProfile(input, early), shock) <= ProfitOf(WithProfile(input, late), shock)
  {
    hide FlowOf, TotalMonths, BuildPeriod, Gdv, SaleCosts, Build, Fees, Contingency, OtherTotal, Percent, Times,
         RunsAhead;
    var a, b := WithProfile(input, late), WithProfile(input, early);
    AheadCostsMore(input, shock, early, late, TotalMonths(input));
    SameMoney(input, late, shock);
    SameMoney(input, early, shock);
    Monotone.PercentMono(PeakDebt(a, shock), PeakDebt(b, shock), input.finance.arrangementFeePct);
  }

  /** So profit orders as residual land value does. */
  lemma ProfitOrder(input: AppraisalInput, shock: Shock)
    requires input.Valid() && OneProfile(input) && NonNegativeFinance(input, shock) && input.mode == Profit
    ensures ProfitOf(WithProfile(input, Front), shock) <= ProfitOf(WithProfile(input, Even), shock)
            <= ProfitOf(WithProfile(input, Back), shock)
  {
    SalesFollowBuild(input);
    FrontRunsAhead(BuildPeriod(input));
    hide RunsAhead, ProfitOf, Arrangement, BuildPeriod, TotalMonths;
    AheadEarnsLess(input, shock, Front, Even);
    AheadEarnsLess(input, shock, Even, Back);
  }
}
