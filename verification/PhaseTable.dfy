/** The phase rows an appraisal reports account for its totals and its programme. */
module PhaseTable {
  import opened Numbers
  import opened Scheme
  import opened Engine
  import opened Monotone
  import Conservation

  function RowGdv(r: PhaseRow): real { r.gdv }

  function RowArea(r: PhaseRow): real { r.gia }

  function RowCost(r: PhaseRow): real { r.cost }

  function RowOther(r: PhaseRow): real { r.otherTotal }

  /** Gross area and cost of the let space, which is in no phase. */
  function HeldArea(input: AppraisalInput): real
    requires input.Valid()
  {
    Gross(input, IncomeArea(input))
  }

  function HeldCost(input: AppraisalInput, shock: Shock): real
    requires input.Valid()
  {
    Times(Times(SchemeRate(input, shock), HeldArea(input)), input.OnCosts())
  }

  lemma RowIs(input: AppraisalInput, shock: Shock, i: nat)
    requires input.Phased() && i < |input.phases|
    ensures var r, pc, p := PhaseRows(input, shock).value[i], Phases(input, shock)[i], input.phases[i];
            && r.gdv == pc.gdv && r.gia == pc.gia && r.cost == pc.build + pc.fees + pc.cont
            && r.otherTotal == pc.otherTotal
            && r.practicalCompletion == PracticalCompletion(p) && r.end == PhaseEnd(p)
  {
    hide Times, Percent, SumOf, PhaseGia, PhaseShares, PracticalCompletion, PhaseEnd;
  }

  lemma {:induction false} CostsAdd(ps: seq<PhaseCalc>, rows: seq<PhaseRow>)
    requires |ps| == |rows| && forall i :: 0 <= i < |ps| ==> rows[i].cost == ps[i].build + ps[i].fees + ps[i].cont
    ensures SumOf(RowCost, rows) == SumOf(BuildOf, ps) + SumOf(FeesOf, ps) + SumOf(ContOf, ps)
  {
    if |ps| > 0 { CostsAdd(ps[..|ps| - 1], rows[..|ps| - 1]); }
  }

  lemma {:induction false} CompletionReached(phases: seq<Phase>) returns (i: nat)
    requires |phases| > 0
    ensures i < |phases| && PracticalCompletion(phases[i]) == LatestCompletion(phases)
  {
    hide PracticalCompletion;
    var n := |phases| - 1;
    i := n;
    if n > 0 {
      var j := CompletionReached(phases[..n]);
      if PracticalCompletion(phases[n]) <= LatestCompletion(phases[..n]) { i := j; }
    }
  }

  lemma {:induction false} EndReached(phases: seq<Phase>) returns (i: nat)
    requires |phases| > 0
    ensures i < |phases| && PhaseEnd(phases[i]) == LatestEnd(phases)
  {
    hide PhaseEnd;
    var n := |phases| - 1;
    i := n;
    if n > 0 {
      var j := EndReached(phases[..n]);
      if PhaseEnd(phases[n]) <= LatestEnd(phases[..n]) { i := j; }
    }
  }

  /** The figures below, as the appraisal reports them. */
  lemma Reported(input: AppraisalInput, shock: Shock)
    requires input.Valid()
    ensures var r := Appraise(input, shock);
            && r.salesGdv == SalesGdv(input, shock) && r.gia == Gia(input) && r.phases == PhaseRows(input, shock)
            && r.build == Build(input, shock) && r.fees == Fees(input, shock)
            && r.cont == Contingency(input, shock) && r.otherTotal == OtherTotal(input, shock)
            && r.period == BuildPeriod(input) && r.period + r.salesMonths == TotalMonths(input)
  {
    hide SalesGdv, Gia, Nia, PhaseRows, Build, Fees, Contingency, OtherTotal, BuildPeriod, TotalMonths, Gdv, IncomeOf,
         SaleCosts, InterestCost, Finance, ResidualNet, LandGross, TotalCost, ProfitOf, ReturnOnCost, PeakDebt,
         Times, Div;
  }

  lemma HeldOnCosts(x: real, feePct: real, contPct: real)
    ensures x + Percent(x, feePct) + Percent(x, contPct) == Times(x, 1.0 + (feePct + contPct) / 100.0)
  {
  }

  lemma HeldCostIs(input: AppraisalInput, shock: Shock)
    requires input.Valid() && UnphasedGia(input, shock) == HeldArea(input)
    ensures var u := UnphasedBuild(input, shock);
            HeldCost(input, shock) == u + Percent(u, input.profFeePct) + Percent(u, input.contingencyPct)
  {
    HeldOnCosts(UnphasedBuild(input, shock), input.profFeePct, input.contingencyPct);
    hide Times, Percent, SchemeRate, HeldArea, UnphasedGia;
  }

  /** Value, area and cost are the rows' own and the let space's; nothing is counted twice or left to neither. */
  lemma RowsAccount(input: AppraisalInput, shock: Shock)
    requires input.Valid() && input.Phased()
    ensures var r := Appraise(input, shock);
            var rows := r.phases.value;
            && r.salesGdv == SumOf(RowGdv, rows)
            && r.gia == SumOf(RowArea, rows) + HeldArea(input)
            && r.build + r.fees + r.cont + r.otherTotal
               == SumOf(RowCost, rows) + SumOf(RowOther, rows) + SumOf(Amount, input.otherCosts) + HeldCost(input, shock)
  {
    var rows: seq<PhaseRow>, ps := PhaseRows(input, shock).value, Phases(input, shock);
    forall i | 0 <= i < |rows|
      ensures rows[i].gdv == ps[i].gdv && rows[i].gia == ps[i].gia && rows[i].otherTotal == ps[i].otherTotal
      ensures rows[i].cost == ps[i].build + ps[i].fees + ps[i].cont
    {
      RowIs(input, shock, i);
    }
    SumOfSame(RowGdv, rows, GdvOf, ps);
    SumOfSame(RowArea, rows, GiaOf, ps);
    SumOfSame(RowOther, rows, OtherOf, ps);
    CostsAdd(ps, rows);
    Reported(input, shock);
    PhasesSellEverything(input, shock);
    Conservation.HeldAreaIsUnphased(input, shock);
    HeldCostIs(input, shock);
    TotalsAre(input, shock);
    hide *;
  }

  lemma TotalsAre(input: AppraisalInput, shock: Shock)
    requires input.Valid()
    ensures var ps, u := Phases(input, shock), UnphasedBuild(input, shock);
            && Gia(input) == SumOf(GiaOf, ps) + UnphasedGia(input, shock)
            && Build(input, shock) == SumOf(BuildOf, ps) + u
            && Fees(input, shock) == SumOf(FeesOf, ps) + Percent(u, input.profFeePct)
            && Contingency(input, shock) == SumOf(ContOf, ps) + Percent(u, input.contingencyPct)
            && OtherTotal(input, shock) == SumOf(Amount, input.otherCosts) + SumOf(OtherOf, ps)
  {
    hide SumOf, Percent, Gia, Phases, UnphasedBuild;
  }

  /** No row completes after one month or sells past another. */
  predicate Within(rows: seq<PhaseRow>, completion: nat, end: nat) {
    forall i :: 0 <= i < |rows| ==> rows[i].practicalCompletion <= completion && rows[i].end <= end
  }

  predicate SomeCompletes(rows: seq<PhaseRow>, completion: nat) {
    exists i :: 0 <= i < |rows| && rows[i].practicalCompletion == completion
  }

  predicate SomeEnds(rows: seq<PhaseRow>, end: nat) { exists i :: 0 <= i < |rows| && rows[i].end == end }

  lemma RowWithin(input: AppraisalInput, shock: Shock, i: nat)
    requires input.Phased() && i < |input.phases|
    ensures var r := PhaseRows(input, shock).value[i];
            && r.practicalCompletion == PracticalCompletion(input.phases[i]) <= BuildPeriod(input)
            && r.end == PhaseEnd(input.phases[i]) <= TotalMonths(input)
  {
    hide *;
    RowIs(input, shock, i);
    ProgrammeIs(input);
    ProgrammeBounds(input.phases);
  }

  lemma RowsReach(input: AppraisalInput, shock: Shock)
    requires input.Phased()
    ensures var rows := PhaseRows(input, shock).value;
            && Within(rows, BuildPeriod(input), TotalMonths(input))
            && SomeCompletes(rows, BuildPeriod(input)) && SomeEnds(rows, TotalMonths(input))
  {
    hide PhaseRows, BuildPeriod, TotalMonths, PracticalCompletion, PhaseEnd, LatestCompletion, LatestEnd;
    ProgrammeIs(input);
    forall i | 0 <= i < |PhaseRows(input, shock).value|
      ensures PhaseRows(input, shock).value[i].practicalCompletion <= BuildPeriod(input)
      ensures PhaseRows(input, shock).value[i].end <= TotalMonths(input)
    {
      RowWithin(input, shock, i);
    }
    var c := CompletionReached(input.phases);
    RowWithin(input, shock, c);
    var e := EndReached(input.phases);
    RowWithin(input, shock, e);
  }

  /**
   * The programme is the rows': none completes or sells past it, one completes when the build does, and one ends it.
   */
  lemma RowsSetProgramme(input: AppraisalInput, shock: Shock)
    requires input.Valid() && input.Phased()
    ensures var r := Appraise(input, shock);
            && Within(r.phases.value, r.period, r.period + r.salesMonths)
            && SomeCompletes(r.phases.value, r.period) && SomeEnds(r.phases.value, r.period + r.salesMonths)
  {
    hide *;
    Reported(input, shock);
    RowsReach(input, shock);
  }

  lemma ProgrammeIs(input: AppraisalInput)
    requires input.Phased()
    ensures BuildPeriod(input) == LatestCompletion(input.phases) && TotalMonths(input) == LatestEnd(input.phases)
  {
  }
}
