/** The two monthly series an appraisal's rates of return are read from, and the annual rate a monthly one compounds to. */
module CashSeries {
  import opened Numbers

  /** Before borrowing: land first, then each month's receipts less its spend. */
  function Ungeared(constr: seq<real>, revs: seq<real>, land: real): (cf: seq<real>)
    requires |constr| == |revs|
    ensures |cf| == |constr|
  {
    seq(|constr|, m requires 0 <= m < |constr| => if m == 0 then -land else revs[m] - constr[m])
  }

  /** What of the debt the receipts of months `1..m` have not reached. */
  function DebtLeft(revs: seq<real>, debt: real, m: nat): real
    requires m < |revs|
  {
    if m == 0 then debt
    else
      var owed := DebtLeft(revs, debt, m - 1);
      owed - Min(revs[m], owed)
  }

  /** After borrowing: equity funds land and the share of spend that is not lent, and is paid once the debt has been. */
  function Geared(constr: seq<real>, revs: seq<real>, land: real, ltcF: real, debt: real): (cf: seq<real>)
    requires |constr| == |revs|
    ensures |cf| == |constr|
  {
    seq(|constr|, m requires 0 <= m < |constr| =>
      if m == 0 then -land else EquityFlow(constr[m], revs[m], ltcF, DebtLeft(revs, debt, m - 1)))
  }

  function EquityFlow(spend: real, rev: real, ltcF: real, owed: real): real {
    -Times(spend, 1.0 - ltcF) + (rev - Min(rev, owed))
  }

  method LayUngeared(constr: array<real>, revs: array<real>, land: real) returns (cfU: array<real>)
    requires constr.Length == revs.Length > 0
    ensures fresh(cfU) && cfU[..] == Ungeared(constr[..], revs[..], land)
  {
    cfU := new real[constr.Length](_ => 0.0);
    cfU[0] := -land;
    for m := 1 to constr.Length
      invariant cfU[0] == -land
      invariant forall k :: 1 <= k < m ==> cfU[k] == revs[k] - constr[k]
    {
      cfU[m] := revs[m] - constr[m];
    }
  }

  lemma GearedAt(constr: seq<real>, revs: seq<real>, land: real, ltcF: real, debt: real, m: nat)
    requires |constr| == |revs| && m < |constr|
    ensures Geared(constr, revs, land, ltcF, debt)[m]
         == if m == 0 then -land else EquityFlow(constr[m], revs[m], ltcF, DebtLeft(revs, debt, m - 1))
    ensures DebtLeft(revs, debt, m)
         == if m == 0 then debt else DebtLeft(revs, debt, m - 1) - Min(revs[m], DebtLeft(revs, debt, m - 1))
  {
    hide EquityFlow;
  }

  method LayGeared(constr: array<real>, revs: array<real>, land: real, ltcF: real, debt: real) returns (cfE: array<real>)
    requires constr.Length == revs.Length > 0
    ensures fresh(cfE) && cfE[..] == Geared(constr[..], revs[..], land, ltcF, debt)
  {
    hide Times, DebtLeft, Geared;
    ghost var c, r := constr[..], revs[..];
    ghost var whole := Geared(c, r, land, ltcF, debt);
    GearedAt(c, r, land, ltcF, debt, 0);
    cfE := new real[constr.Length](_ => 0.0);
    cfE[0] := -land;
    var debtOut := debt;
    for m := 1 to constr.Length
      invariant debtOut == DebtLeft(r, debt, m - 1)
      invariant forall k :: 0 <= k < m ==> cfE[k] == whole[k]
      invariant forall k :: m <= k < constr.Length ==> cfE[k] == 0.0
    {
      GearedAt(c, r, land, ltcF, debt, m);
      cfE[m] := cfE[m] - Times(constr[m], 1.0 - ltcF);
      var repay := Min(revs[m], debtOut);
      debtOut := debtOut - repay;
      cfE[m] := cfE[m] + (revs[m] - repay);
    }
    assert cfE[..] == whole;
  }

  /** `annualise`: twelve months at the monthly rate. */
  function Annualise(monthly: Option<real>): Option<real> {
    if monthly.None? then None else Some(Pow(1.0 + monthly.value, 12) - 1.0)
  }

  // ---------------------------------------------------------------- what the series come to

  lemma SumFrom(s: seq<real>, m: nat)
    requires m < |s|
    ensures Sum(s[..m + 1]) == Sum(s[..m]) + s[m]
  {
    assert s[..m + 1][..m] == s[..m];
  }

  lemma {:induction false} UngearedTo(constr: seq<real>, revs: seq<real>, land: real, m: nat)
    requires |constr| == |revs| && m < |constr| && constr[0] == revs[0] == 0.0
    ensures Sum(Ungeared(constr, revs, land)[..m + 1]) == Sum(revs[..m + 1]) - Sum(constr[..m + 1]) - land
  {
    SumFrom(Ungeared(constr, revs, land), m);
    SumFrom(constr, m);
    SumFrom(revs, m);
    if m == 0 {
      NoneYet(Ungeared(constr, revs, land));
      NoneYet(constr);
      NoneYet(revs);
    } else {
      UngearedTo(constr, revs, land, m - 1);
    }
    hide Sum;
  }

  lemma NoneYet(s: seq<real>)
    ensures Sum(s[..0]) == 0.0
  {
  }

  /** What equity has paid and received by month `m`: its share of everything, less the debt the receipts have cleared. */
  lemma {:induction false} GearedTo(constr: seq<real>, revs: seq<real>, land: real, ltcF: real, debt: real, m: nat)
    requires |constr| == |revs| && m < |constr| && constr[0] == revs[0] == 0.0
    ensures Sum(Geared(constr, revs, land, ltcF, debt)[..m + 1])
         == Sum(revs[..m + 1]) - Times(Sum(constr[..m + 1]), 1.0 - ltcF) - land - debt + DebtLeft(revs, debt, m)
  {
    hide Sum, Geared, DebtLeft, Times;
    var cf := Geared(constr, revs, land, ltcF, debt);
    SumFrom(cf, m);
    SumFrom(constr, m);
    SumFrom(revs, m);
    GearedAt(constr, revs, land, ltcF, debt, m);
    if m == 0 {
      NoneYet(cf);
      NoneYet(constr);
      NoneYet(revs);
      NilTimes(1.0 - ltcF);
    } else {
      GearedTo(constr, revs, land, ltcF, debt, m - 1);
      TimesSplits(Sum(constr[..m + 1]), Sum(constr[..m]), constr[m], 1.0 - ltcF);
    }
  }

  /** Receipts clear the debt in order: what is left is what they have not yet come to, and never less than nothing. */
  lemma {:induction false} DebtLeftIs(revs: seq<real>, debt: real, m: nat)
    requires m < |revs| && revs[0] == 0.0 && debt >= 0.0 && forall k :: 0 <= k <= m ==> revs[k] >= 0.0
    ensures DebtLeft(revs, debt, m) == Max(0.0, debt - Sum(revs[..m + 1]))
  {
    SumFrom(revs, m);
    if m == 0 {
      NoneYet(revs);
    } else {
      DebtLeftIs(revs, debt, m - 1);
      SumNonNegative(revs[..m]);
    }
    hide Sum;
  }

  /** A positive monthly rate compounds to more than twelve times itself, and every rate to more than total loss. */
  lemma AnnualRate(r: real)
    requires r > -1.0
    ensures Annualise(None) == None && Annualise(Some(r)) == Some(Pow(1.0 + r, 12) - 1.0)
    ensures Annualise(Some(r)).value > -1.0
    ensures r >= 0.0 ==> Annualise(Some(r)).value >= 12.0 * r
  {
    PowPositive(1.0 + r, 12);
    if r >= 0.0 { CompoundsOver(r, 12); }
  }

  lemma {:induction false} CompoundsOver(r: real, n: nat)
    requires r >= 0.0
    ensures Pow(1.0 + r, n) >= 1.0 + n as real * r
  {
    if n > 0 {
      CompoundsOver(r, n - 1);
      PowStep(1.0 + r, n);
      var before := 1.0 + (n - 1) as real * r;
      MulMono(before, Pow(1.0 + r, n - 1), 1.0 + r);
      MulNonNegative((n - 1) as real * r, r);
      assert (1.0 + r) * before == 1.0 + n as real * r + (n - 1) as real * r * r;
    }
  }
}
